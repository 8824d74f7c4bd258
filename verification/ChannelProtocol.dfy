/** Two endpoints of one channel over a network that may lose, repeat and reorder updates. Signatures are
    ideal, so an endpoint only ever gets updates its peer really sent. */
module ChannelProtocol {
  import opened Common
  import opened SigningBytes
  import opened Channel

  datatype Side = Left | Right

  function Other(s: Side): Side {
    if s == Left then Right else Left
  }

  /** A payment as both sides should remember it. */
  datatype Entry = Entry(payer: Side, update: ChannelUpdate)

  /** An endpoint with everything it ever sent, and the payments it made or applied, in its own order. */
  datatype Endpoint = Endpoint(state: State, sent: seq<ChannelUpdate>, log: seq<Entry>)

  datatype World = World(left: Endpoint, right: Endpoint)

  function At(w: World, s: Side): Endpoint {
    if s == Left then w.left else w.right
  }

  function Put(w: World, s: Side, e: Endpoint): World {
    if s == Left then w.(left := e) else w.(right := e)
  }

  /** The network hands over any update its peer ever sent, any number of times, in any order, or never. */
  datatype Event =
    | Pays(side: Side, amount: U64, now: Instant)
    | Delivers(side: Side, which: nat, now: Instant)

  function Step(w: World, e: Event): (w': World)
    requires Balanced(w.left.state) && Balanced(w.right.state)
    ensures Balanced(w'.left.state) && Balanced(w'.right.state)
  {
    var me := At(w, e.side);
    match e
    case Pays(side, amount, now) =>
      var (s', r) := Pay(me.state, amount, now);
      if r.Failure? then w
      else Put(w, side, Endpoint(s', me.sent + [r.value], me.log + [Entry(side, r.value)]))
    case Delivers(side, which, now) =>
      var sent := At(w, Other(side)).sent;
      if which >= |sent| then w
      else
        var (s', r) := Receive(me.state, sent[which], now);
        if r.Failure? then w
        else Put(w, side, Endpoint(s', me.sent, me.log + [Entry(Other(side), sent[which])]))
  }

  function Run(w: World, es: seq<Event>): (w': World)
    requires Balanced(w.left.state) && Balanced(w.right.state)
    ensures Balanced(w'.left.state) && Balanced(w'.right.state)
  {
    if es == [] then w else Step(Run(w, es[..|es| - 1]), es[|es| - 1])
  }

  /** Both endpoints just opened: the left one funded the channel, the right one mirrors it. */
  ghost predicate Opened(w: World) {
    var l, r := w.left.state, w.right.state;
    && l == Create(l.id, l.localPeer, l.remotePeer, l.capacity, l.expiresAt).(status := Open)
    && r == l.(localPeer := l.remotePeer, remotePeer := l.localPeer, local := 0, remote := l.capacity)
    && w.left.sent == w.right.sent == [] && w.left.log == w.right.log == []
  }

  predicate NotBehind(w: World, s: Side) {
    At(w, Other(s)).state.nonce <= At(w, s).state.nonce
  }

  /** The event is a payment, and the call succeeds. */
  predicate Succeeds(w: World, e: Event)
    requires Balanced(w.left.state) && Balanced(w.right.state)
  {
    e.Pays? && Pay(At(w, e.side).state, e.amount, e.now).1.Success?
  }

  /** The i-th event of a run is no successful payment of an endpoint that is behind. */
  ghost predicate InTurn(w: World, es: seq<Event>, i: nat)
    requires Balanced(w.left.state) && Balanced(w.right.state) && i < |es|
  {
    Succeeds(Run(w, es[..i]), es[i]) ==> NotBehind(Run(w, es[..i]), es[i].side)
  }

  /** Every successful payment of the run is made by an endpoint that has applied all its peer sent. */
  ghost predicate TakesTurns(w: World, es: seq<Event>)
    requires Balanced(w.left.state) && Balanced(w.right.state)
  {
    forall i :: 0 <= i < |es| ==> InTurn(w, es, i)
  }

  /** The local balance of `side` after the first `n` payments of a ledger. */
  ghost function BalanceAfter(ledger: seq<Entry>, n: nat, side: Side, capacity: U64): int
    requires n <= |ledger|
  {
    if n == 0 then (if side == Left then capacity else 0)
    else if ledger[n - 1].payer == side then ledger[n - 1].update.local
    else ledger[n - 1].update.remote
  }

  /** One end agrees with the ledger: it remembers a prefix of it, and holds the balance after that prefix. */
  ghost predicate Follows(e: Endpoint, side: Side, ledger: seq<Entry>, capacity: U64) {
    && e.state.capacity == capacity && Balanced(e.state) && e.state.status == Open
    && e.state.nonce == e.state.updates == |e.log| <= |ledger|
    && e.log == ledger[..|e.log|]
    && e.state.local == BalanceAfter(ledger, |e.log|, side, capacity)
    && (forall u :: u in e.sent ==> Entry(side, u) in ledger)
    && (forall i :: 0 <= i < |ledger| && ledger[i].payer == side ==> ledger[i].update in e.sent)
  }

  /** Payment i has nonce i + 1, splits the capacity, and does not raise its payer's balance. */
  ghost predicate EntryOk(ledger: seq<Entry>, i: nat, capacity: U64)
    requires i < |ledger|
  {
    var e := ledger[i];
    && e.update.nonce == i + 1
    && e.update.local + e.update.remote == capacity
    && e.update.local <= BalanceAfter(ledger, i, e.payer, capacity)
  }

  ghost predicate WellFormed(ledger: seq<Entry>, capacity: U64) {
    forall i :: 0 <= i < |ledger| ==> EntryOk(ledger, i, capacity)
  }

  /** One ledger explains both ends; whoever lags has only its peer's payments left to apply. */
  ghost predicate Agree(w: World, ledger: seq<Entry>) {
    var capacity := w.left.state.capacity;
    && WellFormed(ledger, capacity)
    && Follows(w.left, Left, ledger, capacity) && Follows(w.right, Right, ledger, capacity)
    && (|w.left.log| == |ledger| || |w.right.log| == |ledger|)
    && (forall i :: |w.left.log| <= i < |ledger| ==> ledger[i].payer == Right)
    && (forall i :: |w.right.log| <= i < |ledger| ==> ledger[i].payer == Left)
  }

  lemma PrefixBalance(ledger: seq<Entry>, e: Entry, n: nat, side: Side, capacity: U64)
    requires n <= |ledger|
    ensures BalanceAfter(ledger + [e], n, side, capacity) == BalanceAfter(ledger, n, side, capacity)
  {
  }

  lemma WellFormedGrows(ledger: seq<Entry>, e: Entry, capacity: U64)
    requires WellFormed(ledger, capacity) && e.update.nonce == |ledger| + 1
    requires e.update.local + e.update.remote == capacity
    requires e.update.local <= BalanceAfter(ledger, |ledger|, e.payer, capacity)
    ensures WellFormed(ledger + [e], capacity)
  {
    forall i | 0 <= i < |ledger + [e]| ensures EntryOk(ledger + [e], i, capacity) {
      PrefixBalance(ledger, e, i, (ledger + [e])[i].payer, capacity);
      assert i < |ledger| ==> EntryOk(ledger, i, capacity);
    }
  }

  lemma BystanderFollows(e: Endpoint, side: Side, ledger: seq<Entry>, entry: Entry, capacity: U64)
    requires Follows(e, side, ledger, capacity) && entry.payer != side
    ensures Follows(e, side, ledger + [entry], capacity)
  {
    PrefixBalance(ledger, entry, |e.log|, side, capacity);
    assert (ledger + [entry])[..|e.log|] == ledger[..|e.log|];
  }

  lemma PayerFollows(e: Endpoint, side: Side, ledger: seq<Entry>, amount: U64, now: Instant)
    requires Follows(e, side, ledger, e.state.capacity) && e.log == ledger
    requires Pay(e.state, amount, now).1.Success?
    ensures var (s', r) := Pay(e.state, amount, now);
            var entry := Entry(side, r.value);
            Follows(Endpoint(s', e.sent + [r.value], e.log + [entry]), side, ledger + [entry], e.state.capacity)
  {
    var (s', r) := Pay(e.state, amount, now);
    var ledger' := ledger + [Entry(side, r.value)];
    assert ledger'[..|ledger'|] == ledger';
    assert forall u :: u in e.sent + [r.value] ==> u in e.sent || u == r.value;
  }

  lemma PayFacts(s: State, amount: U64, now: Instant)
    requires Balanced(s) && Pay(s, amount, now).1.Success?
    ensures var u := Pay(s, amount, now).1.value;
            u.nonce == s.nonce + 1 && u.local + u.remote == s.capacity && u.local <= s.local
  {
  }

  /** Agreement seen from the endpoint that is up to date. */
  lemma AgreementFrom(w: World, s: Side, ledger: seq<Entry>)
    requires WellFormed(ledger, At(w, s).state.capacity)
    requires Follows(At(w, s), s, ledger, At(w, s).state.capacity) && |At(w, s).log| == |ledger|
    requires Follows(At(w, Other(s)), Other(s), ledger, At(w, s).state.capacity)
    requires forall i :: |At(w, Other(s)).log| <= i < |ledger| ==> ledger[i].payer == s
    ensures Agree(w, ledger)
  {
    assert w.left.state.capacity == w.right.state.capacity;
    hide Follows, WellFormed;
  }

  /** An endpoint that is not behind remembers the whole ledger. */
  lemma UpToDate(w: World, ledger: seq<Entry>, s: Side)
    requires Agree(w, ledger) && NotBehind(w, s)
    ensures var me, you := At(w, s), At(w, Other(s));
            && me.log == ledger && WellFormed(ledger, me.state.capacity)
            && Follows(me, s, ledger, me.state.capacity) && Follows(you, Other(s), ledger, me.state.capacity)
            && me.state.nonce == |ledger| && me.state.local == BalanceAfter(ledger, |ledger|, s, me.state.capacity)
            && forall i :: |you.log| <= i < |ledger| ==> ledger[i].payer == s
  {
    hide WellFormed, BalanceAfter;
  }

  lemma PayKeepsAgreement(w: World, ledger: seq<Entry>, e: Event) returns (ledger': seq<Entry>)
    requires Agree(w, ledger) && e.Pays? && (Succeeds(w, e) ==> NotBehind(w, e.side))
    ensures Agree(Step(w, e), ledger') && ledger <= ledger'
  {
    hide Pay, WellFormed, EntryOk, Follows, Agree, BalanceAfter;
    AgreedIsBalanced(w, ledger);
    var me, you := At(w, e.side), At(w, Other(e.side));
    var (s', r) := Pay(me.state, e.amount, e.now);
    ledger' := ledger;
    if r.Success? {
      var entry := Entry(e.side, r.value);
      ledger' := ledger + [entry];
      UpToDate(w, ledger, e.side);
      PayerFollows(me, e.side, ledger, e.amount, e.now);
      BystanderFollows(you, Other(e.side), ledger, entry, me.state.capacity);
      PayFacts(me.state, e.amount, e.now);
      WellFormedGrows(ledger, entry, me.state.capacity);
      var w' := Step(w, e);
      assert At(w', e.side) == Endpoint(s', me.sent + [r.value], me.log + [entry]) && At(w', Other(e.side)) == you;
      AgreementFrom(w', e.side, ledger');
    }
  }

  lemma AgreedIsBalanced(w: World, ledger: seq<Entry>)
    requires Agree(w, ledger)
    ensures Balanced(w.left.state) && Balanced(w.right.state)
  {
  }

  /** An update that carries the next nonce is the ledger's next entry. */
  lemma NextEntry(me: Endpoint, you: Endpoint, side: Side, ledger: seq<Entry>, u: ChannelUpdate)
    requires WellFormed(ledger, me.state.capacity) && u in you.sent && u.nonce == me.state.nonce + 1
    requires Follows(me, side, ledger, me.state.capacity) && Follows(you, Other(side), ledger, me.state.capacity)
    ensures |me.log| < |ledger| && ledger[|me.log|] == Entry(Other(side), u)
  {
    assert Entry(Other(side), u) in ledger;
    var i :| 0 <= i < |ledger| && ledger[i] == Entry(Other(side), u);
    assert EntryOk(ledger, i, me.state.capacity);
  }

  lemma ReceiverFollows(e: Endpoint, side: Side, ledger: seq<Entry>, u: ChannelUpdate, now: Instant)
    requires Follows(e, side, ledger, e.state.capacity) && |e.log| < |ledger|
    requires ledger[|e.log|] == Entry(Other(side), u) && Receive(e.state, u, now).1.Success?
    ensures Follows(Endpoint(Receive(e.state, u, now).0, e.sent, e.log + [Entry(Other(side), u)]),
                    side, ledger, e.state.capacity)
  {
    assert ledger[..|e.log| + 1] == ledger[..|e.log|] + [ledger[|e.log|]];
  }

  lemma DeliveryKeepsAgreement(w: World, ledger: seq<Entry>, e: Event)
    requires Agree(w, ledger) && e.Delivers?
    ensures Agree(Step(w, e), ledger)
  {
    var me, you, w' := At(w, e.side), At(w, Other(e.side)), Step(w, e);
    if w' != w {
      var u := you.sent[e.which];
      NextEntry(me, you, e.side, ledger, u);
      ReceiverFollows(me, e.side, ledger, u, e.now);
      assert At(w', Other(e.side)) == you;
      assert At(w', e.side) == Endpoint(Receive(me.state, u, e.now).0, me.sent, me.log + [Entry(Other(e.side), u)]);
      hide Step, Follows, WellFormed, Receive;
      AgreementFrom(w', Other(e.side), ledger);
    }
  }

  lemma TurnsSoFar(w: World, before: seq<Event>, e: Event)
    requires Balanced(w.left.state) && Balanced(w.right.state)
    ensures TakesTurns(w, before + [e]) <==> TakesTurns(w, before) && InTurn(w, before + [e], |before|)
    ensures InTurn(w, before + [e], |before|) <==> (Succeeds(Run(w, before), e) ==> NotBehind(Run(w, before), e.side))
    ensures Run(w, before + [e]) == Step(Run(w, before), e)
  {
    hide Step, Pay, NotBehind;
    var es := before + [e];
    assert es[..|before|] == before;
    forall i | 0 <= i < |before| ensures InTurn(w, es, i) <==> InTurn(w, before, i) {
      assert es[..i] == before[..i];
    }
  }

  /** In every state of every turn-taking run one ledger of payments explains both endpoints: each remembers a
      prefix of it, so each payment is applied at most once and in order, and the views differ only by the
      payments still in flight. */
  lemma {:induction false} TurnTakingAgrees(w: World, es: seq<Event>) returns (ledger: seq<Entry>)
    requires Opened(w) && TakesTurns(w, es)
    ensures Agree(Run(w, es), ledger)
  {
    if es == [] {
      ledger := [];
    } else {
      var before, e := es[..|es| - 1], es[|es| - 1];
      assert es == before + [e];
      TurnsSoFar(w, before, e);
      ledger := TurnTakingAgrees(w, before);
      hide Step, Agree, TakesTurns, InTurn, Succeeds;
      if e.Pays? {
        ledger := PayKeepsAgreement(Run(w, before), ledger, e);
      } else {
        DeliveryKeepsAgreement(Run(w, before), ledger, e);
      }
    }
  }

  /** Views at the same nonce mirror each other; otherwise the lagging side holds no more than its peer grants it,
      so the two local balances never exceed the capacity. */
  lemma {:induction false} AgreementMeansMirror(w: World, ledger: seq<Entry>)
    requires Agree(w, ledger)
    ensures w.left.state.nonce == w.right.state.nonce ==>
              w.left.state.local == w.right.state.remote && w.left.state.remote == w.right.state.local
    ensures w.left.state.local + w.right.state.local <= w.left.state.capacity
  {
    var capacity := w.left.state.capacity;
    if |w.left.log| == |ledger| {
      PayerOnlyLoses(ledger, Left, |w.right.log|, |ledger|, capacity);
      Complementary(ledger, |w.right.log|, capacity);
    } else {
      PayerOnlyLoses(ledger, Right, |w.left.log|, |ledger|, capacity);
      Complementary(ledger, |w.left.log|, capacity);
    }
  }

  lemma Complementary(ledger: seq<Entry>, n: nat, capacity: U64)
    requires WellFormed(ledger, capacity) && n <= |ledger|
    ensures BalanceAfter(ledger, n, Left, capacity) + BalanceAfter(ledger, n, Right, capacity) == capacity
  {
    assert n > 0 ==> EntryOk(ledger, n - 1, capacity);
  }

  lemma {:induction false} PayerOnlyLoses(ledger: seq<Entry>, side: Side, m: nat, n: nat, capacity: U64)
    requires WellFormed(ledger, capacity) && m <= n <= |ledger|
    requires forall i :: m <= i < n ==> ledger[i].payer == side
    ensures BalanceAfter(ledger, n, side, capacity) <= BalanceAfter(ledger, m, side, capacity)
    decreases n
  {
    if m < n {
      PayerOnlyLoses(ledger, side, m, n - 1, capacity);
      assert EntryOk(ledger, n - 1, capacity);
    }
  }

  ghost predicate OnlyLeftPays(es: seq<Event>) {
    forall i :: 0 <= i < |es| && es[i].Pays? ==> es[i].side == Left
  }

  lemma StepKeepsSilence(w: World, e: Event)
    requires Balanced(w.left.state) && Balanced(w.right.state)
    requires w.right.sent == [] && (e.Pays? ==> e.side == Left)
    ensures Step(w, e).right.sent == []
  {
    hide Pay, Receive;
  }

  /** With a single payer turns are taken automatically: the receiver can never be ahead. */
  lemma {:induction false} OnePayerTakesTurns(w: World, es: seq<Event>)
    requires Opened(w) && OnlyLeftPays(es)
    ensures TakesTurns(w, es) && Run(w, es).right.sent == [] && NotBehind(Run(w, es), Left)
  {
    hide Step, Agree, TakesTurns, InTurn, Succeeds, NotBehind;
    if es == [] {
      NoEventsNoTurns(w);
    } else {
      var before, e := es[..|es| - 1], es[|es| - 1];
      assert es == before + [e];
      OnePayerTakesTurns(w, before);
      TurnsSoFar(w, before, e);
      OnlyPayments(Run(w, before), e);
      StepKeepsSilence(Run(w, before), e);
      var ledger := TurnTakingAgrees(w, es);
      SilentIsNotAhead(Run(w, es), ledger);
    }
  }

  lemma OnlyPayments(w: World, e: Event)
    requires Balanced(w.left.state) && Balanced(w.right.state)
    ensures Succeeds(w, e) ==> e.Pays?
  {
  }

  lemma NoEventsNoTurns(w: World)
    requires Opened(w)
    ensures TakesTurns(w, []) && Run(w, []) == w && w.right.sent == [] && NotBehind(w, Left)
  {
  }

  /** An endpoint that never paid has nothing the other end has not applied. */
  lemma SilentIsNotAhead(w: World, ledger: seq<Entry>)
    requires Agree(w, ledger) && w.right.sent == []
    ensures NotBehind(w, Left)
  {
    assert forall i :: 0 <= i < |ledger| ==> ledger[i].payer == Left;
  }

  /** One payer, one receiver: the receiver at nonce n remembers exactly the payer's first n payments, each once and
      in order, and holds the mirror of the payer's balances just after its n-th payment. */
  lemma ReceiverMirrorsPayer(w: World, es: seq<Event>)
    requires Opened(w) && OnlyLeftPays(es)
    ensures var w' := Run(w, es);
            var n := w'.right.state.nonce;
            && n <= |w'.left.sent| == w'.left.state.nonce
            && |w'.right.log| == n
            && (forall i :: 0 <= i < n ==> w'.right.log[i] == Entry(Left, w'.left.sent[i]))
            && (n > 0 ==>
                  && w'.right.state.local == w'.left.sent[n - 1].remote
                  && w'.right.state.remote == w'.left.sent[n - 1].local)
            && (n == 0 ==> w'.right.state.local == 0)
  {
    hide Run, TakesTurns, Step, Agree;
    OnePayerTakesTurns(w, es);
    SentIsLog(w, es);
    var ledger := TurnTakingAgrees(w, es);
    UpToDate(Run(w, es), ledger, Left);
    MirrorOf(Run(w, es).right, ledger, Run(w, es).left.state.capacity);
  }

  /** What a receiver that follows a ledger of the left end's payments holds. */
  lemma MirrorOf(e: Endpoint, ledger: seq<Entry>, capacity: U64)
    requires Follows(e, Right, ledger, capacity) && WellFormed(ledger, capacity)
    requires forall i :: 0 <= i < |ledger| ==> ledger[i].payer == Left
    ensures var n := e.state.nonce;
            && n == |e.log| <= |ledger| && (forall i :: 0 <= i < n ==> e.log[i] == ledger[i])
            && (n > 0 ==> e.state.local == ledger[n - 1].update.remote && e.state.remote == ledger[n - 1].update.local)
            && (n == 0 ==> e.state.local == 0)
  {
    assert e.state.nonce > 0 ==> EntryOk(ledger, e.state.nonce - 1, capacity);
  }

  lemma {:induction false} SentIsLog(w: World, es: seq<Event>)
    requires Opened(w) && OnlyLeftPays(es)
    ensures var l := Run(w, es).left;
            |l.sent| == |l.log| && forall i :: 0 <= i < |l.log| ==> l.log[i] == Entry(Left, l.sent[i])
  {
    if es != [] {
      SentIsLog(w, es[..|es| - 1]);
      OnePayerTakesTurns(w, es[..|es| - 1]);
    }
  }

  /** An endpoint's n-th remembered payment carries nonce n. */
  ghost predicate Numbered(e: Endpoint) {
    |e.log| == e.state.nonce && forall i :: 0 <= i < |e.log| ==> e.log[i].update.nonce == i + 1
  }

  /** The endpoint went from `me` to `me'` by remembering one more payment: its own, which it also sent, or one its
      peer had sent. */
  ghost predicate Remembers(me: Endpoint, me': Endpoint, side: Side, peerSent: seq<ChannelUpdate>, entry: Entry) {
    && me'.log == me.log + [entry] && me'.state.nonce == me.state.nonce + 1 == entry.update.nonce
    && entry.update.local + entry.update.remote == me.state.capacity
    && me'.sent == (if entry.payer == side then me.sent + [entry.update] else me.sent)
    && (entry.payer != side ==> entry.update in peerSent)
  }

  /** What a step can do: nothing, or let its endpoint remember one more payment. */
  lemma StepMeans(w: World, e: Event)
    requires Balanced(w.left.state) && Balanced(w.right.state)
    ensures Moves(w, Step(w, e), e.side)
  {
    if e.Pays? {
      PayMeans(w, e);
    } else {
      DeliveryMeans(w, e);
    }
  }

  ghost predicate Moves(w: World, w': World, s: Side) {
    var me, me' := At(w, s), At(w', s);
    && At(w', Other(s)) == At(w, Other(s))
    && me'.state.capacity == me.state.capacity && me'.state.status == me.state.status
    && me'.state.expiresAt == me.state.expiresAt
    && (me' == me || exists entry :: Remembers(me, me', s, At(w, Other(s)).sent, entry))
  }

  lemma PayMeans(w: World, e: Event)
    requires Balanced(w.left.state) && Balanced(w.right.state) && e.Pays?
    ensures Moves(w, Step(w, e), e.side)
  {
    var me := At(w, e.side);
    var (s', r) := Pay(me.state, e.amount, e.now);
    if r.Success? {
      assert Remembers(me, Endpoint(s', me.sent + [r.value], me.log + [Entry(e.side, r.value)]), e.side,
                       At(w, Other(e.side)).sent, Entry(e.side, r.value));
    }
  }

  lemma DeliveryMeans(w: World, e: Event)
    requires Balanced(w.left.state) && Balanced(w.right.state) && e.Delivers?
    ensures Moves(w, Step(w, e), e.side)
  {
    var me, sent := At(w, e.side), At(w, Other(e.side)).sent;
    if Step(w, e) != w {
      var entry := Entry(Other(e.side), sent[e.which]);
      assert Remembers(me, Endpoint(Receive(me.state, sent[e.which], e.now).0, me.sent, me.log + [entry]), e.side, sent,
                       entry);
    }
  }

  lemma StepNumbers(w: World, e: Event, s: Side)
    requires Balanced(w.left.state) && Balanced(w.right.state) && Numbered(At(w, s))
    ensures Numbered(At(Step(w, e), s)) && At(w, s).log <= At(Step(w, e), s).log
  {
    StepMeans(w, e);
    hide Step, Balanced;
    assert s == e.side || s == Other(e.side);
  }

  /** In any run whatsoever an endpoint only appends to what it remembers, numbering consecutively. */
  lemma {:induction false} RunNumbers(w: World, es: seq<Event>, s: Side)
    requires Balanced(w.left.state) && Balanced(w.right.state) && Numbered(At(w, s))
    ensures Numbered(At(Run(w, es), s)) && At(w, s).log <= At(Run(w, es), s).log
  {
    hide Step, Numbered;
    if es != [] {
      RunNumbers(w, es[..|es| - 1], s);
      StepNumbers(Run(w, es[..|es| - 1]), es[|es| - 1], s);
    }
  }

  /** Delivering the next update in flight applies it. */
  lemma NextArrives(w: World, ledger: seq<Entry>, s: Side, now: Instant) returns (e: Event)
    requires Agree(w, ledger) && NotBehind(w, s) && now <= At(w, Other(s)).state.expiresAt
    requires |At(w, Other(s)).log| < |ledger|
    ensures e.Delivers? && At(Step(w, e), s) == At(w, s) && NotBehind(Step(w, e), s)
    ensures |At(Step(w, e), Other(s)).log| == |At(w, Other(s)).log| + 1
    ensures At(Step(w, e), Other(s)).state.expiresAt == At(w, Other(s)).state.expiresAt
  {
    hide BalanceAfter;
    var me, you := At(w, s), At(w, Other(s));
    var entry := ledger[|you.log|];
    assert entry.payer == s && entry.update in me.sent;
    assert EntryOk(ledger, |you.log|, me.state.capacity);
    var which :| 0 <= which < |me.sent| && me.sent[which] == entry.update;
    e := Delivers(Other(s), which, now);
  }

  /** A payment made while not behind can still get through: delivering the updates in flight, in order and before
      the channel expires, makes both views mirror each other without touching the payer. */
  lemma {:induction false} LaggardCanCatchUp(w: World, ledger: seq<Entry>, s: Side, now: Instant)
    returns (es: seq<Event>)
    requires Agree(w, ledger) && NotBehind(w, s) && now <= At(w, Other(s)).state.expiresAt
    ensures Agree(Run(w, es), ledger) && At(Run(w, es), s) == At(w, s)
    ensures At(Run(w, es), Other(s)).log == At(Run(w, es), s).log == ledger
    decreases |ledger| - |At(w, Other(s)).log|
  {
    hide Agree, Step, Follows, WellFormed;
    AgreedIsBalanced(w, ledger);
    LogsArePrefixes(w, ledger, s);
    LogsArePrefixes(w, ledger, Other(s));
    UpToDate(w, ledger, s);
    if |At(w, Other(s)).log| == |ledger| {
      es := [];
    } else {
      var e := NextArrives(w, ledger, s, now);
      DeliveryKeepsAgreement(w, ledger, e);
      var rest := LaggardCanCatchUp(Step(w, e), ledger, s, now);
      RunCons(w, e, rest);
      es := [e] + rest;
    }
  }

  lemma LogsArePrefixes(w: World, ledger: seq<Entry>, s: Side)
    requires Agree(w, ledger)
    ensures |At(w, s).log| <= |ledger| && At(w, s).log == ledger[..|At(w, s).log|]
  {
  }

  // ---- every reachable state ----

  /** What holds of an endpoint in every run: it remembers as many payments as its nonce says, has sent nothing with a
      higher nonce, and remembers of its peer only what the peer sent. */
  ghost predicate SoundEnd(me: Endpoint, s: Side, peerSent: seq<ChannelUpdate>, capacity: U64, expiresAt: Instant) {
    && Numbered(me)
    && me.state.status == Open && me.state.capacity == capacity && me.state.expiresAt == expiresAt
    && (forall u :: u in me.sent ==> u.nonce <= me.state.nonce && u.local + u.remote == capacity)
    && (forall i :: 0 <= i < |me.log| && me.log[i].payer == Other(s) ==> me.log[i].update in peerSent)
  }

  ghost predicate Sound(w: World, s: Side) {
    SoundEnd(At(w, s), s, At(w, Other(s)).sent, w.left.state.capacity, w.left.state.expiresAt)
  }

  lemma RememberingIsSound(me: Endpoint, me': Endpoint, s: Side, peerSent: seq<ChannelUpdate>, entry: Entry)
    requires SoundEnd(me, s, peerSent, me.state.capacity, me.state.expiresAt)
    requires Remembers(me, me', s, peerSent, entry)
    requires me'.state.capacity == me.state.capacity && me'.state.status == me.state.status
    requires me'.state.expiresAt == me.state.expiresAt
    ensures SoundEnd(me', s, peerSent, me.state.capacity, me.state.expiresAt)
  {
  }

  lemma MoreSentIsSound(me: Endpoint, s: Side, sent: seq<ChannelUpdate>, sent': seq<ChannelUpdate>, capacity: U64,
                        expiresAt: Instant)
    requires SoundEnd(me, s, sent, capacity, expiresAt) && sent <= sent'
    ensures SoundEnd(me, s, sent', capacity, expiresAt)
  {
  }

  lemma StepIsSound(w: World, e: Event, s: Side)
    requires Balanced(w.left.state) && Balanced(w.right.state) && Sound(w, Left) && Sound(w, Right)
    ensures Sound(Step(w, e), s)
  {
    StepMeans(w, e);
    hide Step, SoundEnd, Balanced;
    var w' := Step(w, e);
    var me, me', peer := At(w, e.side), At(w', e.side), At(w, Other(e.side)).sent;
    if me' != me {
      var entry :| Remembers(me, me', e.side, peer, entry);
      if s == e.side {
        RememberingIsSound(me, me', s, peer, entry);
      } else {
        MoreSentIsSound(At(w, s), s, me.sent, me'.sent, w.left.state.capacity, w.left.state.expiresAt);
      }
    }
  }

  lemma {:induction false} RunsAreSound(w: World, es: seq<Event>)
    requires Opened(w)
    ensures Sound(Run(w, es), Left) && Sound(Run(w, es), Right)
  {
    if es != [] {
      RunsAreSound(w, es[..|es| - 1]);
      hide Step, Sound;
      StepIsSound(Run(w, es[..|es| - 1]), es[|es| - 1], Left);
      StepIsSound(Run(w, es[..|es| - 1]), es[|es| - 1], Right);
    }
  }

  lemma {:induction false} RunConcat(w: World, a: seq<Event>, b: seq<Event>)
    requires Balanced(w.left.state) && Balanced(w.right.state)
    ensures Run(w, a + b) == Run(Run(w, a), b)
  {
    hide Step, Balanced;
    if b == [] {
      assert a + b == a;
    } else {
      RunConcat(w, a, b[..|b| - 1]);
      assert (a + b)[..|a + b| - 1] == a + b[..|b| - 1];
    }
  }

  lemma RunCons(w: World, e: Event, es: seq<Event>)
    requires Balanced(w.left.state) && Balanced(w.right.state)
    ensures Run(w, [e]) == Step(w, e) && Run(w, [e] + es) == Run(Step(w, e), es)
  {
    RunConcat(w, [e], es);
    assert [e][..0] == [];
    hide Step;
  }

  /** The endpoint can be active at this time. */
  predicate Live(e: Endpoint, now: Instant) {
    Operational(e.state, now)
  }

  /** An endpoint can raise its nonce by paying nothing. */
  lemma {:induction false} PayNothing(w: World, s: Side, n: U64, now: Instant) returns (es: seq<Event>)
    requires Balanced(w.left.state) && Balanced(w.right.state) && Live(At(w, s), now) && At(w, s).state.nonce <= n
    ensures var w' := Run(w, es);
            && At(w', Other(s)) == At(w, Other(s)) && At(w', s).state.nonce == n
            && Live(At(w', s), now) && At(w', s).state.capacity == At(w, s).state.capacity
    decreases n - At(w, s).state.nonce
  {
    if At(w, s).state.nonce == n {
      es := [];
    } else {
      var e := Pays(s, 0, now);
      var rest := PayNothing(Step(w, e), s, n, now);
      RunCons(w, e, rest);
      es := [e] + rest;
    }
  }

  lemma DeliverNext(w: World, to: Side, which: nat, now: Instant)
    requires Balanced(w.left.state) && Balanced(w.right.state) && Live(At(w, to), now)
    requires which < |At(w, Other(to)).sent|
    requires var u := At(w, Other(to)).sent[which];
             u.nonce == At(w, to).state.nonce + 1 && u.local + u.remote == At(w, to).state.capacity
    ensures Entry(Other(to), At(w, Other(to)).sent[which]) in At(Step(w, Delivers(to, which, now)), to).log
  {
    var me := At(w, to);
    var entry := Entry(Other(to), At(w, Other(to)).sent[which]);
    assert (me.log + [entry])[|me.log|] == entry;
  }

  ghost predicate CanArrive(w: World, to: Side, entry: Entry)
    requires Balanced(w.left.state) && Balanced(w.right.state)
  {
    exists es :: entry in At(Run(w, es), to).log
  }

  lemma PaymentSteps(w: World, e: Event)
    requires Balanced(w.left.state) && Balanced(w.right.state) && Succeeds(w, e)
    ensures var me, u, w' := At(w, e.side), Pay(At(w, e.side).state, e.amount, e.now).1.value, Step(w, e);
            && u.nonce == me.state.nonce + 1 == At(w', e.side).state.nonce
            && At(w', e.side).sent == me.sent + [u] && At(w', e.side).log == me.log + [Entry(e.side, u)]
            && At(w', Other(e.side)) == At(w, Other(e.side)) && Live(me, e.now)
            && u.local + u.remote == me.state.capacity
  {
  }

  /** If the peer's nonce is not higher, it can be raised to match, and the update then applies. */
  lemma PromptPaymentCanArrive(w: World, e: Event)
    requires Balanced(w.left.state) && Balanced(w.right.state) && Sound(w, Left) && Sound(w, Right)
    requires Succeeds(w, e) && NotBehind(w, e.side)
    ensures CanArrive(Step(w, e), Other(e.side), Entry(e.side, Pay(At(w, e.side).state, e.amount, e.now).1.value))
  {
    var me, to, w' := At(w, e.side), Other(e.side), Step(w, e);
    PaymentSteps(w, e);
    hide Pay, Step;
    var es := PayNothing(w', to, me.state.nonce, e.now);
    var d := Delivers(to, |me.sent|, e.now);
    DeliverNext(Run(w', es), to, |me.sent|, e.now);
    RunConcat(w', es, [d]);
    RunCons(Run(w', es), d, []);
    hide Run;
  }

  /** A payment made while behind reuses a nonce under which the peer remembers a payment of its own. */
  lemma LatePaymentClashes(w: World, e: Event)
    requires Balanced(w.left.state) && Balanced(w.right.state) && Sound(w, Left) && Sound(w, Right)
    requires Succeeds(w, e) && !NotBehind(w, e.side)
    ensures var me, you := At(Step(w, e), e.side), At(Step(w, e), Other(e.side));
            var i := At(w, e.side).state.nonce;
            && i < |me.log| && i < |you.log|
            && me.log[i] == Entry(e.side, Pay(At(w, e.side).state, e.amount, e.now).1.value)
            && you.log[i].payer == Other(e.side)
  {
    PaymentSteps(w, e);
    hide Pay, Step;
    var you, i := At(w, Other(e.side)), At(w, e.side).state.nonce;
    assert you.log[i].update.nonce == i + 1;
  }

  /** In every reachable state a payment that succeeds can reach the peer exactly when its payer was not behind. Made
      while behind, no continuation whatsoever applies it. */
  lemma PaymentArrivesIff(w0: World, es0: seq<Event>, e: Event)
    requires Opened(w0) && Succeeds(Run(w0, es0), e)
    ensures var w := Run(w0, es0);
            var entry := Entry(e.side, Pay(At(w, e.side).state, e.amount, e.now).1.value);
            CanArrive(Step(w, e), Other(e.side), entry) <==> NotBehind(w, e.side)
  {
    var w := Run(w0, es0);
    RunsAreSound(w0, es0);
    hide Step, Pay, Run, Sound;
    if NotBehind(w, e.side) {
      PromptPaymentCanArrive(w, e);
    } else {
      var to, w', i := Other(e.side), Step(w, e), At(w, e.side).state.nonce;
      var entry := Entry(e.side, Pay(At(w, e.side).state, e.amount, e.now).1.value);
      LatePaymentClashes(w, e);
      LateNonce(w, e);
      StepIsSound(w, e, to);
      forall es ensures entry !in At(Run(w', es), to).log {
        NumberedIfSound(w', to);
        RunNumbers(w', es, to);
        assert At(Run(w', es), to).log[i] == At(w', to).log[i];
      }
    }
  }

  lemma LateNonce(w: World, e: Event)
    requires Balanced(w.left.state) && Balanced(w.right.state) && Succeeds(w, e)
    ensures Pay(At(w, e.side).state, e.amount, e.now).1.value.nonce == At(w, e.side).state.nonce + 1
  {
  }

  lemma NumberedIfSound(w: World, s: Side)
    requires Sound(w, s)
    ensures Numbered(At(w, s))
  {
  }

  /** After a payment made while behind no ledger explains both ends, ever. */
  lemma ClashIsForGood(w: World, e: Event, es: seq<Event>, ledger: seq<Entry>)
    requires Balanced(w.left.state) && Balanced(w.right.state) && Sound(w, Left) && Sound(w, Right)
    requires Succeeds(w, e) && !NotBehind(w, e.side)
    ensures !Agree(Run(Step(w, e), es), ledger)
  {
    var to, w', i := Other(e.side), Step(w, e), At(w, e.side).state.nonce;
    LatePaymentClashes(w, e);
    StepIsSound(w, e, Left);
    StepIsSound(w, e, Right);
    hide Step, Run, Sound, Pay;
    NumberedIfSound(w', Left);
    NumberedIfSound(w', Right);
    RunNumbers(w', es, e.side);
    RunNumbers(w', es, to);
    var z := Run(w', es);
    assert At(z, e.side).log[i] == At(w', e.side).log[i] && At(z, to).log[i] == At(w', to).log[i];
    AgreedLogs(z, ledger, i);
    hide Agree;
  }

  lemma AgreedLogs(w: World, ledger: seq<Entry>, i: nat)
    requires i < |w.left.log| && i < |w.right.log|
    ensures Agree(w, ledger) ==> w.left.log[i] == w.right.log[i]
  {
  }

  /** A run ends with one ledger explaining both ends if and only if every successful payment in it was made by an
      endpoint that was not behind. */
  lemma AgreesIff(w: World, es: seq<Event>)
    requires Opened(w)
    ensures (exists ledger :: Agree(Run(w, es), ledger)) <==> TakesTurns(w, es)
  {
    hide Agree, Run, InTurn;
    if TakesTurns(w, es) {
      var ledger := TurnTakingAgrees(w, es);
    } else {
      var i :| 0 <= i < |es| && !InTurn(w, es, i);
      forall ledger ensures !Agree(Run(w, es), ledger) {
        OutOfTurnIsForGood(w, es, i, ledger);
      }
    }
  }

  lemma OutOfTurnIsForGood(w: World, es: seq<Event>, i: nat, ledger: seq<Entry>)
    requires Opened(w) && i < |es| && !InTurn(w, es, i)
    ensures !Agree(Run(w, es), ledger)
  {
    hide Agree, Step, Succeeds, NotBehind, Run, Sound;
    RunsAreSound(w, es[..i]);
    RunSplits(w, es, i);
    ClashIsForGood(Run(w, es[..i]), es[i], es[i + 1..], ledger);
  }

  lemma RunSplits(w: World, es: seq<Event>, i: nat)
    requires Balanced(w.left.state) && Balanced(w.right.state) && i < |es|
    ensures Run(w, es) == Run(Step(Run(w, es[..i]), es[i]), es[i + 1..])
  {
    hide Step, Run;
    assert es == es[..i] + ([es[i]] + es[i + 1..]);
    RunConcat(w, es[..i], [es[i]] + es[i + 1..]);
    RunCons(Run(w, es[..i]), es[i], es[i + 1..]);
  }
}
