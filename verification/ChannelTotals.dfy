/** What the totals an endpoint keeps say about the payments it remembers, and what expiry stops. */
module ChannelTotals {
  import opened Common
  import opened SigningBytes
  import opened Channel
  import opened ChannelProtocol

  /** What `side` paid in these payments: how much each one of its own took off its balance. */
  ghost function Paid(log: seq<Entry>, side: Side, capacity: U64): int {
    if log == [] then 0
    else
      var n := |log| - 1;
      Paid(log[..n], side, capacity)
      + if log[n].payer == side then BalanceAfter(log[..n], n, side, capacity) - log[n].update.local else 0
  }

  /** What `side` counts as received: how much each payment of the other left the payer over what the payer had. */
  ghost function Counted(log: seq<Entry>, side: Side, capacity: U64): int {
    if log == [] then 0
    else
      var n := |log| - 1;
      var had, left := capacity - BalanceAfter(log[..n], n, side, capacity), log[n].update.local;
      Counted(log[..n], side, capacity) + if log[n].payer != side && left > had then left - had else 0
  }

  /** The balance is the one after the last payment remembered, and the totals are those of all of them. */
  ghost predicate Accounts(e: Endpoint, side: Side) {
    var capacity := e.state.capacity;
    && e.state.updates == e.state.nonce == |e.log|
    && e.state.local == BalanceAfter(e.log, |e.log|, side, capacity)
    && e.state.sent == Paid(e.log, side, capacity)
    && e.state.received == Counted(e.log, side, capacity)
  }

  lemma OneMore(log: seq<Entry>, entry: Entry, side: Side, capacity: U64)
    ensures var had := BalanceAfter(log, |log|, side, capacity);
            && Paid(log + [entry], side, capacity)
               == Paid(log, side, capacity) + (if entry.payer == side then had - entry.update.local else 0)
            && Counted(log + [entry], side, capacity)
               == Counted(log, side, capacity)
                  + (if entry.payer != side && entry.update.local > capacity - had
                     then entry.update.local - (capacity - had) else 0)
  {
    assert (log + [entry])[..|log|] == log;
  }

  lemma PayAccounts(me: Endpoint, side: Side, amount: U64, now: Instant)
    requires Balanced(me.state) && Accounts(me, side) && Pay(me.state, amount, now).1.Success?
    ensures var (s', r) := Pay(me.state, amount, now);
            Accounts(Endpoint(s', me.sent + [r.value], me.log + [Entry(side, r.value)]), side)
  {
    var u := Pay(me.state, amount, now).1.value;
    OneMore(me.log, Entry(side, u), side, me.state.capacity);
    hide Paid, Counted;
  }

  lemma ReceiveAccounts(me: Endpoint, side: Side, u: ChannelUpdate, now: Instant)
    requires Balanced(me.state) && Accounts(me, side) && Receive(me.state, u, now).1.Success?
    ensures Accounts(Endpoint(Receive(me.state, u, now).0, me.sent, me.log + [Entry(Other(side), u)]), side)
  {
    OneMore(me.log, Entry(Other(side), u), side, me.state.capacity);
    hide Paid, Counted;
  }

  lemma StepAccounts(w: World, e: Event, s: Side)
    requires Balanced(w.left.state) && Balanced(w.right.state) && Accounts(At(w, s), s)
    ensures Accounts(At(Step(w, e), s), s)
  {
    hide Accounts, Pay, Receive, Balanced;
    var me := At(w, e.side);
    if Step(w, e) != w && s == e.side {
      match e
      case Pays(_, amount, now) => PayAccounts(me, s, amount, now);
      case Delivers(_, which, now) => ReceiveAccounts(me, s, At(w, Other(s)).sent[which], now);
    }
  }

  /** In every run, whoever pays when: an endpoint's balance, its number of updates and its two totals are those of the
      payments it remembers. */
  lemma {:induction false} RunsAddUp(w: World, es: seq<Event>, s: Side)
    requires Opened(w)
    ensures Accounts(At(Run(w, es), s), s)
  {
    hide Step;
    if es != [] {
      RunsAddUp(w, es[..|es| - 1], s);
      StepAccounts(Run(w, es[..|es| - 1]), es[|es| - 1], s);
    }
  }

  lemma {:induction false} NetOfLedger(ledger: seq<Entry>, n: nat, capacity: U64)
    requires WellFormed(ledger, capacity) && n <= |ledger|
    ensures BalanceAfter(ledger, n, Left, capacity)
         == capacity - Paid(ledger[..n], Left, capacity) + Paid(ledger[..n], Right, capacity)
  {
    if n > 0 {
      var before := ledger[..n - 1];
      NetOfLedger(ledger, n - 1, capacity);
      assert EntryOk(ledger, n - 1, capacity);
      assert ledger[..n] == before + [ledger[n - 1]];
      OneMore(before, ledger[n - 1], Left, capacity);
      OneMore(before, ledger[n - 1], Right, capacity);
      Complementary(ledger, n - 1, capacity);
      assert BalanceAfter(before, n - 1, Left, capacity) == BalanceAfter(ledger, n - 1, Left, capacity);
      assert BalanceAfter(before, n - 1, Right, capacity) == BalanceAfter(ledger, n - 1, Right, capacity);
      hide Paid;
    }
  }

  /** Money is conserved: when two ends that agree are level, the funder holds the capacity less what it sent, plus what
      the other side sent. */
  lemma MoneyIsConserved(w: World, es: seq<Event>)
    requires Opened(w) && TakesTurns(w, es) && Run(w, es).left.state.nonce == Run(w, es).right.state.nonce
    ensures var l, r := Run(w, es).left.state, Run(w, es).right.state;
            l.local == l.capacity - l.sent + r.sent && r.local == l.sent - r.sent
  {
    var w' := Run(w, es);
    var ledger := TurnTakingAgrees(w, es);
    RunsAddUp(w, es, Left);
    RunsAddUp(w, es, Right);
    var capacity := w'.left.state.capacity;
    assert w'.left.log == w'.right.log == ledger[..|ledger|] == ledger;
    NetOfLedger(ledger, |ledger|, capacity);
    Complementary(ledger, |ledger|, capacity);
  }

  lemma DeliveryCountsNothing(w: World, ledger: seq<Entry>, e: Event)
    requires Agree(w, ledger) && e.Delivers?
    ensures At(Step(w, e), e.side).state.received == At(w, e.side).state.received
  {
    var me, you := At(w, e.side), At(w, Other(e.side));
    if Step(w, e) != w {
      var u, i := you.sent[e.which], |me.log|;
      NextEntry(me, you, e.side, ledger, u);
      assert EntryOk(ledger, i, me.state.capacity);
      Complementary(ledger, i, me.state.capacity);
    }
  }

  /** The total an endpoint keeps of what it received counts nothing, as long as payments are made in turn: the code
      subtracts the payer's balance before a payment from the smaller one after it, which saturates. */
  lemma {:induction false} ReceivedCountsNothing(w: World, es: seq<Event>, s: Side)
    requires Opened(w) && TakesTurns(w, es)
    ensures At(Run(w, es), s).state.received == 0
  {
    if es != [] {
      var before, e := es[..|es| - 1], es[|es| - 1];
      assert es == before + [e];
      TurnsSoFar(w, before, e);
      ReceivedCountsNothing(w, before, s);
      var ledger := TurnTakingAgrees(w, before);
      hide Agree, TakesTurns, Receive, Opened;
      if e.Delivers? {
        DeliveryCountsNothing(Run(w, before), ledger, e);
      }
    }
  }

  /** From expiry on an endpoint is frozen: no payment and no receipt succeeds any more. */
  lemma {:induction false} NothingMovesAfterExpiry(w: World, es: seq<Event>, s: Side)
    requires Balanced(w.left.state) && Balanced(w.right.state)
    requires forall i :: 0 <= i < |es| && es[i].side == s ==> es[i].now > At(w, s).state.expiresAt
    ensures At(Run(w, es), s) == At(w, s)
  {
    if es != [] {
      var before, e := es[..|es| - 1], es[|es| - 1];
      NothingMovesAfterExpiry(w, before, s);
      assert s == e.side || s == Other(e.side);
    }
  }
}
