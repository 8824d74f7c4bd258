/** The manager of all of a node's channels: a map of channels, an index by peer, and registered keys. */
module ChannelManager {
  import opened Common
  import opened SigningBytes
  import opened Channel
  import Text

  /** The same id whichever peer asks: the digest of both peer ids in order. */
  function FromPeers(digest: string -> ChannelId, a: string, b: string): ChannelId {
    "chan_" + digest(if Text.Less(a, b) then a + ":" + b else b + ":" + a)
  }

  lemma FromPeersIsSymmetric(digest: string -> ChannelId, a: string, b: string)
    ensures FromPeers(digest, a, b) == FromPeers(digest, b, a)
  {
    Text.LessIsTotal(a, b);
  }

  ghost predicate Injective(digest: string -> ChannelId) {
    forall x, y :: digest(x) == digest(y) ==> x == y
  }

  lemma {:induction false} SplitAtColon(a: string, x: string, b: string, y: string)
    requires ':' !in a && ':' !in b && a + ":" + x == b + ":" + y
    ensures a == b && x == y
  {
    var s, t := a + ":" + x, b + ":" + y;
    assert s[|a|] == ':' && t[|b|] == ':';
    assert forall k :: 0 <= k < |a| ==> s[k] == a[k];
    assert forall k :: 0 <= k < |b| ==> t[k] == b[k];
    assert |a| == |b|;
    assert a == s[..|a|] && b == t[..|b|] && x == s[|a| + 1..] && y == t[|b| + 1..];
  }

  /** Different peers, whose ids are base58 and so free of colons, get different channels. */
  lemma FromPeersIsInjective(digest: string -> ChannelId, me: string, p: string, q: string)
    requires Injective(digest) && ':' !in me && ':' !in p && ':' !in q
    requires FromPeers(digest, me, p) == FromPeers(digest, me, q)
    ensures p == q
  {
    var x := if Text.Less(me, p) then me + ":" + p else p + ":" + me;
    var y := if Text.Less(me, q) then me + ":" + q else q + ":" + me;
    assert digest(x) == FromPeers(digest, me, p)[5..] == FromPeers(digest, me, q)[5..] == digest(y);
    var (a, b) := if Text.Less(me, p) then (me, p) else (p, me);
    var (c, d) := if Text.Less(me, q) then (me, q) else (q, me);
    SplitAtColon(a, b, c, d);
  }

  /** The manager's state as a value. */
  datatype Book = Book(
    me: string,
    key: string,
    digest: string -> ChannelId,
    channels: map<ChannelId, State>,
    byPeer: map<string, ChannelId>,
    keys: map<string, string>)

  datatype Op =
    | Register(peer: string, key: string)
    | Opens(peer: string, capacity: U64, expiresAt: Instant, escrowed: bool)
    | Confirms(id: ChannelId)
    | Pays(id: ChannelId, amount: U64, now: Instant)
    | Receives(signed: SignedUpdate, now: Instant)
    | Closes(id: ChannelId, now: Instant)
    | Finalizes(id: ChannelId, request: CloseRequest)
    | Forces(id: ChannelId, now: Instant)

  function OpenChannel(b: Book, peer: string, capacity: U64, expiresAt: Instant, escrowed: bool):
    (Book, Result<State, ChannelError>)
  {
    if peer in b.byPeer then (b, Failure(AlreadyExists(peer)))
    else if !escrowed then (b, Failure(EscrowFailed))
    else
      var s := Create(FromPeers(b.digest, b.me, peer), b.me, peer, capacity, expiresAt);
      (b.(channels := b.channels[s.id := s], byPeer := b.byPeer[peer := s.id]), Success(s))
  }

  function SetState(b: Book, id: ChannelId, s: State): Book {
    b.(channels := b.channels[id := s])
  }

  function Confirm(b: Book, id: ChannelId): (Book, Result<(), ChannelError>) {
    if id !in b.channels then (b, Failure(NotFound(id)))
    else if b.channels[id].status != Opening then (b, Failure(InvalidState))
    else (SetState(b, id, b.channels[id].(status := Open)), Success(()))
  }

  ghost predicate AllBalanced(channels: map<ChannelId, State>) {
    forall id :: id in channels ==> Balanced(channels[id])
  }

  function PayVia(b: Book, id: ChannelId, amount: U64, now: Instant): (Book, Result<SignedUpdate, ChannelError>)
    requires AllBalanced(b.channels)
  {
    if id !in b.channels then (b, Failure(NotFound(id)))
    else
      var (s, r) := Pay(b.channels[id], amount, now);
      if r.Failure? then (b, Failure(r.error))
      else (SetState(b, id, s), Success(Sign(r.value, b.key, b.me)))
  }

  function ReceiveVia(b: Book, signed: SignedUpdate, now: Instant): (Book, Result<(), ChannelError>) {
    var id := signed.update.channelId;
    if id !in b.channels then (b, Failure(NotFound(id)))
    else
      var peer := b.channels[id].remotePeer;
      if signed.signer != peer then (b, Failure(InvalidSignature))
      else if peer !in b.keys then (b, Failure(InvalidState))
      else if !Verifies(signed, b.keys[peer]) then (b, Failure(InvalidSignature))
      else
        var (s, r) := Receive(b.channels[id], signed.update, now);
        if r.Failure? then (b, r)
        else (SetState(b, id, s.(remoteSignature := Some(signed.signature))), r)
  }

  function MakeRequest(id: ChannelId, s: State, key: string, asker: string, now: Instant): CloseRequest {
    var blank := CloseRequest(id, s.local, s.remote, s.nonce, now, asker, Signature("", []));
    blank.(signature := Signature(key, CloseBytes(blank)))
  }

  function Close(b: Book, id: ChannelId, now: Instant): (Book, Result<CloseRequest, ChannelError>) {
    if id !in b.channels then (b, Failure(NotFound(id)))
    else if b.channels[id].status !in {Open, Opening} then (b, Failure(InvalidState))
    else
      (SetState(b, id, b.channels[id].(status := Closing)),
       Success(MakeRequest(id, b.channels[id], b.key, b.me, now)))
  }

  /** Marks a channel closed and forgets it in the peer index. */
  function Retire(b: Book, id: ChannelId): Book
    requires id in b.channels
  {
    var s := b.channels[id];
    SetState(b, id, s.(status := Closed)).(byPeer := b.byPeer - {s.remotePeer})
  }

  lemma RetireMeans(b: Book, id: ChannelId)
    requires id in b.channels
    ensures var s := b.channels[id];
            Retire(b, id) == Book(b.me, b.key, b.digest, b.channels[id := s.(status := Closed)],
                                  b.byPeer - {s.remotePeer}, b.keys)
  {
  }

  lemma StatusPlaysNoPart(s: State, status: Status)
    ensures Balanced(s.(status := status)) <==> Balanced(s)
  {
  }

  function FinalizeClose(b: Book, id: ChannelId, request: CloseRequest): (Book, Result<(), ChannelError>) {
    if id !in b.channels then (b, Failure(NotFound(id)))
    else
      var s := b.channels[id];
      if s.status !in {Closing, Open} then (b, Failure(InvalidState))
      else if s.remotePeer !in b.keys then (b, Failure(InvalidState))
      else if !CloseVerifies(request, b.keys[s.remotePeer]) then (b, Failure(InvalidSignature))
      else if request.finalLocal + request.finalRemote > U64_MAX then (b, Failure(Overflow))
      else if request.finalLocal + request.finalRemote != s.capacity then (b, Failure(InvalidState))
      else (Retire(b, id), Success(()))
  }

  function ForceClose(b: Book, id: ChannelId, now: Instant): (Book, Result<(), ChannelError>) {
    if id !in b.channels then (b, Failure(NotFound(id)))
    else
      var s := b.channels[id];
      if now <= s.expiresAt then (b, Failure(InvalidState))
      else if s.status == Closed then (b, Failure(InvalidState))
      else (Retire(b, id), Success(()))
  }

  function Apply(b: Book, op: Op): Book
    requires AllBalanced(b.channels)
  {
    match op
    case Register(peer, key) => b.(keys := b.keys[peer := key])
    case Opens(peer, capacity, expiresAt, escrowed) => OpenChannel(b, peer, capacity, expiresAt, escrowed).0
    case Confirms(id) => Confirm(b, id).0
    case Pays(id, amount, now) => PayVia(b, id, amount, now).0
    case Receives(signed, now) => ReceiveVia(b, signed, now).0
    case Closes(id, now) => Close(b, id, now).0
    case Finalizes(id, request) => FinalizeClose(b, id, request).0
    case Forces(id, now) => ForceClose(b, id, now).0
  }

  /** Each channel is filed under the id of its two peers; the index names exactly the channels not closed. */
  ghost predicate Indexed(b: Book) {
    && (forall id :: id in b.channels ==> Filed(b, id))
    && (forall p :: p in b.byPeer ==>
          var id := b.byPeer[p];
          id in b.channels && b.channels[id].remotePeer == p && b.channels[id].status != Closed)
  }

  ghost predicate Filed(b: Book, id: ChannelId)
    requires id in b.channels
  {
    var s := b.channels[id];
    && s.id == id == FromPeers(b.digest, b.me, s.remotePeer) && ':' !in s.remotePeer && s.localPeer == b.me
    && Balanced(s)
    && (s.status != Closed ==> s.remotePeer in b.byPeer && b.byPeer[s.remotePeer] == id)
  }

  ghost predicate GoodIds(b: Book) {
    Injective(b.digest) && ':' !in b.me
  }

  predicate PlainPeer(op: Op) {
    op.Opens? ==> ':' !in op.peer
  }

  lemma FiledApart(b: Book, id: ChannelId, peer: string)
    requires Indexed(b) && GoodIds(b) && ':' !in peer && id in b.channels
    ensures b.channels[id].remotePeer == peer <==> id == FromPeers(b.digest, b.me, peer)
  {
    assert Filed(b, id);
    if id == FromPeers(b.digest, b.me, peer) {
      FromPeersIsInjective(b.digest, b.me, b.channels[id].remotePeer, peer);
    }
  }

  /** Replacing one channel's state, with peers and status-closedness unchanged, keeps the index. */
  lemma SetKeepsIndex(b: Book, id: ChannelId, s: State)
    requires Indexed(b) && id in b.channels && Balanced(s)
    requires var was := b.channels[id];
             && s.id == was.id && s.remotePeer == was.remotePeer && s.localPeer == was.localPeer
             && (s.status == Closed <==> was.status == Closed)
    ensures Indexed(SetState(b, id, s))
  {
    hide FromPeers, Balanced;
    var b' := SetState(b, id, s);
    forall i | i in b'.channels ensures Filed(b', i) {
      assert Filed(b, i);
    }
  }

  lemma RetireKeepsIndex(b: Book, id: ChannelId)
    requires Indexed(b) && GoodIds(b) && id in b.channels && b.channels[id].status != Closed
    ensures Indexed(Retire(b, id))
  {
    hide Balanced, FromPeers, Injective;
    var b' := Retire(b, id);
    StatusPlaysNoPart(b.channels[id], Closed);
    assert Filed(b, id);
    forall i | i in b'.channels ensures Filed(b', i) {
      assert Filed(b, i);
      FiledApart(b, i, b.channels[id].remotePeer);
    }
  }

  lemma CreateIsBalanced(id: ChannelId, me: string, peer: string, capacity: U64, expiresAt: Instant)
    ensures Balanced(Create(id, me, peer, capacity, expiresAt))
  {
  }

  lemma OpenKeepsIndex(b: Book, peer: string, capacity: U64, expiresAt: Instant, escrowed: bool)
    requires Indexed(b) && GoodIds(b) && ':' !in peer
    ensures Indexed(OpenChannel(b, peer, capacity, expiresAt, escrowed).0)
  {
    hide FromPeers, Injective, Balanced;
    var b' := OpenChannel(b, peer, capacity, expiresAt, escrowed).0;
    CreateIsBalanced(FromPeers(b.digest, b.me, peer), b.me, peer, capacity, expiresAt);
    forall i | i in b'.channels ensures Filed(b', i) {
      if i in b.channels {
        assert Filed(b, i);
        FiledApart(b, i, peer);
      }
    }
    forall p | p in b'.byPeer && p in b.byPeer && p != peer ensures b'.byPeer[p] != FromPeers(b.digest, b.me, peer) {
      FiledApart(b, b.byPeer[p], peer);
    }
  }

  lemma IndexedIsBalanced(b: Book)
    requires Indexed(b)
    ensures AllBalanced(b.channels)
  {
    forall id | id in b.channels ensures Balanced(b.channels[id]) {
      assert Filed(b, id);
    }
  }

  /** What payments leave alone, in either direction. */
  predicate SameChannel(s: State, s': State) {
    && Balanced(s') && s'.id == s.id && s'.localPeer == s.localPeer && s'.remotePeer == s.remotePeer
    && s'.capacity == s.capacity && s'.status == s.status && s.nonce <= s'.nonce
    && (s.status != Open ==> s' == s)
  }

  lemma PaymentKeeps(s: State, amount: U64, now: Instant)
    requires Balanced(s)
    ensures SameChannel(s, Pay(s, amount, now).0)
    ensures Pay(s, amount, now).1.Success? ==> s.status == Open
  {
  }

  lemma ReceiptKeeps(s: State, u: ChannelUpdate, now: Instant)
    requires Balanced(s)
    ensures SameChannel(s, Receive(s, u, now).0)
    ensures Receive(s, u, now).1.Success? ==> s.status == Open
  {
  }

  lemma PayViaKeepsIndex(b: Book, id: ChannelId, amount: U64, now: Instant)
    requires AllBalanced(b.channels) && Indexed(b)
    ensures Indexed(PayVia(b, id, amount, now).0)
  {
    hide Pay, Sign, Indexed, SetState, Balanced;
    if id in b.channels {
      assert Balanced(b.channels[id]);
      PaymentKeeps(b.channels[id], amount, now);
      SetKeepsIndex(b, id, Pay(b.channels[id], amount, now).0);
    }
  }

  lemma ReceiveViaKeepsIndex(b: Book, signed: SignedUpdate, now: Instant)
    requires AllBalanced(b.channels) && Indexed(b)
    ensures Indexed(ReceiveVia(b, signed, now).0)
  {
    hide Receive, Verifies, Indexed, SetState, Balanced;
    var id := signed.update.channelId;
    if id in b.channels {
      assert Balanced(b.channels[id]);
      ReceiptKeeps(b.channels[id], signed.update, now);
      var s := Receive(b.channels[id], signed.update, now).0;
      SignatureIsNoBalance(s, Some(signed.signature));
      SetKeepsIndex(b, id, s.(remoteSignature := Some(signed.signature)));
    }
  }

  lemma SignatureIsNoBalance(s: State, signature: Option<Signature>)
    ensures Balanced(s.(remoteSignature := signature)) <==> Balanced(s)
  {
  }

  lemma StatusKeepsIndex(b: Book, id: ChannelId, status: Status)
    requires Indexed(b) && AllBalanced(b.channels) && id in b.channels
    requires b.channels[id].status != Closed && status != Closed
    ensures Indexed(SetState(b, id, b.channels[id].(status := status)))
  {
    hide Indexed, Balanced, SetState;
    StatusPlaysNoPart(b.channels[id], status);
    assert Balanced(b.channels[id]);
    SetKeepsIndex(b, id, b.channels[id].(status := status));
  }

  lemma ApplyKeepsIndex(b: Book, op: Op)
    requires AllBalanced(b.channels) && Indexed(b) && GoodIds(b) && PlainPeer(op)
    ensures Indexed(Apply(b, op)) && GoodIds(Apply(b, op)) && AllBalanced(Apply(b, op).channels)
  {
    hide FromPeers, Injective, Verifies, CloseVerifies, Sign, MakeRequest, Pay, Receive, AllBalanced, Filed, Retire,
      PayVia, ReceiveVia, OpenChannel;
    var b' := Apply(b, op);
    assert GoodIds(b') by {
      SameOwner(b, op);
    }
    match op {
      case Register(_, _) => RegisterKeepsIndex(b, op);
      case Opens(peer, capacity, expiresAt, escrowed) => OpenKeepsIndex(b, peer, capacity, expiresAt, escrowed);
      case Confirms(id) => if b' != b { StatusKeepsIndex(b, id, Open); }
      case Pays(id, amount, now) => PayViaKeepsIndex(b, id, amount, now);
      case Receives(signed, now) => ReceiveViaKeepsIndex(b, signed, now);
      case Closes(id, _) => if b' != b { StatusKeepsIndex(b, id, Closing); }
      case Finalizes(id, _) => if b' != b { RetireKeepsIndex(b, id); }
      case Forces(id, _) => if b' != b { RetireKeepsIndex(b, id); }
    }
    hide Indexed;
    IndexedIsBalanced(b');
  }

  lemma RegisterKeepsIndex(b: Book, op: Op)
    requires AllBalanced(b.channels) && Indexed(b) && op.Register?
    ensures Indexed(Apply(b, op))
  {
    hide FromPeers, Balanced;
    assert forall id :: id in b.channels ==> Filed(b, id);
  }

  /** No call changes whose manager it is. */
  lemma SameOwner(b: Book, op: Op)
    requires AllBalanced(b.channels)
    ensures Apply(b, op).me == b.me && Apply(b, op).digest == b.digest && Apply(b, op).key == b.key
  {
    hide FromPeers, Verifies, CloseVerifies, Sign, MakeRequest, Pay, Receive, AllBalanced;
  }

  function Fresh(me: string, key: string, digest: string -> ChannelId): Book {
    Book(me, key, digest, map[], map[], map[])
  }

  /** The states a sequence of manager calls, each taken as one atomic step, can lead to. */
  ghost predicate IsRun(bs: seq<Book>, ops: seq<Op>) {
    && |bs| == |ops| + 1
    && (forall i :: 0 <= i < |ops| ==> RunStep(bs, ops, i))
  }

  ghost predicate RunStep(bs: seq<Book>, ops: seq<Op>, i: nat)
    requires i < |ops| && |bs| == |ops| + 1
  {
    PlainPeer(ops[i]) && AllBalanced(bs[i].channels) && bs[i + 1] == Apply(bs[i], ops[i])
  }

  lemma {:induction false} RunIsIndexed(bs: seq<Book>, ops: seq<Op>, n: nat)
    requires IsRun(bs, ops) && Indexed(bs[0]) && GoodIds(bs[0]) && n <= |ops|
    ensures Indexed(bs[n]) && GoodIds(bs[n])
    decreases n
  {
    if n > 0 {
      assert RunStep(bs, ops, n - 1);
      RunIsIndexed(bs, ops, n - 1);
      hide Indexed, Apply, GoodIds;
      ApplyKeepsIndex(bs[n - 1], ops[n - 1]);
    }
  }

  /** Every sequence of calls is a run: no call asks anything of the state it finds. */
  lemma {:induction false} CallsAlwaysRun(b: Book, ops: seq<Op>) returns (bs: seq<Book>)
    requires Indexed(b) && GoodIds(b) && forall i :: 0 <= i < |ops| ==> PlainPeer(ops[i])
    ensures IsRun(bs, ops) && bs[0] == b
  {
    if ops == [] {
      bs := [b];
    } else {
      var n := |ops| - 1;
      var before := CallsAlwaysRun(b, ops[..n]);
      RunIsIndexed(before, ops[..n], n);
      hide Indexed, GoodIds, Apply;
      IndexedIsBalanced(before[n]);
      bs := before + [Apply(before[n], ops[n])];
      forall i | 0 <= i < |ops| ensures RunStep(bs, ops, i) {
        assert i < n ==> RunStep(before, ops[..n], i);
      }
    }
  }

  /** In every reachable state the index maps a peer to an id exactly when that channel is with that peer and not
      closed, and every channel's balances add up to its capacity. */
  lemma IndexIsExact(bs: seq<Book>, ops: seq<Op>, n: nat, peer: string, id: ChannelId)
    requires IsRun(bs, ops) && n <= |ops|
    requires bs[0] == Fresh(bs[0].me, bs[0].key, bs[0].digest) && GoodIds(bs[0])
    ensures (peer in bs[n].byPeer && bs[n].byPeer[peer] == id) <==>
            (id in bs[n].channels && bs[n].channels[id].remotePeer == peer && bs[n].channels[id].status != Closed)
    ensures id in bs[n].channels ==> bs[n].channels[id].local + bs[n].channels[id].remote == bs[n].channels[id].capacity
  {
    RunIsIndexed(bs, ops, n);
    assert id in bs[n].channels ==> Filed(bs[n], id);
  }

  function Rank(s: Status): nat {
    match s
    case Opening => 0
    case Open => 1
    case Closing => 2
    case Disputed => 2
    case Closed => 3
  }

  /** A channel's status moves forwards, its nonce never shrinks, and from closing on nothing but the status changes. */
  ghost predicate Advances(s: State, s': State) {
    && Rank(s.status) <= Rank(s'.status) && (s'.status == Disputed ==> s.status == Disputed)
    && s.capacity == s'.capacity && s.nonce <= s'.nonce
    && (Rank(s.status) >= 2 ==> s' == s.(status := s'.status))
  }

  /** The call opens a new channel with the peer of a closed one. */
  predicate Reopens(b: Book, op: Op, id: ChannelId)
    requires id in b.channels
  {
    op.Opens? && b.channels[id].status == Closed && FromPeers(b.digest, b.me, op.peer) == id
  }

  lemma OpenAdvances(b: Book, op: Op, id: ChannelId)
    requires AllBalanced(b.channels) && Indexed(b) && GoodIds(b) && PlainPeer(op) && id in b.channels && op.Opens?
    ensures id in Apply(b, op).channels && (Reopens(b, op, id) || Advances(b.channels[id], Apply(b, op).channels[id]))
  {
    assert Filed(b, id);
    FiledApart(b, id, op.peer);
  }

  /** The channel a call names, if it names one. */
  function Target(op: Op): Option<ChannelId> {
    match op
    case Register(_, _) => None
    case Opens(_, _, _, _) => None
    case Receives(signed, _) => Some(signed.update.channelId)
    case _ => Some(op.id)
  }

  /** A call on one channel leaves all others as they are. */
  lemma OthersStay(b: Book, op: Op, at: ChannelId, id: ChannelId)
    requires AllBalanced(b.channels) && Target(op) == Some(at) && id in b.channels
    ensures id in Apply(b, op).channels && (id != at ==> Apply(b, op).channels[id] == b.channels[id])
  {
    hide Verifies, CloseVerifies, Sign, MakeRequest, Pay, Receive, AllBalanced;
  }

  lemma PayViaAdvances(b: Book, id: ChannelId, amount: U64, now: Instant)
    requires AllBalanced(b.channels) && id in b.channels
    ensures id in PayVia(b, id, amount, now).0.channels
    ensures Advances(b.channels[id], PayVia(b, id, amount, now).0.channels[id])
  {
    hide Pay, Sign, Balanced;
    assert Balanced(b.channels[id]);
    PaymentKeeps(b.channels[id], amount, now);
  }

  lemma ReceiveViaAdvances(b: Book, signed: SignedUpdate, now: Instant)
    requires AllBalanced(b.channels) && signed.update.channelId in b.channels
    ensures signed.update.channelId in ReceiveVia(b, signed, now).0.channels
    ensures var id := signed.update.channelId; Advances(b.channels[id], ReceiveVia(b, signed, now).0.channels[id])
  {
    hide Receive, Verifies, Balanced;
    assert Balanced(b.channels[signed.update.channelId]);
    ReceiptKeeps(b.channels[signed.update.channelId], signed.update, now);
  }

  /** The calls that only change a status. */
  lemma StatusAdvances(b: Book, op: Op, id: ChannelId)
    requires AllBalanced(b.channels) && id in b.channels && Target(op) == Some(id) && !op.Pays? && !op.Receives?
    ensures id in Apply(b, op).channels && Advances(b.channels[id], Apply(b, op).channels[id])
  {
    hide CloseVerifies, MakeRequest, AllBalanced, Advances, Rank;
    var s := b.channels[id];
    var s' := Apply(b, op).channels[id];
    assert s' == s || (s.status == Opening && s' == s.(status := Open))
        || (s.status in {Open, Opening} && s' == s.(status := Closing)) || s' == s.(status := Closed);
    StatusMoves(s, s');
  }

  lemma StatusMoves(s: State, s': State)
    ensures s' == s || (s.status == Opening && s' == s.(status := Open))
        || (s.status in {Open, Opening} && s' == s.(status := Closing)) || s' == s.(status := Closed)
        ==> Advances(s, s')
  {
  }

  /** Every call lets every channel advance, except that a closed channel may be replaced by a fresh one. */
  lemma ApplyAdvances(b: Book, op: Op, id: ChannelId)
    requires AllBalanced(b.channels) && Indexed(b) && GoodIds(b) && PlainPeer(op) && id in b.channels
    ensures id in Apply(b, op).channels && (Reopens(b, op, id) || Advances(b.channels[id], Apply(b, op).channels[id]))
  {
    hide Indexed, GoodIds, FromPeers, AllBalanced, PayVia, ReceiveVia, OpenChannel, Close, Confirm, FinalizeClose,
      ForceClose;
    if op.Opens? {
      OpenAdvances(b, op, id);
    } else if Target(op).Some? {
      OthersStay(b, op, Target(op).value, id);
      if Target(op).value == id {
        match op
        case Pays(_, amount, now) => PayViaAdvances(b, id, amount, now);
        case Receives(signed, now) => ReceiveViaAdvances(b, signed, now);
        case _ => StatusAdvances(b, op, id);
      }
    }
  }

  /** Between two steps the status of a channel that is not reopened only moves forwards. */
  lemma {:induction false} StatusNeverGoesBack(bs: seq<Book>, ops: seq<Op>, id: ChannelId, m: nat, n: nat)
    requires IsRun(bs, ops) && Indexed(bs[0]) && GoodIds(bs[0]) && m <= n <= |ops| && id in bs[m].channels
    requires forall i :: m <= i < n ==> !ReopensAt(bs, ops, id, i)
    ensures id in bs[n].channels && Advances(bs[m].channels[id], bs[n].channels[id])
    decreases n
  {
    if m < n {
      StatusNeverGoesBack(bs, ops, id, m, n - 1);
      assert RunStep(bs, ops, n - 1) && !ReopensAt(bs, ops, id, n - 1);
      RunIsIndexed(bs, ops, n - 1);
      hide Apply, Indexed, GoodIds;
      ApplyAdvances(bs[n - 1], ops[n - 1], id);
    }
  }

  ghost predicate ReopensAt(bs: seq<Book>, ops: seq<Op>, id: ChannelId, i: nat)
    requires i < |ops| && |bs| == |ops| + 1
  {
    id in bs[i].channels && Reopens(bs[i], ops[i], id)
  }

  /** The close request issued at some step stays true of the stored channel: until a closed channel is reopened,
      its balances and nonce are the ones in the request. */
  lemma ClosingIsFrozen(bs: seq<Book>, ops: seq<Op>, id: ChannelId, m: nat, n: nat)
    requires IsRun(bs, ops) && Indexed(bs[0]) && GoodIds(bs[0]) && m < n <= |ops|
    requires ops[m].Closes? && ops[m].id == id && Close(bs[m], id, ops[m].now).1.Success?
    requires forall i :: m < i < n ==> !ReopensAt(bs, ops, id, i)
    ensures id in bs[n].channels
    ensures var s, request := bs[n].channels[id], Close(bs[m], id, ops[m].now).1.value;
            && s.local == request.finalLocal && s.remote == request.finalRemote && s.nonce == request.nonce
            && s.status in {Closing, Closed}
  {
    assert RunStep(bs, ops, m);
    StatusNeverGoesBack(bs, ops, id, m + 1, n);
  }

  /** A payment the manager accepts was signed with the key registered for the channel's peer, over these very
      numbers. */
  lemma AcceptedPaymentIsSigned(b: Book, signed: SignedUpdate, now: Instant, made: ChannelUpdate, key: string)
    requires ReceiveVia(b, signed, now).1.Success?
    requires signed.signature == Sign(made, key, signed.signer).signature
    ensures var peer := b.channels[signed.update.channelId].remotePeer;
            signed.signer == peer && peer in b.keys && b.keys[peer] == key
    ensures signed.update == made.(timestamp := signed.update.timestamp)
  {
    VerifiedIsSigned(made, key, signed, b.keys[signed.signer]);
  }

  /** The manager itself: distinct channel objects filed by id, updated in place. */
  class Manager {
    const me: string
    const key: string
    const digest: string -> ChannelId
    var channels: map<ChannelId, PaymentChannel>
    var byPeer: map<string, ChannelId>
    var keys: map<string, string>

    ghost function States(): map<ChannelId, State>
      reads this, channels.Values
    {
      map id | id in channels :: channels[id].View()
    }

    ghost function View(): Book
      reads this, channels.Values
    {
      Book(me, key, digest, States(), byPeer, keys)
    }

    ghost predicate Valid()
      reads this, channels.Values
    {
      && (forall id :: id in channels ==> channels[id].Valid())
      && (forall i, j :: i in channels && j in channels && i != j ==> channels[i] != channels[j])
    }

    constructor (me: string, key: string, digest: string -> ChannelId)
      ensures Valid() && View() == Fresh(me, key, digest)
    {
      this.me, this.key, this.digest := me, key, digest;
      channels, byPeer, keys := map[], map[], map[];
    }

    method RegisterKey(peer: string, peerKey: string)
      requires Valid()
      modifies this`keys
      ensures Valid() && View() == Apply(old(View()), Register(peer, peerKey))
    {
      hide Balanced;
      keys := keys[peer := peerKey];
      assert States() == old(States());
    }

    /** One channel object changed, or none. */
    twostate lemma OneChanged(id: ChannelId)
      requires channels == old(channels) && id in channels
      requires forall i :: i in channels && i != id ==> channels[i].View() == old(channels[i].View())
      ensures States() == old(States())[id := channels[id].View()]
    {
    }

    twostate lemma OneAdded(new channel: PaymentChannel)
      requires channels == old(channels)[channel.id := channel]
      requires forall i :: i in old(channels) && i != channel.id ==> old(channels)[i].View() == old(channels[i].View())
      ensures States() == old(States())[channel.id := channel.View()]
    {
    }

    method File(channel: PaymentChannel)
      requires Valid() && channel.Valid() && channel !in channels.Values
      modifies this`channels, this`byPeer
      ensures Valid() && channels == old(channels)[channel.id := channel]
      ensures States() == old(States())[channel.id := channel.View()]
      ensures byPeer == old(byPeer)[channel.remotePeer := channel.id]
    {
      hide Balanced;
      channels := channels[channel.id := channel];
      byPeer := byPeer[channel.remotePeer := channel.id];
      OneAdded(channel);
    }

    method Open(peer: string, capacity: U64, expiresAt: Instant, escrowed: bool)
      returns (r: Result<State, ChannelError>)
      requires Valid()
      modifies this`channels, this`byPeer
      ensures Valid() && (View(), r) == OpenChannel(old(View()), peer, capacity, expiresAt, escrowed)
      ensures fresh(channels.Values - old(channels.Values))
    {
      hide FromPeers, Balanced;
      if peer in byPeer {
        return Failure(AlreadyExists(peer));
      }
      if !escrowed {
        return Failure(EscrowFailed);
      }
      var channel := new PaymentChannel(FromPeers(digest, me, peer), me, peer, capacity, expiresAt);
      File(channel);
      return Success(Create(FromPeers(digest, me, peer), me, peer, capacity, expiresAt));
    }

    method ConfirmOpen(id: ChannelId) returns (r: Result<(), ChannelError>)
      requires Valid()
      modifies channels.Values
      ensures Valid() && (View(), r) == Confirm(old(View()), id)
    {
      if id !in channels {
        return Failure(NotFound(id));
      }
      if channels[id].status != Opening {
        return Failure(InvalidState);
      }
      channels[id].status := Status.Open;
      OneChanged(id);
      return Success(());
    }

    method MakePayment(id: ChannelId, amount: U64, now: Instant) returns (r: Result<SignedUpdate, ChannelError>)
      requires Valid()
      modifies channels.Values
      ensures Valid() && AllBalanced(old(View()).channels) && (View(), r) == PayVia(old(View()), id, amount, now)
    {
      if id !in channels {
        return Failure(NotFound(id));
      }
      var update := channels[id].CreatePayment(amount, now);
      OneChanged(id);
      if update.Failure? {
        assert States() == old(States());
        return Failure(update.error);
      }
      return Success(Sign(update.value, key, me));
    }

    method TakePayment(signed: SignedUpdate, now: Instant) returns (r: Result<(), ChannelError>)
      requires Valid()
      modifies channels.Values
      ensures Valid() && (View(), r) == ReceiveVia(old(View()), signed, now)
    {
      var id := signed.update.channelId;
      if id !in channels {
        return Failure(NotFound(id));
      }
      var channel := channels[id];
      if signed.signer != channel.remotePeer {
        return Failure(InvalidSignature);
      }
      if channel.remotePeer !in keys {
        return Failure(InvalidState);
      }
      if !Verifies(signed, keys[channel.remotePeer]) {
        return Failure(InvalidSignature);
      }
      r := channel.ReceivePayment(signed.update, now);
      if r.Success? {
        channel.remoteSignature := Some(signed.signature);
      } else {
        assert States() == old(States());
      }
      OneChanged(id);
    }

    method StartClose(id: ChannelId, now: Instant) returns (r: Result<CloseRequest, ChannelError>)
      requires Valid()
      modifies channels.Values
      ensures Valid() && (View(), r) == Close(old(View()), id, now)
    {
      if id !in channels {
        return Failure(NotFound(id));
      }
      var channel := channels[id];
      if channel.status != Status.Open && channel.status != Opening {
        return Failure(InvalidState);
      }
      channel.status := Closing;
      OneChanged(id);
      var blank := CloseRequest(id, channel.local, channel.remote, channel.nonce, now, me, Signature("", []));
      return Success(blank.(signature := Signature(key, CloseBytes(blank))));
    }

    /** Closes a channel and forgets it in the peer index. */
    method MarkClosed(id: ChannelId)
      requires Valid() && id in channels
      modifies this`byPeer, channels.Values
      ensures Valid() && View() == Retire(old(View()), id)
    {
      hide Balanced, Retire;
      var channel := channels[id];
      StatusPlaysNoPart(channel.View(), Closed);
      byPeer := byPeer - {channel.remotePeer};
      channel.status := Closed;
      OneChanged(id);
      RetireMeans(old(View()), id);
    }

    method FinishClose(id: ChannelId, request: CloseRequest) returns (r: Result<(), ChannelError>)
      requires Valid()
      modifies this`byPeer, channels.Values
      ensures Valid() && (View(), r) == FinalizeClose(old(View()), id, request)
    {
      hide CloseVerifies;
      if id !in channels {
        return Failure(NotFound(id));
      }
      var channel := channels[id];
      if channel.status != Closing && channel.status != Status.Open {
        return Failure(InvalidState);
      }
      if channel.remotePeer !in keys {
        return Failure(InvalidState);
      }
      if !CloseVerifies(request, keys[channel.remotePeer]) {
        return Failure(InvalidSignature);
      }
      if request.finalLocal + request.finalRemote > U64_MAX {
        return Failure(Overflow);
      }
      if request.finalLocal + request.finalRemote != channel.capacity {
        return Failure(InvalidState);
      }
      MarkClosed(id);
      return Success(());
    }

    method ForceCloseExpired(id: ChannelId, now: Instant) returns (r: Result<(), ChannelError>)
      requires Valid()
      modifies this`byPeer, channels.Values
      ensures Valid() && (View(), r) == ForceClose(old(View()), id, now)
    {
      if id !in channels {
        return Failure(NotFound(id));
      }
      var channel := channels[id];
      if now <= channel.expiresAt {
        return Failure(InvalidState);
      }
      if channel.status == Closed {
        return Failure(InvalidState);
      }
      MarkClosed(id);
      return Success(());
    }
  }
}
