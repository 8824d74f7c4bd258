/** When the manager's calls succeed, what a signature is worth to it, and all a call can do to a channel. */
module ChannelCalls {
  import opened Common
  import opened SigningBytes
  import opened Channel
  import opened ChannelManager

  // ---- closing ----

  /** The request was signed with this key. */
  predicate SignedWith(q: CloseRequest, key: string) {
    q.signature == Signature(key, CloseBytes(q))
  }

  /** A channel is closed by a request exactly if it is open or closing, and the request is signed with the key
      registered for its peer and splits its capacity. The errors say what is missing. */
  lemma FinalizeSucceedsIff(b: Book, id: ChannelId, q: CloseRequest)
    ensures FinalizeClose(b, id, q).1.Success? <==>
            && id in b.channels && b.channels[id].status in {Closing, Open}
            && b.channels[id].remotePeer in b.keys && SignedWith(q, b.keys[b.channels[id].remotePeer])
            && q.finalLocal + q.finalRemote == b.channels[id].capacity
    ensures FinalizeClose(b, id, q).1 == Failure(InvalidSignature) <==>
            && id in b.channels && b.channels[id].status in {Closing, Open}
            && b.channels[id].remotePeer in b.keys && !SignedWith(q, b.keys[b.channels[id].remotePeer])
    ensures FinalizeClose(b, id, q).1 == Failure(NotFound(id)) <==> id !in b.channels
    ensures FinalizeClose(b, id, q).1.Failure? ==>
              && FinalizeClose(b, id, q).0 == b
              && (id in b.channels && FinalizeClose(b, id, q).1.error != InvalidSignature ==>
                    FinalizeClose(b, id, q).1.error in {InvalidState, Overflow})
  {
  }

  /** A request that closes a channel carries the very id, balances and nonce that its peer signed, with the key
      registered for it. */
  lemma AcceptedCloseIsSigned(b: Book, id: ChannelId, q: CloseRequest, made: CloseRequest, key: string)
    requires FinalizeClose(b, id, q).1.Success? && q.signature == Signature(key, CloseBytes(made))
    ensures id in b.channels
    ensures var peer := b.channels[id].remotePeer; peer in b.keys && b.keys[peer] == key
    ensures q.channelId == made.channelId && q.nonce == made.nonce
    ensures q.finalLocal == made.finalLocal && q.finalRemote == made.finalRemote
    ensures Seconds(q.timestamp) == Seconds(made.timestamp)
  {
    FinalizeSucceedsIff(b, id, q);
    CloseBytesInjective(q, made);
  }

  /** Whose payments were accepted cannot be closed out by them: no signature on a payment passes for one on a close
      request, ids being what they are. */
  lemma PaymentClosesNothing(b: Book, id: ChannelId, q: CloseRequest, u: ChannelUpdate, key: string)
    requires "chan_" <= u.channelId && q.signature == Sign(u, key, "").signature
    ensures FinalizeClose(b, id, q).1.Failure?
  {
    UpdateIsNotClose(u, q);
    FinalizeSucceedsIff(b, id, q);
  }

  /** Ids are what they are: every channel a manager keeps has a generated one. */
  lemma IdsAreGenerated(bs: seq<Book>, ops: seq<Op>, n: nat, id: ChannelId)
    requires IsRun(bs, ops) && n <= |ops| && id in bs[n].channels
    requires bs[0] == Fresh(bs[0].me, bs[0].key, bs[0].digest) && GoodIds(bs[0])
    ensures "chan_" <= id && bs[n].channels[id].id == id
  {
    RunIsIndexed(bs, ops, n);
    assert Filed(bs[n], id);
  }

  /** What two managers know of each other's key and of their common channel. */
  ghost predicate Share(b: Book, p: Book, id: ChannelId) {
    && id in b.channels && id in p.channels && b.channels[id].capacity == p.channels[id].capacity
    && b.channels[id].remotePeer == p.me && p.me in b.keys && b.keys[p.me] == p.key
    && b.channels[id].id == p.channels[id].id == id
  }

  /** The request a peer issues names the channel and its own balances and nonce, and closes the channel at our end, if
      that is open or closing and the peer's key is registered. Our balances play no part. */
  lemma OwnRequestCloses(b: Book, p: Book, id: ChannelId, now: Instant)
    requires Share(b, p, id) && Balanced(p.channels[id]) && Close(p, id, now).1.Success?
    ensures var q := Close(p, id, now).1.value;
            && q.channelId == id && q.finalLocal == p.channels[id].local && q.finalRemote == p.channels[id].remote
            && q.nonce == p.channels[id].nonce && q.timestamp == now && q.requester == p.me
            && (FinalizeClose(b, id, q).1.Success? <==> b.channels[id].status in {Closing, Open})
  {
    var q := Close(p, id, now).1.value;
    assert CloseBytes(q) == CloseBytes(q.(signature := Signature("", [])));
    hide CloseBytes;
    FinalizeSucceedsIff(b, id, q);
  }

  /** When the other calls on one channel succeed; a call that fails changes nothing. */
  lemma CallsSucceedIff(b: Book, id: ChannelId, now: Instant)
    ensures Confirm(b, id).1.Success? <==> id in b.channels && b.channels[id].status == Opening
    ensures Close(b, id, now).1.Success? <==> id in b.channels && b.channels[id].status in {Opening, Open}
    ensures ForceClose(b, id, now).1.Success? <==>
            id in b.channels && b.channels[id].status != Closed && b.channels[id].expiresAt < now
    ensures Confirm(b, id).1 == Failure(NotFound(id)) <==> id !in b.channels
    ensures Close(b, id, now).1 == Failure(NotFound(id)) <==> id !in b.channels
    ensures ForceClose(b, id, now).1 == Failure(NotFound(id)) <==> id !in b.channels
    ensures Confirm(b, id).1.Failure? ==>
              Confirm(b, id).0 == b && Confirm(b, id).1.error in {NotFound(id), InvalidState}
    ensures Close(b, id, now).1.Failure? ==>
              Close(b, id, now).0 == b && Close(b, id, now).1.error in {NotFound(id), InvalidState}
    ensures ForceClose(b, id, now).1.Failure? ==>
              ForceClose(b, id, now).0 == b && ForceClose(b, id, now).1.error in {NotFound(id), InvalidState}
  {
    hide MakeRequest;
  }

  // ---- payments ----

  /** A payment a peer makes is accepted at our end exactly if our channel is open and has not expired, and the payment
      is the next one there. */
  lemma OwnPaymentArrivesIff(b: Book, p: Book, id: ChannelId, amount: U64, made: Instant, now: Instant)
    requires Share(b, p, id) && AllBalanced(p.channels) && PayVia(p, id, amount, made).1.Success?
    ensures var signed, s := PayVia(p, id, amount, made).1.value, b.channels[id];
            && signed.update.nonce == p.channels[id].nonce + 1
            && signed.update.local == p.channels[id].local - amount
            && signed.update.remote == p.channels[id].remote + amount
            && (ReceiveVia(b, signed, now).1.Success? <==>
                s.status == Open && now <= s.expiresAt && s.nonce == p.channels[id].nonce)
  {
    var u := Pay(p.channels[id], amount, made).1.value;
    assert Balanced(p.channels[id]);
    PaymentSucceedsIff(p.channels[id], amount, made);
    ReceiptSucceedsIff(b.channels[id], u, now);
    hide UpdateBytes, Pay, Receive;
  }

  /** What a payment needs, and all it changes: the money moves, and the update is signed with our key. */
  lemma PayViaIff(b: Book, id: ChannelId, amount: U64, now: Instant)
    requires AllBalanced(b.channels)
    ensures var (b', r) := PayVia(b, id, amount, now);
            && (r.Success? <==>
                && id in b.channels && b.channels[id].status == Open && now <= b.channels[id].expiresAt
                && amount <= b.channels[id].local && b.channels[id].nonce < U64_MAX)
            && (r.Failure? ==> b' == b)
            && (r.Success? ==>
                  && b' == b.(channels := b'.channels) && b'.channels.Keys == b.channels.Keys
                  && (forall i :: i in b.channels && i != id ==> b'.channels[i] == b.channels[i])
                  && b'.channels[id].local == b.channels[id].local - amount
                  && b'.channels[id].remote == b.channels[id].remote + amount
                  && b'.channels[id].nonce == b.channels[id].nonce + 1
                  && r.value.update.channelId == b.channels[id].id && r.value.update.nonce == b'.channels[id].nonce
                  && r.value.update.local == b'.channels[id].local && r.value.update.remote == b'.channels[id].remote
                  && r.value.update.timestamp == now && r.value.signer == b.me
                  && r.value.signature == Signature(b.key, UpdateBytes(r.value.update)))
            && (r == Failure(NotFound(id)) <==> id !in b.channels)
  {
    if id in b.channels {
      assert Balanced(b.channels[id]);
      PaymentSucceedsIff(b.channels[id], amount, now);
    }
    hide UpdateBytes, AllBalanced;
  }

  /** What an accepted payment needs, and all it changes. */
  lemma ReceiveViaIff(b: Book, signed: SignedUpdate, now: Instant)
    ensures var (b', r) := ReceiveVia(b, signed, now);
            var id, u := signed.update.channelId, signed.update;
            && (r.Success? <==>
                && id in b.channels && signed.signer == b.channels[id].remotePeer && signed.signer in b.keys
                && signed.signature == Signature(b.keys[signed.signer], UpdateBytes(u))
                && b.channels[id].status == Open && now <= b.channels[id].expiresAt
                && u.nonce == b.channels[id].nonce + 1 && u.local + u.remote == b.channels[id].capacity)
            && (r.Failure? ==> b' == b)
            && (r.Success? ==>
                  && b' == b.(channels := b'.channels) && b'.channels.Keys == b.channels.Keys
                  && (forall i :: i in b.channels && i != id ==> b'.channels[i] == b.channels[i])
                  && b'.channels[id].local == u.remote && b'.channels[id].remote == u.local
                  && b'.channels[id].nonce == u.nonce && b'.channels[id].remoteSignature == Some(signed.signature))
            && (r == Failure(NotFound(id)) <==> id !in b.channels)
            && (id in b.channels && signed.signer == b.channels[id].remotePeer && signed.signer !in b.keys ==>
                  r == Failure(InvalidState))
            && (r == Failure(InvalidSignature) <==>
                && id in b.channels
                && (signed.signer != b.channels[id].remotePeer
                    || (signed.signer in b.keys
                        && signed.signature != Signature(b.keys[signed.signer], UpdateBytes(u)))))
  {
    if signed.update.channelId in b.channels {
      ReceiptSucceedsIff(b.channels[signed.update.channelId], signed.update, now);
    }
    hide UpdateBytes;
  }

  // ---- opening ----

  /** In every reachable state a channel with a peer can be opened exactly if the escrow succeeds and there is none with
      that peer that is not closed. All its money is ours at first. */
  lemma OpenSucceedsIff(bs: seq<Book>, ops: seq<Op>, n: nat, peer: string, capacity: U64, expiresAt: Instant,
                        escrowed: bool)
    requires IsRun(bs, ops) && n <= |ops|
    requires bs[0] == Fresh(bs[0].me, bs[0].key, bs[0].digest) && GoodIds(bs[0])
    ensures var (b', r) := OpenChannel(bs[n], peer, capacity, expiresAt, escrowed);
            && (r.Success? <==>
                && escrowed
                && forall id :: id in bs[n].channels && bs[n].channels[id].remotePeer == peer ==>
                                  bs[n].channels[id].status == Closed)
            && (r.Failure? ==>
                  && b' == bs[n]
                  && r.error == if peer in bs[n].byPeer then AlreadyExists(peer) else EscrowFailed)
            && (r.Success? ==>
                  && r.value.id in b'.channels && b'.channels[r.value.id] == r.value
                  && peer in b'.byPeer && b'.byPeer[peer] == r.value.id
                  && r.value.status == Opening && r.value.local == r.value.capacity == capacity && r.value.remote == 0
                  && r.value.nonce == 0 && r.value.expiresAt == expiresAt
                  && r.value.remotePeer == peer && r.value.localPeer == bs[n].me)
  {
    hide OpenChannel;
    var b := bs[n];
    if peer in b.byPeer {
      IndexIsExact(bs, ops, n, peer, b.byPeer[peer]);
    } else {
      forall id | id in b.channels && b.channels[id].remotePeer == peer ensures b.channels[id].status == Closed {
        IndexIsExact(bs, ops, n, peer, id);
      }
    }
    OpenMeans(b, peer, capacity, expiresAt, escrowed);
  }

  lemma OpenMeans(b: Book, peer: string, capacity: U64, expiresAt: Instant, escrowed: bool)
    ensures var (b', r) := OpenChannel(b, peer, capacity, expiresAt, escrowed);
            && (r.Success? <==> escrowed && peer !in b.byPeer)
            && (r.Failure? ==>
                  b' == b && r.error == if peer in b.byPeer then AlreadyExists(peer) else EscrowFailed)
            && (r.Success? ==>
                  && r.value.id in b'.channels && b'.channels[r.value.id] == r.value
                  && peer in b'.byPeer && b'.byPeer[peer] == r.value.id
                  && r.value.status == Opening && r.value.local == r.value.capacity == capacity && r.value.remote == 0
                  && r.value.nonce == 0 && r.value.expiresAt == expiresAt
                  && r.value.remotePeer == peer && r.value.localPeer == b.me)
  {
    hide FromPeers;
  }

  // ---- all a call can do to a channel ----

  /** Why a call may change the status of this channel, and to what. */
  predicate Moves(b: Book, op: Op, id: ChannelId, to: Status)
    requires id in b.channels
  {
    var s := b.channels[id];
    match op
    case Confirms(i) => i == id && s.status == Opening && to == Open
    case Closes(i, _) => i == id && s.status in {Opening, Open} && to == Closing
    case Finalizes(i, q) =>
      && i == id && s.status in {Open, Closing} && to == Closed
      && s.remotePeer in b.keys && SignedWith(q, b.keys[s.remotePeer]) && q.finalLocal + q.finalRemote == s.capacity
    case Forces(i, now) => i == id && s.expiresAt < now && s.status != Closed && to == Closed
    case _ => false
  }

  /** A channel's status changes exactly as `Moves` says: it is confirmed while opening, closed from our side, finalized
      with the peer's signature, or forced once it has expired. Nothing else about the channel changes with it. */
  lemma StatusChangesIff(b: Book, op: Op, id: ChannelId, to: Status)
    requires AllBalanced(b.channels) && id in b.channels && !op.Opens?
    ensures id in Apply(b, op).channels
    ensures Apply(b, op).channels[id].status == to && to != b.channels[id].status <==> Moves(b, op, id, to)
    ensures Moves(b, op, id, to) ==> Apply(b, op).channels[id] == b.channels[id].(status := to)
  {
    if op.Pays? || op.Receives? || op.Register? {
      PaymentsMoveNothing(b, op, id, to);
    } else if op.Confirms? || op.Closes? {
      BeginningsMove(b, op, id, to);
    } else {
      EndingsMove(b, op, id, to);
    }
  }

  /** The call changes the status as `Moves` says. */
  ghost predicate MovesRight(b: Book, op: Op, id: ChannelId, to: Status)
    requires AllBalanced(b.channels) && id in b.channels
  {
    var after := Apply(b, op).channels;
    && id in after
    && (after[id].status == to && to != b.channels[id].status <==> Moves(b, op, id, to))
    && (Moves(b, op, id, to) ==> after[id] == b.channels[id].(status := to))
  }

  lemma BeginningsMove(b: Book, op: Op, id: ChannelId, to: Status)
    requires AllBalanced(b.channels) && id in b.channels && (op.Confirms? || op.Closes?)
    ensures MovesRight(b, op, id, to)
  {
    hide AllBalanced, MakeRequest;
  }

  lemma EndingsMove(b: Book, op: Op, id: ChannelId, to: Status)
    requires AllBalanced(b.channels) && id in b.channels && (op.Finalizes? || op.Forces?)
    ensures MovesRight(b, op, id, to)
  {
    hide AllBalanced, SignedWith, CloseVerifies;
    if op.Finalizes? {
      SignedIs(b, id, op.request);
    }
  }

  lemma PaymentsMoveNothing(b: Book, op: Op, id: ChannelId, to: Status)
    requires AllBalanced(b.channels) && id in b.channels && (op.Pays? || op.Receives? || op.Register?)
    ensures id in Apply(b, op).channels && Apply(b, op).channels[id].status == b.channels[id].status
    ensures !Moves(b, op, id, to)
  {
    hide PayVia, ReceiveVia, SignedWith, CloseVerifies;
    match op {
      case Register(_, _) =>
      case Pays(at, amount, now) =>
        PayViaIff(b, at, amount, now);
        if at == id {
          PaidStatus(b, id, amount, now);
        }
      case Receives(signed, now) => ReceivedStatus(b, signed, now, id);
    }
  }

  /** Only registering a key changes a key, and only that of the peer named. */
  lemma KeysStay(b: Book, op: Op)
    requires AllBalanced(b.channels)
    ensures Apply(b, op).keys == if op.Register? then b.keys[op.peer := op.key] else b.keys
  {
    hide FromPeers, Verifies, CloseVerifies, Sign, MakeRequest, Pay, Receive, AllBalanced;
  }

  lemma SignedIs(b: Book, id: ChannelId, q: CloseRequest)
    requires id in b.channels
    ensures forall key :: CloseVerifies(q, key) <==> SignedWith(q, key)
  {
  }

  lemma PaidStatus(b: Book, id: ChannelId, amount: U64, now: Instant)
    requires AllBalanced(b.channels) && id in b.channels
    ensures id in PayVia(b, id, amount, now).0.channels
    ensures PayVia(b, id, amount, now).0.channels[id].status == b.channels[id].status
  {
    assert Balanced(b.channels[id]);
  }

  lemma ReceivedStatus(b: Book, signed: SignedUpdate, now: Instant, id: ChannelId)
    requires id in b.channels
    ensures id in ReceiveVia(b, signed, now).0.channels
    ensures ReceiveVia(b, signed, now).0.channels[id].status == b.channels[id].status
  {
    hide Verifies;
  }
}
