/** One endpoint of a payment channel: a class, and the value it holds. */
module Channel {
  import opened Common
  import opened SigningBytes

  datatype Status = Opening | Open | Closing | Closed | Disputed

  datatype ChannelError =
    | NotFound(id: ChannelId)
    | AlreadyExists(peer: string)
    | InvalidState
    | InsufficientBalance(available: U64, required: U64)
    | InvalidSignature
    | NonceMismatch(expected: nat, got: U64)
    | EscrowFailed
    | Overflow

  /** The fields of a channel as a value. */
  datatype State = State(
    id: ChannelId,
    localPeer: string,
    remotePeer: string,
    capacity: U64,
    local: U64,
    remote: U64,
    nonce: U64,
    status: Status,
    expiresAt: Instant,
    updates: nat,
    sent: nat,
    received: nat,
    remoteSignature: Option<Signature>)

  predicate Balanced(s: State) {
    s.local + s.remote == s.capacity
  }

  predicate Operational(s: State, now: Instant) {
    s.status == Open && now <= s.expiresAt
  }

  function Create(id: ChannelId, localPeer: string, remotePeer: string, capacity: U64, expiresAt: Instant): (s: State)
    ensures Balanced(s)
  {
    State(id, localPeer, remotePeer, capacity, capacity, 0, 0, Opening, expiresAt, 0, 0, 0, None)
  }

  /** Moving `amount` to the other side; a failed call leaves the state as it was. */
  function Pay(s: State, amount: U64, now: Instant): (State, Result<ChannelUpdate, ChannelError>)
    requires Balanced(s)
  {
    if !Operational(s, now) then (s, Failure(InvalidState))
    else if amount > s.local then (s, Failure(InsufficientBalance(s.local, amount)))
    else if s.nonce == U64_MAX then (s, Failure(Overflow))
    else
      var s' := s.(local := s.local - amount, remote := s.remote + amount, nonce := s.nonce + 1,
                   updates := s.updates + 1, sent := s.sent + amount);
      (s', Success(ChannelUpdate(s.id, s'.nonce, s'.local, s'.remote, now)))
  }

  /** Adopting the other side's update, with the two balances exchanged. */
  function Receive(s: State, u: ChannelUpdate, now: Instant): (State, Result<(), ChannelError>) {
    if !Operational(s, now) then (s, Failure(InvalidState))
    else if s.nonce == U64_MAX then (s, Failure(Overflow))
    else if u.nonce != s.nonce + 1 then (s, Failure(NonceMismatch(s.nonce + 1, u.nonce)))
    else if u.local + u.remote > U64_MAX then (s, Failure(Overflow))
    else if u.local + u.remote != s.capacity then (s, Failure(InvalidState))
    else
      (s.(local := u.remote, remote := u.local, nonce := u.nonce, updates := s.updates + 1,
          received := s.received + SaturatingSub(u.local, s.remote)),
       Success(()))
  }

  /** A payment succeeds exactly on an open channel that has not expired, within the balance, as long as there are
      nonces left. It moves the amount, and the update tells the other side what is left. */
  lemma PaymentSucceedsIff(s: State, amount: U64, now: Instant)
    requires Balanced(s)
    ensures var (s', r) := Pay(s, amount, now);
            && (r.Success? <==> s.status == Open && now <= s.expiresAt && amount <= s.local && s.nonce < U64_MAX)
            && (r.Success? ==>
                  && s.local - s'.local == s'.remote - s.remote == s'.sent - s.sent == amount
                  && s'.nonce - s.nonce == s'.updates - s.updates == 1
                  && s == s'.(local := s.local, remote := s.remote, nonce := s.nonce, updates := s.updates,
                              sent := s.sent)
                  && r.value == ChannelUpdate(s.id, s.nonce + 1, s'.local, s'.remote, now))
            && (r.Failure? ==>
                  && s' == s
                  && r.error == (if s.status != Open || s.expiresAt < now then InvalidState
                                 else if s.local < amount then InsufficientBalance(s.local, amount)
                                 else Overflow))
  {
  }

  /** A receipt succeeds exactly on an open channel that has not expired, for the next nonce, if the balances add up to
      the capacity. The two sides' balances are exchanged. */
  lemma ReceiptSucceedsIff(s: State, u: ChannelUpdate, now: Instant)
    ensures var (s', r) := Receive(s, u, now);
            && (r.Success? <==> s.status == Open && now <= s.expiresAt && u.nonce == s.nonce + 1
                                && u.local + u.remote == s.capacity)
            && (r.Success? ==>
                  && s'.local == u.remote && s'.remote == u.local && s'.nonce == u.nonce
                  && s'.updates == s.updates + 1
                  && s'.received - s.received == (if u.local > s.remote then u.local - s.remote else 0)
                  && s == s'.(local := s.local, remote := s.remote, nonce := s.nonce, updates := s.updates,
                              received := s.received))
            && (r.Failure? ==>
                  && s' == s
                  && r.error == (if s.status != Open || s.expiresAt < now then InvalidState
                                 else if s.nonce == U64_MAX then Overflow
                                 else if u.nonce != s.nonce + 1 then NonceMismatch(s.nonce + 1, u.nonce)
                                 else if u.local + u.remote > U64_MAX then Overflow
                                 else InvalidState))
  {
  }

  class PaymentChannel {
    const id: ChannelId
    const localPeer: string
    const remotePeer: string
    const capacity: U64
    const expiresAt: Instant
    var local: U64
    var remote: U64
    var nonce: U64
    var status: Status
    var updates: nat
    var sent: nat
    var received: nat
    var remoteSignature: Option<Signature>

    ghost function View(): State
      reads this
    {
      State(id, localPeer, remotePeer, capacity, local, remote, nonce, status, expiresAt, updates, sent, received,
            remoteSignature)
    }

    ghost predicate Valid()
      reads this
    {
      Balanced(View())
    }

    constructor (id: ChannelId, localPeer: string, remotePeer: string, capacity: U64, expiresAt: Instant)
      ensures Valid() && View() == Create(id, localPeer, remotePeer, capacity, expiresAt)
    {
      this.id, this.localPeer, this.remotePeer := id, localPeer, remotePeer;
      this.capacity, this.expiresAt := capacity, expiresAt;
      local, remote, nonce := capacity, 0, 0;
      status := Opening;
      updates, sent, received := 0, 0, 0;
      remoteSignature := None;
    }

    method CreatePayment(amount: U64, now: Instant) returns (r: Result<ChannelUpdate, ChannelError>)
      requires Valid()
      modifies this
      ensures Valid() && (View(), r) == Pay(old(View()), amount, now)
      ensures r.Success? ==> View().local == old(View()).local - amount && View().nonce == old(View()).nonce + 1
      ensures r.Failure? ==> View() == old(View())
    {
      if !(status == Open && now <= expiresAt) {
        return Failure(InvalidState);
      }
      if amount > local {
        return Failure(InsufficientBalance(local, amount));
      }
      if nonce == U64_MAX {
        return Failure(Overflow);
      }
      local := local - amount;
      remote := remote + amount;
      nonce := nonce + 1;
      updates := updates + 1;
      sent := sent + amount;
      return Success(ChannelUpdate(id, nonce, local, remote, now));
    }

    method ReceivePayment(u: ChannelUpdate, now: Instant) returns (r: Result<(), ChannelError>)
      requires Valid()
      modifies this
      ensures Valid() && (View(), r) == Receive(old(View()), u, now)
      ensures r.Success? ==>
                View().nonce == old(View()).nonce + 1 && View().local == u.remote && View().remote == u.local
      ensures r.Failure? ==> View() == old(View())
    {
      if !(status == Open && now <= expiresAt) {
        return Failure(InvalidState);
      }
      if nonce == U64_MAX {
        return Failure(Overflow);
      }
      if u.nonce != nonce + 1 {
        return Failure(NonceMismatch(nonce + 1, u.nonce));
      }
      if u.local + u.remote > U64_MAX {
        return Failure(Overflow);
      }
      if u.local + u.remote != capacity {
        return Failure(InvalidState);
      }
      var amount := SaturatingSub(u.local, remote);
      local := u.remote;
      remote := u.local;
      nonce := u.nonce;
      updates := updates + 1;
      received := received + amount;
      return Success(());
    }
  }
}
