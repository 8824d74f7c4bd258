/** How a run of the shared loop goes and ends, read off the passes it meets. */
module UnifiedOutcomes {
  import opened Common
  import opened UnifiedLoop
  import opened UnifiedLaws

  /** A reply without calls. */
  predicate Silent(p: Pass) {
    p.reply.Text? && p.reply.calls == []
  }

  /** None of the first n passes asks for tools. */
  ghost predicate NoTools(world: nat -> Pass, n: nat) {
    forall j :: 1 <= j <= n ==> CallsOf(world(j)) == []
  }

  /** A reply without calls, for a goal that needs something fetched, before any tool has run. */
  ghost predicate MissesFetch(world: nat -> Pass, n: nat)
    requires n >= 1
  {
    Silent(world(n)) && world(n).fetchGoal && world(n).toolsAvailable && NoTools(world, n - 1)
  }

  ghost function Missed(world: nat -> Pass, n: nat): nat {
    if n == 0 then 0 else Missed(world, n - 1) + if MissesFetch(world, n) then 1 else 0
  }

  function Silences(world: nat -> Pass, n: nat): nat {
    if n == 0 then 0 else Silences(world, n - 1) + if Silent(world(n)) then 1 else 0
  }

  function Rounds(world: nat -> Pass, n: nat): nat {
    if n == 0 then 0 else Rounds(world, n - 1) + if CallsOf(world(n)) != [] then 1 else 0
  }

  function AtMost2(n: nat): nat {
    if n <= 2 then n else 2
  }

  /** A reply without calls is met by a nudge: to fetch, the first two times one is missed; or to go through with what
      the reply announces, twice. There are no nudges without tools, and none in the last pass. */
  ghost predicate Nudged(world: nat -> Pass, n: nat)
    requires n >= 1
  {
    && Silent(world(n)) && world(n).toolsAvailable && n < 20
    && ((MissesFetch(world, n) && Missed(world, n - 1) < 2)
        || (world(n).reply.intent && Silences(world, n - 1) - AtMost2(Missed(world, n - 1)) < 2))
  }

  /** All calls of the reply were requested four times or more before. */
  predicate Refused(world: nat -> Pass, hash: Hash, n: nat)
    requires n >= 1
  {
    forall c :: c in CallsOf(world(n)) ==> Count(Requested(world, hash, n - 1), SigOf(c, hash)) >= 4
  }

  /** The run goes on after pass n: nobody stopped it, inference did not fail, and the reply was an error text, or
      without calls but met by a nudge, or had a call that was not refused. */
  ghost predicate GoesOn(world: nat -> Pass, hash: Hash, n: nat)
    requires n >= 1
  {
    var p := world(n);
    && !p.cancelled && !p.reply.Failed?
    && (Silent(p) ==> Nudged(world, n))
    && (CallsOf(p) != [] ==> !Refused(world, hash, n))
  }

  ghost predicate GoesOnUpTo(world: nat -> Pass, hash: Hash, n: nat) {
    forall j :: 1 <= j <= n ==> GoesOn(world, hash, j)
  }

  // ---- what is let through ----

  /** The calls of a reply that fewer than four with their signature came before. */
  function LetThrough(before: seq<Sig>, calls: seq<Call>, hash: Hash): seq<Call> {
    if calls == [] then []
    else
      var front, c := calls[..|calls| - 1], calls[|calls| - 1];
      LetThrough(before, front, hash)
      + if Count(before + Sigs(front, hash), SigOf(c, hash)) < 4 then [c] else []
  }

  /** The history counts what was requested before, up to four of each. */
  ghost predicate CountsUp(h: seq<Sig>, before: seq<Sig>) {
    forall s :: Count(h, s) == AtMost4(Count(before, s))
  }

  lemma {:induction false} AdmitsLetThrough(h: seq<Sig>, before: seq<Sig>, calls: seq<Call>, hash: Hash)
    requires CountsUp(h, before)
    ensures Admit(h, calls, hash).calls == LetThrough(before, calls, hash)
  {
    hide Count, Sigs, Admit;
    if calls == [] {
      AdmitsNone(h, hash);
    } else {
      var front, c := calls[..|calls| - 1], calls[|calls| - 1];
      assert calls == front + [c];
      AdmitsLetThrough(h, before, front, hash);
      AdmitUnfolds(h, front, c, hash);
      AdmitCounts(h, front, hash, SigOf(c, hash));
      CountOfConcat(before, Sigs(front, hash), SigOf(c, hash));
    }
  }

  lemma AdmitsNone(h: seq<Sig>, hash: Hash)
    ensures Admit(h, [], hash).calls == []
  {
  }

  lemma {:induction false} NothingLetThroughIff(before: seq<Sig>, calls: seq<Call>, hash: Hash)
    ensures LetThrough(before, calls, hash) == [] <==>
            forall c :: c in calls ==> Count(before, SigOf(c, hash)) >= 4
  {
    hide Count, Sigs;
    if calls != [] {
      var front, c := calls[..|calls| - 1], calls[|calls| - 1];
      assert calls == front + [c];
      NothingLetThroughIff(before, front, hash);
      CountOfConcat(before, Sigs(front, hash), SigOf(c, hash));
      if Count(before, SigOf(c, hash)) < 4 && LetThrough(before, front, hash) == [] {
        NotAmong(front, hash, SigOf(c, hash));
      }
    }
  }

  lemma {:induction false} NotAmong(calls: seq<Call>, hash: Hash, s: Sig)
    requires forall c :: c in calls ==> SigOf(c, hash) != s
    ensures Count(Sigs(calls, hash), s) == 0
  {
    if calls != [] {
      var front, c := calls[..|calls| - 1], calls[|calls| - 1];
      assert calls == front + [c];
      NotAmong(front, hash, s);
      SigsOfOneMore(front, c, hash);
      CountOfOneMore(Sigs(front, hash), SigOf(c, hash), s);
    }
  }

  lemma HistoryCountsUp(world: nat -> Pass, hash: Hash, n: nat)
    requires After(world, hash, n).Some?
    ensures CountsUp(After(world, hash, n).value.history, Requested(world, hash, n))
  {
    forall s ensures Count(After(world, hash, n).value.history, s) == AtMost4(Count(Requested(world, hash, n), s)) {
      HistoryCountsRequests(world, hash, n, s);
    }
  }

  /** The records the first n passes leave. */
  function Records(world: nat -> Pass, hash: Hash, n: nat): seq<Record> {
    if n == 0 then []
    else
      Records(world, hash, n - 1)
      + Executed(Batch(LetThrough(Requested(world, hash, n - 1), CallsOf(world(n)), hash)), world(n).succeeds)
  }

  // ---- what the state counts ----

  /** What the loop remembers after n passes, in terms of the passes. */
  ghost predicate Tallies(world: nat -> Pass, hash: Hash, n: nat, s: State) {
    && s.urlNudges == AtMost2(Missed(world, n)) && s.urlNudges + s.preambleNudges == Silences(world, n)
    && |s.rounds| == Rounds(world, n) && (s.rounds == [] <==> NoTools(world, n))
    && (Flat(s.rounds) == [] <==> s.rounds == [])
    && Flat(s.rounds) == Records(world, hash, n)
  }

  lemma OneMorePass(world: nat -> Pass, n: nat)
    requires n >= 1
    ensures NoTools(world, n) <==> NoTools(world, n - 1) && CallsOf(world(n)) == []
  {
  }

  lemma BatchOfNothing(succeeds: nat -> bool)
    ensures Executed(Batch([]), succeeds) == []
  {
  }

  /** What a pass with calls does: it goes on unless all are refused, and adds a round. */
  lemma ToolsTally(world: nat -> Pass, hash: Hash, n: nat, s: State)
    requires n >= 1 && After(world, hash, n - 1) == Some(s) && Tallies(world, hash, n - 1, s)
    requires !world(n).cancelled && CallsOf(world(n)) != []
    ensures Step(s, n, world(n), hash).Go? <==> !Refused(world, hash, n)
    ensures Step(s, n, world(n), hash).Go? ==> Tallies(world, hash, n, Step(s, n, world(n), hash).state)
  {
    hide After, Admit, Batch, Flat, Executed, Count, Requested, CountsUp, Names, AllFailed, Sigs;
    var pass, before := world(n), Requested(world, hash, n - 1);
    HistoryCountsUp(world, hash, n - 1);
    AdmitsLetThrough(s.history, before, pass.reply.calls, hash);
    NothingLetThroughIff(before, pass.reply.calls, hash);
    var a := Admit(s.history, pass.reply.calls, hash);
    if a.calls != [] {
      var round := Executed(Batch(a.calls), pass.succeeds);
      BatchMeans(a.calls, hash, ("", 0));
      OneMoreRound(s.rounds, round);
      OneMorePass(world, n);
    }
    hide LetThrough, NoTools;
  }

  lemma SilenceTallies(world: nat -> Pass, hash: Hash, n: nat, s: State)
    requires n >= 1 && Tallies(world, hash, n - 1, s) && !world(n).cancelled && Silent(world(n))
    ensures Step(s, n, world(n), hash).Go? <==> Nudged(world, n)
    ensures Step(s, n, world(n), hash).Go? ==> Tallies(world, hash, n, Step(s, n, world(n), hash).state)
  {
    hide Batch, Flat, Executed, Requested;
    OneMorePass(world, n);
    BatchOfNothing(world(n).succeeds);
    hide NoTools;
  }

  lemma OtherTallies(world: nat -> Pass, hash: Hash, n: nat, s: State)
    requires n >= 1 && Tallies(world, hash, n - 1, s) && (world(n).cancelled || !world(n).reply.Text?)
    ensures Step(s, n, world(n), hash).Go? <==> GoesOn(world, hash, n)
    ensures Step(s, n, world(n), hash).Go? ==> Tallies(world, hash, n, Step(s, n, world(n), hash).state)
  {
    hide Batch, Flat, Executed, Requested;
    OneMorePass(world, n);
    BatchOfNothing(world(n).succeeds);
    hide NoTools;
  }

  lemma PassTallies(world: nat -> Pass, hash: Hash, n: nat, s: State)
    requires n >= 1 && After(world, hash, n - 1) == Some(s) && Tallies(world, hash, n - 1, s)
    ensures Step(s, n, world(n), hash).Go? <==> GoesOn(world, hash, n)
    ensures Step(s, n, world(n), hash).Go? ==> Tallies(world, hash, n, Step(s, n, world(n), hash).state)
  {
    hide Step, Tallies, Refused, Nudged, After;
    if world(n).cancelled || !world(n).reply.Text? {
      OtherTallies(world, hash, n, s);
    } else if Silent(world(n)) {
      SilenceTallies(world, hash, n, s);
    } else {
      ToolsTally(world, hash, n, s);
    }
  }

  lemma StartTallies(world: nat -> Pass, hash: Hash)
    ensures After(world, hash, 0) == Some(START) && Tallies(world, hash, 0, START)
  {
  }

  lemma AfterGoesOn(world: nat -> Pass, hash: Hash, n: nat)
    requires n >= 1
    ensures var before, after := After(world, hash, n - 1), After(world, hash, n);
            && (after.Some? <==> before.Some? && Step(before.value, n, world(n), hash).Go?)
            && (after.Some? ==> after.value == Step(before.value, n, world(n), hash).state)
  {
    hide Step;
  }

  lemma OneMoreGoesOn(world: nat -> Pass, hash: Hash, n: nat)
    requires n >= 1
    ensures GoesOnUpTo(world, hash, n) <==> GoesOnUpTo(world, hash, n - 1) && GoesOn(world, hash, n)
  {
    hide GoesOn;
  }

  /** A run gets past pass n if and only if it goes on after each pass up to there. Its nudges to fetch are then the
      fetches missed, two at most; its other nudges are all other replies without calls; it had a round of tools for
      each reply with calls, and the records are those of the calls let through. */
  lemma {:induction false} GetsPastIff(world: nat -> Pass, hash: Hash, n: nat)
    ensures After(world, hash, n).Some? <==> GoesOnUpTo(world, hash, n)
    ensures After(world, hash, n).Some? ==> Tallies(world, hash, n, After(world, hash, n).value)
  {
    if n == 0 {
      StartTallies(world, hash);
    } else {
      GetsPastIff(world, hash, n - 1);
      AfterGoesOn(world, hash, n);
      OneMoreGoesOn(world, hash, n);
      hide Step, Tallies, GoesOnUpTo, After;
      if After(world, hash, n - 1).Some? {
        PassTallies(world, hash, n, After(world, hash, n - 1).value);
      }
    }
  }

  /** The pass is the first after which the run does not go on. */
  ghost predicate EndsAt(world: nat -> Pass, hash: Hash, i: nat) {
    1 <= i <= 20 && GoesOnUpTo(world, hash, i - 1) && !GoesOn(world, hash, i)
  }

  /** How a run ends: stopped, failed, or with an answer and the records of all calls let through, at the first pass
      after which it does not go on; or without an answer if it goes on after all twenty. */
  lemma OutcomeIff(world: nat -> Pass, hash: Hash, outcome: Outcome)
    ensures EndsWith(world, hash, outcome) <==>
            match outcome
            case Cancelled(i) => EndsAt(world, hash, i) && world(i).cancelled
            case InferenceFailed(i) => EndsAt(world, hash, i) && !world(i).cancelled && world(i).reply.Failed?
            case Answered(logs, records, i) =>
              && EndsAt(world, hash, i) && !world(i).cancelled && world(i).reply.Text?
              && records == Records(world, hash, i - 1) && logs == Names(records)
            case OutOfPasses => GoesOnUpTo(world, hash, 20)
  {
    hide After, WithCalls, Admit, Names, Flat, GoesOn, GoesOnUpTo, Tallies, Records;
    if outcome.OutOfPasses? {
      GetsPastIff(world, hash, MAX_ITERS);
    } else if 1 <= outcome.pass <= 20 {
      var i := outcome.pass;
      GetsPastIff(world, hash, i - 1);
      if After(world, hash, i - 1).Some? {
        var s := After(world, hash, i - 1).value;
        PassTallies(world, hash, i, s);
        TalliedRecords(world, hash, i - 1, s);
        StopMeans(s, i, world(i), hash);
        assert EndsWith(world, hash, outcome) <==> Step(s, i, world(i), hash) == Stop(outcome);
      }
      hide Step;
    }
  }

  lemma TalliedRecords(world: nat -> Pass, hash: Hash, n: nat, s: State)
    requires Tallies(world, hash, n, s)
    ensures Flat(s.rounds) == Records(world, hash, n)
  {
  }

  lemma StopMeans(s: State, i: nat, pass: Pass, hash: Hash)
    ensures var next := Step(s, i, pass, hash);
            next.Stop? ==>
              next.outcome == (if pass.cancelled then Cancelled(i)
                               else if pass.reply.Failed? then InferenceFailed(i)
                               else Answered(Names(Flat(s.rounds)), Flat(s.rounds), i))
              && (!pass.cancelled && !pass.reply.Failed? ==> pass.reply.Text?)
  {
    hide Admit, Names, Flat, Batch, Executed, AllFailed;
  }
}
