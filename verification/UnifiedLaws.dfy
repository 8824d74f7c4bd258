/** What holds in every run of the shared loop, whatever the model asks for and the tools do. */
module UnifiedLaws {
  import opened Common
  import opened UnifiedLoop

  // ---- repeats ----

  function AtMost4(n: nat): nat {
    if n <= MAX_REPEATS then n else MAX_REPEATS
  }

  lemma CountOfOneMore(h: seq<Sig>, x: Sig, s: Sig)
    ensures Count(h + [x], s) == Count(h, s) + if x == s then 1 else 0
  {
    assert (h + [x])[..|h|] == h;
  }

  lemma {:induction false} CountOfConcat(a: seq<Sig>, b: seq<Sig>, s: Sig)
    ensures Count(a + b, s) == Count(a, s) + Count(b, s)
  {
    if b == [] {
      assert a + b == a;
    } else {
      var front, x := b[..|b| - 1], b[|b| - 1];
      CountOfConcat(a, front, s);
      CountOfOneMore(a + front, x, s);
      assert a + b == (a + front) + [x];
    }
  }

  lemma SigsOfOneMore(calls: seq<Call>, c: Call, hash: Hash)
    ensures Sigs(calls + [c], hash) == Sigs(calls, hash) + [SigOf(c, hash)]
  {
  }

  /** The filter records exactly what it lets through. */
  lemma {:induction false} AdmitRecords(h: seq<Sig>, calls: seq<Call>, hash: Hash)
    ensures Admit(h, calls, hash).history == h + Sigs(Admit(h, calls, hash).calls, hash)
  {
    if calls != [] {
      AdmitRecords(h, calls[..|calls| - 1], hash);
      SigsOfOneMore(Admit(h, calls[..|calls| - 1], hash).calls, calls[|calls| - 1], hash);
    }
  }

  function AdmitOne(before: Admission, c: Call, hash: Hash): Admission {
    var n := Count(before.history, SigOf(c, hash));
    if n >= MAX_REPEATS then before
    else Admission(before.history + [SigOf(c, hash)], before.calls + [c],
                   before.warnings + if n >= WARN_REPEATS then [(c.name, n + 1)] else [])
  }

  lemma AdmitUnfolds(h: seq<Sig>, front: seq<Call>, c: Call, hash: Hash)
    ensures Admit(h, front + [c], hash) == AdmitOne(Admit(h, front, hash), c, hash)
  {
    assert (front + [c])[..|front|] == front;
  }

  lemma OneMoreCounts(before: Admission, c: Call, hash: Hash, s: Sig)
    requires Count(before.history, s) <= MAX_REPEATS
    ensures Count(AdmitOne(before, c, hash).history, s)
         == AtMost4(Count(before.history, s) + if SigOf(c, hash) == s then 1 else 0)
  {
    CountOfOneMore(before.history, SigOf(c, hash), s);
    hide Count;
  }

  /** It forgets nothing and lets nothing through a fifth time: after any number of requests for a signature, the
      history holds as many as there were, or four. */
  lemma {:induction false} AdmitCounts(h: seq<Sig>, calls: seq<Call>, hash: Hash, s: Sig)
    requires Count(h, s) <= MAX_REPEATS
    ensures Count(Admit(h, calls, hash).history, s) == AtMost4(Count(h, s) + Count(Sigs(calls, hash), s))
  {
    hide Count, Admit, AdmitOne, Sigs, SigOf;
    if calls == [] {
      AdmitNothing(h, hash, s);
    } else {
      var front, c := calls[..|calls| - 1], calls[|calls| - 1];
      AdmitCounts(h, front, hash, s);
      assert calls == front + [c];
      AdmitUnfolds(h, front, c, hash);
      OneMoreCounts(Admit(h, front, hash), c, hash, s);
      SigsOfOneMore(front, c, hash);
      CountOfOneMore(Sigs(front, hash), SigOf(c, hash), s);
    }
  }

  lemma AdmitNothing(h: seq<Sig>, hash: Hash, s: Sig)
    ensures Admit(h, [], hash).history == h && Sigs([], hash) == [] && Count([], s) == 0
  {
    assert Sigs([], hash) == [];
  }

  function CallsOf(pass: Pass): seq<Call> {
    if pass.reply.Text? then pass.reply.calls else []
  }

  /** The signatures of all calls the model asked for in the first n passes, in order. */
  function Requested(world: nat -> Pass, hash: Hash, n: nat): seq<Sig> {
    if n == 0 then [] else Requested(world, hash, n - 1) + Sigs(CallsOf(world(n)), hash)
  }

  lemma ToolsCount(s: State, i: nat, pass: Pass, hash: Hash, sig: Sig)
    requires pass.reply.Text? && WithCalls(s, i, pass, hash).Go? && Count(s.history, sig) <= MAX_REPEATS
    ensures Count(WithCalls(s, i, pass, hash).state.history, sig)
         == AtMost4(Count(s.history, sig) + Count(Sigs(pass.reply.calls, hash), sig))
  {
    hide Count, Admit, Batch, Flat, Names, AllFailed, Sigs;
    AdmitCounts(s.history, pass.reply.calls, hash, sig);
  }

  lemma StepCounts(s: State, i: nat, pass: Pass, hash: Hash, sig: Sig)
    requires Step(s, i, pass, hash).Go? && Count(s.history, sig) <= MAX_REPEATS
    ensures Count(Step(s, i, pass, hash).state.history, sig)
         == AtMost4(Count(s.history, sig) + Count(Sigs(CallsOf(pass), hash), sig))
  {
    hide Count, WithCalls, Flat, Names, Sigs;
    if CallsOf(pass) == [] {
      AdmitNothing([], hash, sig);
    } else {
      ToolsCount(s, i, pass, hash, sig);
    }
  }

  lemma NothingCounted(sig: Sig)
    ensures Count([], sig) == 0
  {
  }

  lemma AfterUnfolds(world: nat -> Pass, hash: Hash, n: nat)
    requires n >= 1 && After(world, hash, n).Some?
    ensures After(world, hash, n - 1).Some?
    ensures Step(After(world, hash, n - 1).value, n, world(n), hash) == Go(After(world, hash, n).value)
  {
    hide Step;
  }

  lemma BeforeTheFirstPass(world: nat -> Pass, hash: Hash)
    ensures After(world, hash, 0) == Some(START) && Requested(world, hash, 0) == []
  {
  }

  lemma RequestedUnfolds(world: nat -> Pass, hash: Hash, n: nat)
    requires n >= 1
    ensures Requested(world, hash, n) == Requested(world, hash, n - 1) + Sigs(CallsOf(world(n)), hash)
  {
  }

  /** In every state of every run, the history counts the requests made so far, up to four of each. */
  lemma {:induction false} HistoryCountsRequests(world: nat -> Pass, hash: Hash, n: nat, sig: Sig)
    requires After(world, hash, n).Some?
    ensures Count(After(world, hash, n).value.history, sig) == AtMost4(Count(Requested(world, hash, n), sig))
  {
    hide After, Step, Count, Sigs, CallsOf, Requested;
    if n > 0 {
      AfterUnfolds(world, hash, n);
      HistoryCountsRequests(world, hash, n - 1, sig);
      StepCounts(After(world, hash, n - 1).value, n, world(n), hash, sig);
      RequestedUnfolds(world, hash, n);
      CountOfConcat(Requested(world, hash, n - 1), Sigs(CallsOf(world(n)), hash), sig);
    } else {
      BeforeTheFirstPass(world, hash);
      NothingCounted(sig);
    }
  }

  /** Hence a call passes the filter exactly when fewer than four with its signature were requested before it, in
      earlier passes or earlier in the same reply. */
  lemma AdmittedIff(world: nat -> Pass, hash: Hash, n: nat, k: nat)
    requires After(world, hash, n).Some? && k < |CallsOf(world(n + 1))|
    ensures var calls, h := CallsOf(world(n + 1)), After(world, hash, n).value.history;
            Admit(h, calls[..k + 1], hash).calls
            == Admit(h, calls[..k], hash).calls
               + if Count(Requested(world, hash, n) + Sigs(calls[..k], hash), SigOf(calls[k], hash)) < 4
                 then [calls[k]] else []
    ensures var calls, h := CallsOf(world(n + 1)), After(world, hash, n).value.history;
            var before := Count(Requested(world, hash, n) + Sigs(calls[..k], hash), SigOf(calls[k], hash));
            Admit(h, calls[..k + 1], hash).warnings
            == Admit(h, calls[..k], hash).warnings
               + if 2 <= before < 4 then [(calls[k].name, before + 1)] else []
  {
    hide Count, Requested, Sigs, Admit, After, CallsOf;
    var calls, h := CallsOf(world(n + 1)), After(world, hash, n).value.history;
    var sig := SigOf(calls[k], hash);
    HistoryCountsRequests(world, hash, n, sig);
    AdmitCounts(h, calls[..k], hash, sig);
    CountOfConcat(Requested(world, hash, n), Sigs(calls[..k], hash), sig);
    assert calls[..k + 1] == calls[..k] + [calls[k]];
    AdmitUnfolds(h, calls[..k], calls[k], hash);
  }

  // ---- what is executed ----

  lemma {:induction false} MergedIsDistinct(calls: seq<Call>)
    ensures Distinct(Merged(calls))
  {
    if calls != [] {
      MergedIsDistinct(calls[..|calls| - 1]);
    }
  }

  /** Merging keeps first occurrences in place: more calls only append to the result. */
  lemma {:induction false} MergedGrows(calls: seq<Call>, k: nat)
    requires k <= |calls|
    ensures Merged(calls[..k]) <= Merged(calls)
  {
    if k == |calls| {
      assert calls[..k] == calls;
    } else {
      var front := calls[..|calls| - 1];
      assert front[..k] == calls[..k];
      MergedGrows(front, k);
    }
  }

  lemma {:induction false} MergedCounts(calls: seq<Call>, hash: Hash, s: Sig)
    ensures Count(Sigs(Merged(calls), hash), s) <= Count(Sigs(calls, hash), s)
  {
    if calls != [] {
      var front, c := calls[..|calls| - 1], calls[|calls| - 1];
      MergedCounts(front, hash, s);
      assert calls == front + [c];
      SigsOfOneMore(front, c, hash);
      SigsOfOneMore(Merged(front), c, hash);
      CountOfOneMore(Sigs(front, hash), SigOf(c, hash), s);
      CountOfOneMore(Sigs(Merged(front), hash), SigOf(c, hash), s);
    }
  }

  lemma PrefixCounts(calls: seq<Call>, n: nat, hash: Hash, s: Sig)
    requires n <= |calls|
    ensures Count(Sigs(calls[..n], hash), s) <= Count(Sigs(calls, hash), s)
  {
    assert Sigs(calls, hash) == Sigs(calls[..n], hash) + Sigs(calls[n..], hash);
    CountOfConcat(Sigs(calls[..n], hash), Sigs(calls[n..], hash), s);
  }

  lemma PrefixIsDistinct(calls: seq<Call>, n: nat)
    requires n <= |calls| && Distinct(calls)
    ensures Distinct(calls[..n]) && Elems(calls[..n]) <= Elems(calls)
  {
    assert forall c :: c in calls[..n] ==> c in calls;
  }

  /** A pass executes at most four calls, all different, each asked for and let through at least as often. */
  lemma BatchMeans(calls: seq<Call>, hash: Hash, s: Sig)
    ensures |Batch(calls)| <= MAX_CALLS_PER_PASS && Distinct(Batch(calls)) && (calls != [] ==> Batch(calls) != [])
    ensures Elems(Batch(calls)) <= Elems(calls)
    ensures |Batch(calls)| < MAX_CALLS_PER_PASS ==> Elems(Batch(calls)) == Elems(calls)
    ensures Count(Sigs(Batch(calls), hash), s) <= Count(Sigs(calls, hash), s)
  {
    var m := Merged(calls);
    var n := if |m| > MAX_CALLS_PER_PASS then MAX_CALLS_PER_PASS else |m|;
    assert m[..|m|] == m;
    assert Batch(calls) == m[..n];
    MergedIsDistinct(calls);
    MergedCounts(calls, hash, s);
    assert calls != [] ==> m != [] by {
      assert calls != [] ==> calls[0] in Elems(calls);
      assert m == [] ==> Elems(m) == {};
    }
    PrefixCounts(m, n, hash, s);
    PrefixIsDistinct(m, n);
    hide Count, Sigs, Merged, Batch;
  }

  /** The first four of the merged calls are executed, and nothing else. */
  lemma BatchIsFirstFour(calls: seq<Call>)
    ensures Batch(calls) <= Merged(calls)
    ensures |Batch(calls)| == (if |Merged(calls)| < 4 then |Merged(calls)| else 4)
  {
    assert Merged(calls)[..|Merged(calls)|] == Merged(calls);
  }

  function CallsIn(records: seq<Record>): (r: seq<Call>)
    ensures |r| == |records| && forall i :: 0 <= i < |r| ==> r[i] == records[i].call
  {
    seq(|records|, i requires 0 <= i < |records| => records[i].call)
  }

  lemma CallsOfExecuted(batch: seq<Call>, succeeds: nat -> bool)
    ensures CallsIn(Executed(batch, succeeds)) == batch
  {
  }

  /** How many rounds at the end of the run so far had no success at all. */
  function TrailingFailures(rounds: seq<seq<Record>>): nat {
    if rounds == [] || !AllFailed(rounds[|rounds| - 1]) then 0 else 1 + TrailingFailures(rounds[..|rounds| - 1])
  }

  ghost predicate RoundOk(rounds: seq<seq<Record>>, r: nat)
    requires r < |rounds|
  {
    1 <= |rounds[r]| <= MAX_CALLS_PER_PASS && Distinct(CallsIn(rounds[r]))
  }

  ghost predicate Bounded(s: State, n: nat, hash: Hash) {
    && (forall r :: 0 <= r < |s.rounds| ==> RoundOk(s.rounds, r))
    && |s.rounds| + s.urlNudges + s.preambleNudges <= n
    && s.urlNudges <= MAX_NUDGES && s.preambleNudges <= MAX_NUDGES
    && s.fails == TrailingFailures(s.rounds)
    && forall sig :: Count(Sigs(CallsIn(Flat(s.rounds)), hash), sig) <= Count(s.history, sig)
  }

  lemma CallsOfFlat(rounds: seq<seq<Record>>, round: seq<Record>, hash: Hash)
    ensures Sigs(CallsIn(Flat(rounds + [round])), hash)
         == Sigs(CallsIn(Flat(rounds)), hash) + Sigs(CallsIn(round), hash)
  {
    OneMoreRound(rounds, round);
  }

  lemma ToolsStayBounded(s: State, i: nat, pass: Pass, hash: Hash)
    requires i >= 1 && Bounded(s, i - 1, hash) && pass.reply.Text? && WithCalls(s, i, pass, hash).Go?
    ensures Bounded(WithCalls(s, i, pass, hash).state, i, hash)
  {
    var a := Admit(s.history, pass.reply.calls, hash);
    var batch := Batch(a.calls);
    var round := Executed(batch, pass.succeeds);
    var s' := WithCalls(s, i, pass, hash).state;
    CallsOfExecuted(batch, pass.succeeds);
    CallsOfFlat(s.rounds, round, hash);
    AdmitRecords(s.history, pass.reply.calls, hash);
    hide Admit, Batch, Flat, Executed, Sigs, CallsIn, AllFailed;
    forall sig ensures Count(Sigs(CallsIn(Flat(s'.rounds)), hash), sig) <= Count(s'.history, sig) {
      BatchMeans(a.calls, hash, sig);
      CountOfConcat(Sigs(CallsIn(Flat(s.rounds)), hash), Sigs(batch, hash), sig);
      CountOfConcat(s.history, Sigs(a.calls, hash), sig);
      assert Count(Sigs(CallsIn(Flat(s.rounds)), hash), sig) <= Count(s.history, sig);
    }
    BatchMeans(a.calls, hash, ("", 0));
    forall r | 0 <= r < |s'.rounds| ensures RoundOk(s'.rounds, r) {
      assert r < |s.rounds| ==> RoundOk(s.rounds, r);
    }
    assert s'.rounds[..|s'.rounds| - 1] == s.rounds;
  }

  /** In every reachable state: rounds of one to four different calls, at most one round or nudge a pass, at most two
      nudges of each kind, a failure counter that counts the rounds at the end that failed entirely, and no signature
      executed more often than it was let through. */
  lemma {:induction false} ReachableIsBounded(world: nat -> Pass, hash: Hash, n: nat)
    requires After(world, hash, n).Some?
    ensures Bounded(After(world, hash, n).value, n, hash)
  {
    if n == 0 {
      assert Flat([]) == [] && CallsIn([]) == [] && Sigs([], hash) == [];
    } else {
      AfterUnfolds(world, hash, n);
      ReachableIsBounded(world, hash, n - 1);
      var s := After(world, hash, n - 1).value;
      var pass := world(n);
      if pass.reply.Text? && pass.reply.calls != [] {
        ToolsStayBounded(s, n, pass, hash);
      }
      hide WithCalls, Flat, Sigs, CallsIn, Count, Requested, TrailingFailures;
    }
  }

  lemma {:induction false} FlatIsShort(rounds: seq<seq<Record>>)
    requires forall r :: 0 <= r < |rounds| ==> RoundOk(rounds, r)
    ensures |Flat(rounds)| <= MAX_CALLS_PER_PASS * |rounds|
  {
    if rounds != [] {
      var before := rounds[..|rounds| - 1];
      forall r | 0 <= r < |before| ensures RoundOk(before, r) {
        assert RoundOk(rounds, r);
      }
      FlatIsShort(before);
      assert RoundOk(rounds, |rounds| - 1);
    }
  }

  /** No signature is executed more than four times in a run. */
  lemma ExecutedAtMostFourTimes(world: nat -> Pass, hash: Hash, n: nat, sig: Sig)
    requires After(world, hash, n).Some?
    ensures Count(Sigs(CallsIn(Flat(After(world, hash, n).value.rounds)), hash), sig) <= MAX_REPEATS
  {
    ReachableIsBounded(world, hash, n);
    HistoryCountsRequests(world, hash, n, sig);
    hide Flat, Sigs, CallsIn, Requested, After;
  }

  /** How runs end: an answer at pass i comes with one log line for each of at most 4(i - 1) records, none of them for
      a signature executed more than four times; and the passes only run out if the last one still ran tools or got an
      error text. */
  lemma RunsEndWithin(world: nat -> Pass, hash: Hash, outcome: Outcome)
    requires EndsWith(world, hash, outcome)
    ensures outcome.Answered? ==>
              && outcome.logs == Names(outcome.records)
              && |outcome.records| <= MAX_CALLS_PER_PASS * (outcome.pass - 1)
              && forall sig :: Count(Sigs(CallsIn(outcome.records), hash), sig) <= MAX_REPEATS
    ensures outcome.OutOfPasses? ==> world(MAX_ITERS).reply.ErrorText? || CallsOf(world(MAX_ITERS)) != []
  {
    hide After, WithCalls, Flat, Sigs, CallsIn, Count, Names;
    if outcome.Answered? {
      var n := outcome.pass - 1;
      var s := After(world, hash, n).value;
      ReachableIsBounded(world, hash, n);
      AnswersWithRecords(s, outcome.pass, world(outcome.pass), hash, outcome);
      FlatIsShort(s.rounds);
      forall sig ensures Count(Sigs(CallsIn(outcome.records), hash), sig) <= MAX_REPEATS {
        ExecutedAtMostFourTimes(world, hash, n, sig);
      }
    }
    if outcome.OutOfPasses? {
      AfterUnfolds(world, hash, MAX_ITERS);
    }
  }

  lemma AnswersWithRecords(s: State, i: nat, pass: Pass, hash: Hash, outcome: Outcome)
    requires Step(s, i, pass, hash) == Stop(outcome) && outcome.Answered?
    ensures outcome == Answered(Names(Flat(s.rounds)), Flat(s.rounds), i)
  {
    hide Admit, Batch, Flat, Names, Executed, AllFailed;
  }

  lemma {:induction false} RunIsPrefixClosed(world: nat -> Pass, hash: Hash, m: nat, n: nat)
    requires m <= n && After(world, hash, n).Some?
    ensures After(world, hash, m).Some?
  {
    if m < n {
      AfterUnfolds(world, hash, n);
      RunIsPrefixClosed(world, hash, m, n - 1);
    }
    hide After;
  }

  lemma NothingAfterTheEnd(world: nat -> Pass, hash: Hash, outcome: Outcome)
    requires EndsWith(world, hash, outcome) && !outcome.OutOfPasses?
    ensures After(world, hash, outcome.pass - 1).Some? && After(world, hash, outcome.pass).None?
  {
    hide Step;
  }

  /** A run has one outcome. */
  lemma OutcomeIsUnique(world: nat -> Pass, hash: Hash, a: Outcome, b: Outcome)
    requires EndsWith(world, hash, a) && EndsWith(world, hash, b)
    ensures a == b
  {
    hide Step, After;
    var m := if a.OutOfPasses? then MAX_ITERS + 1 else a.pass;
    var n := if b.OutOfPasses? then MAX_ITERS + 1 else b.pass;
    if !a.OutOfPasses? {
      NothingAfterTheEnd(world, hash, a);
    }
    if !b.OutOfPasses? {
      NothingAfterTheEnd(world, hash, b);
    }
    if m < n {
      RunIsPrefixClosed(world, hash, m, n - 1);
    } else if n < m {
      RunIsPrefixClosed(world, hash, n, m - 1);
    }
  }

  lemma AdmitsFour(c: Call, hash: Hash)
    ensures var a := Admit([], Copies(c, 5), hash);
            && Count(a.history, SigOf(c, hash)) == 4 && a.calls != [] && Merged(a.calls) == [c]
  {
    hide Admit, Merged, Count, Sigs, Copies;
    var calls := Copies(c, 5);
    var a := Admit([], calls, hash);
    AllSame(c, hash, 5);
    NothingCounted(SigOf(c, hash));
    AdmitCounts([], calls, hash, SigOf(c, hash));
    AdmitRecords([], calls, hash);
    AdmitNothing([], hash, SigOf(c, hash));
    assert a.calls != [];
    AdmitOnlyAsked([], calls, hash);
    OnlyCopies(c, 5);
    assert a.calls[0] in a.calls;
    assert Elems(a.calls) == {c};
    MergedIsDistinct(a.calls);
    OneElement(Merged(a.calls), c);
  }

  lemma OnlyCopies(c: Call, n: nat)
    ensures forall x :: x in Copies(c, n) ==> x == c
  {
  }

  lemma OneElement(s: seq<Call>, c: Call)
    requires Distinct(s) && Elems(s) == {c}
    ensures s == [c]
  {
    DistinctCardinality(s);
    assert |s| == 1 && s[0] in Elems(s);
  }

  /** The filter counts requests, not executions: five identical calls in one reply run once, and the call is refused
      from then on. */
  lemma RefusedAfterOneExecution(c: Call, hash: Hash, ok: bool)
    ensures var pass := Pass(false, Text(Copies(c, 5), false), false, true, _ => ok);
            && Step(START, 1, pass, hash).Go?
            && var s := Step(START, 1, pass, hash).state;
               Flat(s.rounds) == [Record(c, ok)]
               && Step(s, 2, pass, hash) == Stop(Answered([c.name], [Record(c, ok)], 2))
  {
    var pass := Pass(false, Text(Copies(c, 5), false), false, true, _ => ok);
    var a := Admit([], Copies(c, 5), hash);
    AdmitsFour(c, hash);
    NoneAdmitted(a.history, c, hash, 5);
    hide Admit, Merged, Flat, Count;
    assert Executed(Batch(a.calls), pass.succeeds) == [Record(c, ok)];
    OneMoreRound([], [Record(c, ok)]);
    FlatNothing();
    assert Names([Record(c, ok)]) == [c.name];
  }

  function Copies(c: Call, n: nat): seq<Call> {
    seq(n, _ => c)
  }

  lemma {:induction false} AllSame(c: Call, hash: Hash, n: nat)
    ensures Count(Sigs(Copies(c, n), hash), SigOf(c, hash)) == n
  {
    if n > 0 {
      AllSame(c, hash, n - 1);
      assert Copies(c, n) == Copies(c, n - 1) + [c];
      SigsOfOneMore(Copies(c, n - 1), c, hash);
      CountOfOneMore(Sigs(Copies(c, n - 1), hash), SigOf(c, hash), SigOf(c, hash));
    } else {
      assert Sigs(Copies(c, 0), hash) == [];
    }
  }

  lemma {:induction false} AdmitOnlyAsked(h: seq<Sig>, calls: seq<Call>, hash: Hash)
    ensures forall c :: c in Admit(h, calls, hash).calls ==> c in calls
  {
    if calls != [] {
      AdmitOnlyAsked(h, calls[..|calls| - 1], hash);
      assert calls == calls[..|calls| - 1] + [calls[|calls| - 1]];
    }
  }

  lemma {:induction false} NoneAdmitted(h: seq<Sig>, c: Call, hash: Hash, n: nat)
    requires Count(h, SigOf(c, hash)) >= MAX_REPEATS
    ensures Admit(h, Copies(c, n), hash) == Admission(h, [], [])
  {
    if n > 0 {
      NoneAdmitted(h, c, hash, n - 1);
      assert Copies(c, n)[..n - 1] == Copies(c, n - 1) && Copies(c, n)[n - 1] == c;
    }
  }
}
