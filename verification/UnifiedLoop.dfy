/** The shared loop between model and tools: passes, the repeat filter, merging, the cap per pass, and nudges. */
module UnifiedLoop {
  import opened Common

  const MAX_ITERS := 20
  const MAX_CALLS_PER_PASS := 4
  const MAX_NUDGES := 2
  const MAX_REPEATS := 4
  const WARN_REPEATS := 2

  datatype Call = Call(name: string, args: string)

  type Sig = (string, nat)

  type Hash = string -> nat

  function SigOf(c: Call, hash: Hash): Sig {
    (c.name, hash(c.args))
  }

  datatype Record = Record(call: Call, success: bool)

  /** What inference returns: an error, a reply that reads as an error message, or a text with the tool calls parsed
      from it; `intent` says the text promises work without delivering any. */
  datatype Reply = Failed | ErrorText | Text(calls: seq<Call>, intent: bool)

  /** What one pass meets. `succeeds(k)` is the outcome of the k-th call it executes. */
  datatype Pass = Pass(cancelled: bool, reply: Reply, fetchGoal: bool, toolsAvailable: bool, succeeds: nat -> bool)

  datatype Outcome =
    | Answered(logs: seq<string>, records: seq<Record>, pass: nat)
    | Cancelled(pass: nat)
    | InferenceFailed(pass: nat)
    | OutOfPasses

  // ---- the repeat filter ----

  function Count(history: seq<Sig>, s: Sig): nat {
    if history == [] then 0
    else Count(history[..|history| - 1], s) + if history[|history| - 1] == s then 1 else 0
  }

  datatype Admission = Admission(history: seq<Sig>, calls: seq<Call>, warnings: seq<(string, nat)>)

  /** Calls are let through one by one, until four with their signature have been. */
  function Admit(history: seq<Sig>, calls: seq<Call>, hash: Hash): Admission {
    if calls == [] then Admission(history, [], [])
    else
      var before, c := Admit(history, calls[..|calls| - 1], hash), calls[|calls| - 1];
      var n := Count(before.history, SigOf(c, hash));
      if n >= MAX_REPEATS then before
      else Admission(before.history + [SigOf(c, hash)], before.calls + [c],
                     before.warnings + if n >= WARN_REPEATS then [(c.name, n + 1)] else [])
  }

  function Sigs(calls: seq<Call>, hash: Hash): (r: seq<Sig>)
    ensures |r| == |calls| && forall i :: 0 <= i < |calls| ==> r[i] == SigOf(calls[i], hash)
  {
    seq(|calls|, i requires 0 <= i < |calls| => SigOf(calls[i], hash))
  }

  method FilterRepeats(history: seq<Sig>, calls: seq<Call>, hash: Hash)
    returns (newHistory: seq<Sig>, filtered: seq<Call>, warnings: seq<(string, nat)>)
    ensures Admission(newHistory, filtered, warnings) == Admit(history, calls, hash)
  {
    newHistory, filtered, warnings := history, [], [];
    hide Count;
    for i := 0 to |calls|
      invariant Admission(newHistory, filtered, warnings) == Admit(history, calls[..i], hash)
    {
      assert calls[..i + 1][..i] == calls[..i];
      var call := calls[i];
      var sig := SigOf(call, hash);
      var repeatCount := CountIn(newHistory, sig);
      if repeatCount >= MAX_REPEATS {
        continue;
      } else if repeatCount >= WARN_REPEATS {
        warnings := warnings + [(call.name, repeatCount + 1)];
      }
      newHistory := newHistory + [sig];
      filtered := filtered + [call];
    }
    assert calls[..|calls|] == calls;
  }

  method CountIn(history: seq<Sig>, sig: Sig) returns (n: nat)
    ensures n == Count(history, sig)
  {
    n := 0;
    for i := 0 to |history|
      invariant n == Count(history[..i], sig)
    {
      assert history[..i + 1][..i] == history[..i];
      if history[i] == sig {
        n := n + 1;
      }
    }
    assert history[..|history|] == history;
  }

  // ---- merging and the cap ----

  /** The first occurrence of every call. */
  function Merged(calls: seq<Call>): (r: seq<Call>)
    ensures Elems(r) == Elems(calls) && |r| <= |calls|
  {
    if calls == [] then []
    else
      var before, c := Merged(calls[..|calls| - 1]), calls[|calls| - 1];
      assert calls == calls[..|calls| - 1] + [c];
      assert c in before <==> c in Elems(before);
      assert c !in before ==> Elems(before + [c]) == Elems(before) + {c};
      assert Elems(calls) == Elems(calls[..|calls| - 1]) + {c};
      if c in before then before else before + [c]
  }

  function Batch(calls: seq<Call>): seq<Call> {
    var unique := Merged(calls);
    if |unique| > MAX_CALLS_PER_PASS then unique[..MAX_CALLS_PER_PASS] else unique
  }

  method MergeDuplicates(calls: seq<Call>) returns (unique: seq<Call>)
    ensures unique == Merged(calls)
  {
    var seen: set<Call> := {};
    unique := [];
    for i := 0 to |calls|
      invariant unique == Merged(calls[..i]) && seen == Elems(unique)
    {
      assert calls[..i + 1][..i] == calls[..i];
      if calls[i] !in seen {
        assert Elems(unique + [calls[i]]) == Elems(unique) + {calls[i]};
        seen, unique := seen + {calls[i]}, unique + [calls[i]];
      }
    }
    assert calls[..|calls|] == calls;
  }

  // ---- execution ----

  function Executed(batch: seq<Call>, succeeds: nat -> bool): (r: seq<Record>)
    ensures |r| == |batch| && forall k :: 0 <= k < |batch| ==> r[k] == Record(batch[k], succeeds(k))
  {
    seq(|batch|, k requires 0 <= k < |batch| => Record(batch[k], succeeds(k)))
  }

  predicate AllFailed(round: seq<Record>) {
    forall k :: 0 <= k < |round| ==> !round[k].success
  }

  function Names(records: seq<Record>): seq<string> {
    seq(|records|, k requires 0 <= k < |records| => records[k].call.name)
  }

  function Failures(round: seq<Record>): nat {
    if round == [] then 0
    else Failures(round[..|round| - 1]) + if round[|round| - 1].success then 0 else 1
  }

  lemma {:induction false} FailuresCount(round: seq<Record>)
    ensures Failures(round) <= |round|
    ensures Failures(round) == |round| <==> AllFailed(round)
  {
    if round != [] {
      FailuresCount(round[..|round| - 1]);
    }
  }

  /** Runs the calls in order; every call, run or refused, leaves one record and one log line. */
  method ExecuteCalls(calls: seq<Call>, succeeds: nat -> bool, logs: seq<string>, records: seq<Record>)
    returns (newLogs: seq<string>, newRecords: seq<Record>, failures: nat)
    ensures newRecords == records + Executed(calls, succeeds)
    ensures newLogs == logs + Names(Executed(calls, succeeds))
    ensures failures == Failures(Executed(calls, succeeds))
  {
    newLogs, newRecords, failures := logs, records, 0;
    ghost var all := Executed(calls, succeeds);
    for k := 0 to |calls|
      invariant newRecords == records + all[..k] && newLogs == logs + Names(all[..k])
      invariant failures == Failures(all[..k])
    {
      assert all[..k + 1] == all[..k] + [all[k]] && all[..k + 1][..k] == all[..k];
      var success := succeeds(k);
      if !success {
        failures := failures + 1;
      }
      newRecords := newRecords + [Record(calls[k], success)];
      newLogs := newLogs + [calls[k].name];
    }
    assert all[..|calls|] == all;
  }

  // ---- one pass, and the loop ----

  /** What the loop remembers between passes: the signatures let through, the records of each round of tools, the
      nudges of the two kinds, and how many rounds in a row failed entirely. */
  datatype State = State(history: seq<Sig>, rounds: seq<seq<Record>>, urlNudges: nat, preambleNudges: nat, fails: nat)

  const START := State([], [], 0, 0, 0)

  function Flat(rounds: seq<seq<Record>>): seq<Record> {
    if rounds == [] then [] else Flat(rounds[..|rounds| - 1]) + rounds[|rounds| - 1]
  }

  datatype Next = Go(state: State) | Stop(outcome: Outcome)

  function Finish(s: State, i: nat): Next {
    Stop(Answered(Names(Flat(s.rounds)), Flat(s.rounds), i))
  }

  function WithoutCalls(s: State, i: nat, pass: Pass): Next
    requires pass.reply.Text?
  {
    if s.urlNudges < MAX_NUDGES && i < MAX_ITERS && Flat(s.rounds) == [] && pass.fetchGoal && pass.toolsAvailable then
      Go(s.(urlNudges := s.urlNudges + 1))
    else if s.preambleNudges < MAX_NUDGES && i < MAX_ITERS && pass.toolsAvailable && pass.reply.intent then
      Go(s.(preambleNudges := s.preambleNudges + 1))
    else Finish(s, i)
  }

  function WithCalls(s: State, i: nat, pass: Pass, hash: Hash): Next
    requires pass.reply.Text?
  {
    var a := Admit(s.history, pass.reply.calls, hash);
    if a.calls == [] then Finish(s, i)
    else
      var round := Executed(Batch(a.calls), pass.succeeds);
      Go(s.(history := a.history, rounds := s.rounds + [round], fails := if AllFailed(round) then s.fails + 1 else 0))
  }

  function Step(s: State, i: nat, pass: Pass, hash: Hash): Next {
    if pass.cancelled then Stop(Cancelled(i))
    else match pass.reply
      case Failed => Stop(InferenceFailed(i))
      case ErrorText => Go(s)
      case Text(calls, _) => if calls == [] then WithoutCalls(s, i, pass) else WithCalls(s, i, pass, hash)
  }

  /** The state after n passes, if the loop gets that far. */
  function After(world: nat -> Pass, hash: Hash, n: nat): Option<State> {
    if n == 0 then Some(START)
    else
      match After(world, hash, n - 1)
      case None => None
      case Some(s) =>
        var next := Step(s, n, world(n), hash);
        if next.Go? then Some(next.state) else None
  }

  /** The outcome of a run, and where it ends. */
  ghost predicate EndsWith(world: nat -> Pass, hash: Hash, outcome: Outcome) {
    if outcome.OutOfPasses? then After(world, hash, MAX_ITERS).Some?
    else
      && 1 <= outcome.pass <= MAX_ITERS && After(world, hash, outcome.pass - 1).Some?
      && Step(After(world, hash, outcome.pass - 1).value, outcome.pass, world(outcome.pass), hash) == Stop(outcome)
  }

  lemma OneMoreRound(rounds: seq<seq<Record>>, round: seq<Record>)
    ensures Flat(rounds + [round]) == Flat(rounds) + round
    ensures Names(Flat(rounds + [round])) == Names(Flat(rounds)) + Names(round)
  {
    assert (rounds + [round])[..|rounds|] == rounds;
  }

  /** The part of a pass that runs tools: filter, merge, cap, execute, and count rounds without any success. */
  method UseTools(pass: Pass, hash: Hash, history: seq<Sig>, logs: seq<string>, records: seq<Record>, fails: nat)
    returns (blocked: bool, newHistory: seq<Sig>, newLogs: seq<string>, newRecords: seq<Record>, newFails: nat)
    requires pass.reply.Text?
    ensures var a := Admit(history, pass.reply.calls, hash);
            var round := Executed(Batch(a.calls), pass.succeeds);
            && (blocked <==> a.calls == [])
            && newHistory == a.history
            && newRecords == (if blocked then records else records + round)
            && newLogs == (if blocked then logs else logs + Names(round))
            && newFails == if blocked then fails else if AllFailed(round) then fails + 1 else 0
  {
    newLogs, newRecords, newFails := logs, records, fails;
    var calls, warnings;
    newHistory, calls, warnings := FilterRepeats(history, pass.reply.calls, hash);
    blocked := calls == [];
    if !blocked {
      var batch := MergeDuplicates(calls);
      if |batch| > MAX_CALLS_PER_PASS {
        batch := batch[..MAX_CALLS_PER_PASS];
      }
      var failures;
      newLogs, newRecords, failures := ExecuteCalls(batch, pass.succeeds, logs, records);
      FailuresCount(Executed(batch, pass.succeeds));
      newFails := if failures >= |batch| then fails + 1 else 0;
    }
    hide Admit, Merged, Names, Failures, AllFailed, Executed;
  }

  /** The state a round of tools leads to. */
  ghost function AfterTools(s: State, pass: Pass, hash: Hash): State
    requires pass.reply.Text?
  {
    var a := Admit(s.history, pass.reply.calls, hash);
    var round := Executed(Batch(a.calls), pass.succeeds);
    s.(history := a.history, rounds := s.rounds + [round], fails := if AllFailed(round) then s.fails + 1 else 0)
  }

  lemma ToolsLeadTo(s: State, i: nat, pass: Pass, hash: Hash)
    requires pass.reply.Text?
    ensures var a := Admit(s.history, pass.reply.calls, hash);
            var s', round := AfterTools(s, pass, hash), Executed(Batch(a.calls), pass.succeeds);
            && WithCalls(s, i, pass, hash) == (if a.calls == [] then Finish(s, i) else Go(s'))
            && Flat(s'.rounds) == Flat(s.rounds) + round
            && Names(Flat(s'.rounds)) == Names(Flat(s.rounds)) + Names(round)
  {
    OneMoreRound(s.rounds, Executed(Batch(Admit(s.history, pass.reply.calls, hash).calls), pass.succeeds));
  }

  lemma RunGoesOn(world: nat -> Pass, hash: Hash, n: nat, s: State, s': State)
    requires n >= 1 && After(world, hash, n - 1) == Some(s) && Step(s, n, world(n), hash) == Go(s')
    ensures After(world, hash, n) == Some(s')
  {
    hide Step;
  }

  lemma RunStops(world: nat -> Pass, hash: Hash, n: nat, s: State, outcome: Outcome)
    requires 1 <= n <= MAX_ITERS && After(world, hash, n - 1) == Some(s) && !outcome.OutOfPasses? && outcome.pass == n
    requires Step(s, n, world(n), hash) == Stop(outcome)
    ensures EndsWith(world, hash, outcome)
  {
    hide Step, After;
  }

  method Run(world: nat -> Pass, hash: Hash) returns (outcome: Outcome)
    ensures EndsWith(world, hash, outcome)
  {
    hide WithCalls, Flat, Names, Admit, Batch, Executed, AllFailed;
    var toolLogs: seq<string>, toolRecords: seq<Record> := [], [];
    var toolCallHistory: seq<Sig> := [];
    var urlFetchNudges, toolPreambleNudges, consecutiveAllFailPasses := 0, 0, 0;
    ghost var s := START;
    assert After(world, hash, 0) == Some(s);
    FlatNothing();
    hide After, EndsWith;
    for iter := 1 to MAX_ITERS + 1
      invariant After(world, hash, iter - 1) == Some(s)
      invariant s.history == toolCallHistory && s.fails == consecutiveAllFailPasses
      invariant s.urlNudges == urlFetchNudges && s.preambleNudges == toolPreambleNudges
      invariant toolRecords == Flat(s.rounds) && toolLogs == Names(toolRecords)
    {
      var pass := world(iter);
      ghost var s0 := s;
      if pass.cancelled {
        RunStops(world, hash, iter, s, Cancelled(iter));
        return Cancelled(iter);
      }
      if pass.reply.Failed? {
        RunStops(world, hash, iter, s, InferenceFailed(iter));
        return InferenceFailed(iter);
      }
      if pass.reply.ErrorText? {
        RunGoesOn(world, hash, iter, s, s);
        continue;
      }
      if pass.reply.calls == [] {
        NamesAreAsMany(toolRecords);
        if urlFetchNudges < MAX_NUDGES && iter < MAX_ITERS && toolLogs == [] && toolRecords == []
           && pass.fetchGoal && pass.toolsAvailable {
          urlFetchNudges := urlFetchNudges + 1;
          s := s.(urlNudges := urlFetchNudges);
          RunGoesOn(world, hash, iter, s0, s);
          continue;
        }
        if toolPreambleNudges < MAX_NUDGES && iter < MAX_ITERS && pass.toolsAvailable && pass.reply.intent {
          toolPreambleNudges := toolPreambleNudges + 1;
          s := s.(preambleNudges := toolPreambleNudges);
          RunGoesOn(world, hash, iter, s0, s);
          continue;
        }
        RunStops(world, hash, iter, s, Answered(toolLogs, toolRecords, iter));
        return Answered(toolLogs, toolRecords, iter);
      }
      var blocked, history, logs, records, fails :=
        UseTools(pass, hash, toolCallHistory, toolLogs, toolRecords, consecutiveAllFailPasses);
      ToolsLeadTo(s, iter, pass, hash);
      if blocked {
        RunStops(world, hash, iter, s, Answered(toolLogs, toolRecords, iter));
        return Answered(toolLogs, toolRecords, iter);
      }
      toolCallHistory, toolLogs, toolRecords, consecutiveAllFailPasses := history, logs, records, fails;
      s := AfterTools(s0, pass, hash);
      RunGoesOn(world, hash, iter, s0, s);
    }
    PassesRunOut(world, hash, s);
    return OutOfPasses;
  }

  lemma PassesRunOut(world: nat -> Pass, hash: Hash, s: State)
    requires After(world, hash, MAX_ITERS) == Some(s)
    ensures EndsWith(world, hash, OutOfPasses)
  {
  }

  lemma FlatNothing()
    ensures Flat([]) == [] && Names([]) == []
  {
  }

  lemma NamesAreAsMany(records: seq<Record>)
    ensures |Names(records)| == |records|
  {
  }
}
