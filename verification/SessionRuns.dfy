/** Whole runs of the session store, refining a map from session ids to the turns saved under them. */
module SessionRuns {
  import opened SessionKeys
  import opened SessionStore

  /** One call of the store; the clock reading is part of a saved turn, and of a prune's cutoff. */
  datatype Call = SaveCall(sid: string, turn: Turn) | ClearCall(sid: string) | PruneCall(cutoff: int)

  function Do(t: Tables, call: Call): Tables {
    match call
    case SaveCall(sid, turn) => Save(t, sid, turn)
    case ClearCall(sid) => Clear(t, {sid})
    case PruneCall(cutoff) => Clear(t, Stale(t, cutoff))
  }

  function DoAll(calls: seq<Call>): Tables {
    if calls == [] then Tables(map[], map[])
    else Do(DoAll(calls[..|calls| - 1]), calls[|calls| - 1])
  }

  /** What a store promises: a session is the turns saved since it was last cleared. */
  type Sessions = map<string, seq<Turn>>

  function TurnsOf(a: Sessions, sid: string): seq<Turn> {
    if sid in a then a[sid] else []
  }

  function SpecDo(a: Sessions, call: Call): Sessions {
    match call
    case SaveCall(sid, turn) => a[sid := TurnsOf(a, sid) + [turn]]
    case ClearCall(sid) => a - {sid}
    case PruneCall(cutoff) => map s | s in a && LastSaved(a[s]) > cutoff :: a[s]
  }

  function SpecDoAll(calls: seq<Call>): Sessions {
    if calls == [] then map[]
    else SpecDo(SpecDoAll(calls[..|calls| - 1]), calls[|calls| - 1])
  }

  function LastSaved(turns: seq<Turn>): int {
    if turns == [] then 0 else turns[|turns| - 1].timestamp
  }

  /** The first non-empty thing the user said, cut to the title length. */
  function TitleOf(turns: seq<Turn>): string {
    if turns == [] then ""
    else if turns[0].role == "user" && turns[0].content != "" then
      turns[0].content[..if |turns[0].content| <= 120 then |turns[0].content| else 120]
    else TitleOf(turns[1..])
  }

  /** The calls use NUL-free ids and no session ever holds more than ten digits of turns. */
  ghost predicate Legal(calls: seq<Call>) {
    forall i :: 0 <= i < |calls| && calls[i].SaveCall? ==>
                  NulFree(calls[i].sid) && |TurnsOf(SpecDoAll(calls[..i]), calls[i].sid)| < LIMIT
  }

  ghost predicate Holds(t: Tables, a: Sessions, sid: string)
    requires Sound(t)
  {
    && History(t, sid) == TurnsOf(a, sid)
    && (sid in t.meta <==> sid in a)
    && (sid in t.meta ==>
          && a[sid] != [] && t.meta[sid].createdAt == a[sid][0].timestamp
          && t.meta[sid].updatedAt == LastSaved(a[sid]) && t.meta[sid].title == TitleOf(a[sid]))
  }

  ghost predicate Refines(t: Tables, a: Sessions) {
    Sound(t) && forall sid :: Holds(t, a, sid)
  }

  lemma {:induction false} TitleGrows(turns: seq<Turn>, turn: Turn)
    ensures TitleOf(turns + [turn]) == if TitleOf(turns) == "" then TitleOf([turn]) else TitleOf(turns)
  {
    if turns == [] {
      assert turns + [turn] == [turn];
    } else {
      assert (turns + [turn])[1..] == turns[1..] + [turn];
      TitleGrows(turns[1..], turn);
    }
  }

  lemma RowGrows(m: Meta, turns: seq<Turn>, turn: Turn)
    requires m.title == TitleOf(turns)
    ensures Grown(m, turn).title == TitleOf(turns + [turn])
    ensures Grown(m, turn).updatedAt == LastSaved(turns + [turn]) && Grown(m, turn).createdAt == m.createdAt
  {
    TitleGrows(turns, turn);
    assert turn.content[..|turn.content|] == turn.content;
  }

  lemma SavedHolds(t: Tables, a: Sessions, sid: string, turn: Turn, a': Sessions)
    requires Sound(t) && Holds(t, a, sid) && NulFree(sid) && |TurnsOf(a, sid)| < LIMIT
    requires a' == a[sid := TurnsOf(a, sid) + [turn]]
    ensures Sound(Save(t, sid, turn)) && Holds(Save(t, sid, turn), a', sid)
  {
    SaveAppends(t, sid, turn, sid);
    RowGrows(MetaOf(t, sid, turn.timestamp), TurnsOf(a, sid), turn);
    hide Sound, History, NulFree, TurnKey, TitleOf, LastSaved, Grown;
  }

  lemma SaveRefines(t: Tables, a: Sessions, sid: string, turn: Turn)
    requires Refines(t, a) && NulFree(sid) && |TurnsOf(a, sid)| < LIMIT
    ensures Refines(Save(t, sid, turn), SpecDo(a, SaveCall(sid, turn)))
  {
    hide Sound, History, NulFree, TurnKey, TitleOf, LastSaved, Grown, Save, Holds, TurnsOf;
    var t', a' := Save(t, sid, turn), SpecDo(a, SaveCall(sid, turn));
    assert Holds(t, a, sid);
    SavedHolds(t, a, sid, turn, a');
    forall s | s != sid ensures Holds(t', a', s) {
      OtherHolds(t, a, sid, turn, a', s);
    }
  }

  lemma OtherHolds(t: Tables, a: Sessions, sid: string, turn: Turn, a': Sessions, s: string)
    requires Sound(t) && Holds(t, a, sid) && Holds(t, a, s) && NulFree(sid) && |TurnsOf(a, sid)| < LIMIT && s != sid
    requires a' == a[sid := TurnsOf(a, sid) + [turn]]
    ensures Sound(Save(t, sid, turn)) && Holds(Save(t, sid, turn), a', s)
  {
    SaveAppends(t, sid, turn, s);
    hide Sound, History, NulFree, TurnKey, TitleOf, LastSaved, Grown;
  }

  lemma RemoveRefines(t: Tables, a: Sessions, ids: set<string>, a': Sessions)
    requires Refines(t, a) && a' == a - ids
    ensures Refines(Clear(t, ids), a')
  {
    ClearRemoves(t, ids);
    hide Sound, History, TitleOf, LastSaved;
    forall s ensures Holds(Clear(t, ids), a', s) {
      assert Holds(t, a, s);
    }
  }

  lemma PruneRefines(t: Tables, a: Sessions, cutoff: int)
    requires Refines(t, a)
    ensures Refines(Clear(t, Stale(t, cutoff)), SpecDo(a, PruneCall(cutoff)))
  {
    var ids := Stale(t, cutoff);
    assert forall s :: s in t.meta ==> MetaSound(t, s);
    assert ids == set s | s in t.meta && t.meta[s].updatedAt <= cutoff;
    hide Sound, History, LastSaved, TitleOf, TurnsOf;
    forall s ensures s in a && LastSaved(a[s]) > cutoff <==> s in a && s !in ids {
      assert Holds(t, a, s);
    }
    hide Refines;
    assert SpecDo(a, PruneCall(cutoff)) == a - ids;
    RemoveRefines(t, a, ids, a - ids);
  }

  /** After every run of calls the tables hold, for each session, exactly the turns saved since it was last cleared
      or pruned, in order, under the time of the last and the title of the first. */
  lemma {:induction false} RunRefines(calls: seq<Call>)
    requires Legal(calls)
    ensures Refines(DoAll(calls), SpecDoAll(calls))
  {
    if calls != [] {
      var n := |calls| - 1;
      assert forall i :: 0 <= i <= n ==> calls[..n][..i] == calls[..i];
      RunRefines(calls[..n]);
      var t, a := DoAll(calls[..n]), SpecDoAll(calls[..n]);
      match calls[n]
      case SaveCall(sid, turn) => SaveRefines(t, a, sid, turn);
      case ClearCall(sid) => RemoveRefines(t, a, {sid}, a - {sid});
      case PruneCall(cutoff) => PruneRefines(t, a, cutoff);
    }
  }

  /** Hence a scan after any run reads the session's own turns, whatever other sessions the store holds. */
  lemma ScanReadsSession(calls: seq<Call>, sid: string, keys: seq<string>)
    requires Legal(calls) && IsScan(DoAll(calls), sid, keys)
    ensures |keys| == |TurnsOf(SpecDoAll(calls), sid)|
    ensures var turns := DoAll(calls).turns;
            forall i :: 0 <= i < |keys| ==>
              keys[i] in turns && turns[keys[i]] == TurnsOf(SpecDoAll(calls), sid)[i]
  {
    RunRefines(calls);
    assert Holds(DoAll(calls), SpecDoAll(calls), sid);
    ScanIsHistory(DoAll(calls), sid, keys);
  }

  /** Hence loading after any run yields the newest turns saved since the session was last removed, oldest first. */
  lemma LoadReadsNewest(calls: seq<Call>, sid: string, maxTurns: nat, r: seq<Turn>)
    requires Legal(calls) && Sound(DoAll(calls)) && IsNewest(r, History(DoAll(calls), sid), maxTurns)
    ensures IsNewest(r, SavedSince(calls, sid), maxTurns)
  {
    hide Sound, History, IsNewest;
    RunRefines(calls);
    assert Holds(DoAll(calls), SpecDoAll(calls), sid);
    SessionsAreApart(calls, sid);
  }

  /** The turns saved under an id since it was last cleared, or pruned with its last turn at the cutoff or before. */
  function SavedSince(calls: seq<Call>, sid: string): seq<Turn> {
    if calls == [] then []
    else
      var turns, call := SavedSince(calls[..|calls| - 1], sid), calls[|calls| - 1];
      match call
      case SaveCall(s, turn) => if s == sid then turns + [turn] else turns
      case ClearCall(s) => if s == sid then [] else turns
      case PruneCall(cutoff) => if turns != [] && turns[|turns| - 1].timestamp <= cutoff then [] else turns
  }

  /** What calls for other sessions do plays no part. */
  lemma {:induction false} SessionsAreApart(calls: seq<Call>, sid: string)
    ensures TurnsOf(SpecDoAll(calls), sid) == SavedSince(calls, sid)
    ensures sid in SpecDoAll(calls) ==> SavedSince(calls, sid) != []
  {
    if calls != [] {
      SessionsAreApart(calls[..|calls| - 1], sid);
    }
  }
}
