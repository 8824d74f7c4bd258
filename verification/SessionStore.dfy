/** The session store: turns under composite keys and metadata under session ids, refining a map from session
    ids to their turns. */
module SessionStore {
  import opened Common
  import opened Text
  import opened SessionKeys

  const TITLE_CHARS := 120

  datatype Turn = Turn(role: string, content: string, timestamp: int)

  datatype Meta = Meta(sessionId: string, createdAt: int, updatedAt: int, turnCount: nat, title: string)

  datatype Tables = Tables(turns: map<string, Turn>, meta: map<string, Meta>)

  predicate NulFree(sid: string) {
    '\0' !in sid
  }

  function MetaOf(t: Tables, sid: string, now: int): Meta {
    if sid in t.meta then t.meta[sid] else Meta(sid, now, now, 0, "")
  }

  function Grown(m: Meta, turn: Turn): Meta {
    var title := if m.title == "" && turn.role == "user" then
                   if |turn.content| <= TITLE_CHARS then turn.content else turn.content[..TITLE_CHARS]
                 else m.title;
    m.(turnCount := m.turnCount + 1, updatedAt := turn.timestamp, title := title)
  }

  function Save(t: Tables, sid: string, turn: Turn): Tables {
    var m := MetaOf(t, sid, turn.timestamp);
    Tables(t.turns[TurnKey(sid, m.turnCount) := turn], t.meta[sid := Grown(m, turn)])
  }

  predicate Scanned(ids: set<string>, key: string) {
    exists s :: s in ids && InScan(s, key)
  }

  /** The tables without the rows that the scans for these sessions visit. */
  function Clear(t: Tables, ids: set<string>): Tables {
    Tables(map k | k in t.turns && !Scanned(ids, k) :: t.turns[k], t.meta - ids)
  }

  function Stale(t: Tables, cutoff: int): set<string> {
    set s | s in t.meta && t.meta[s].updatedAt <= cutoff :: t.meta[s].sessionId
  }

  ghost predicate Ascending(keys: seq<string>) {
    forall i, j :: 0 <= i < j < |keys| ==> Less(keys[i], keys[j])
  }

  /** The keys a range scan yields: those in range, in byte order. */
  ghost predicate IsScan(t: Tables, sid: string, keys: seq<string>) {
    Ascending(keys) && forall k :: k in keys <==> k in t.turns && InScan(sid, k)
  }

  /** The newest n of these turns, or all if there are not that many: some older ones come before them. */
  ghost predicate IsNewest(r: seq<Turn>, turns: seq<Turn>, n: nat) {
    |r| == (if |turns| < n then |turns| else n) && exists older :: turns == older + r
  }

  lemma EndIsNewest(turns: seq<Turn>, n: nat)
    ensures IsNewest(if |turns| > n then turns[|turns| - n..] else turns, turns, n)
  {
    assert turns == [] + turns;
    if |turns| > n {
      assert turns == turns[..|turns| - n] + turns[|turns| - n..];
    }
  }

  /** Session ids are NUL-free, indices fit ten digits, and the turns stored are exactly those the counts announce. */
  ghost predicate Sound(t: Tables) {
    && (forall sid :: sid in t.meta ==> MetaSound(t, sid))
    && (forall k :: k in t.turns ==> Owned(t, k))
  }

  ghost predicate MetaSound(t: Tables, sid: string)
    requires sid in t.meta
  {
    && NulFree(sid) && t.meta[sid].sessionId == sid && t.meta[sid].turnCount <= LIMIT
    && forall i :: 0 <= i < t.meta[sid].turnCount ==> TurnKey(sid, i) in t.turns
  }

  ghost predicate Owned(t: Tables, key: string) {
    exists sid, i :: Announces(t, sid, i) && key == TurnKey(sid, i)
  }

  ghost predicate Announces(t: Tables, sid: string, i: nat) {
    sid in t.meta && i < t.meta[sid].turnCount
  }

  /** The turns of a session, oldest first; a session never saved to has none. */
  ghost function History(t: Tables, sid: string): seq<Turn>
    requires Sound(t)
  {
    if sid !in t.meta then []
    else
      assert MetaSound(t, sid);
      seq(t.meta[sid].turnCount, i requires 0 <= i < t.meta[sid].turnCount => t.turns[TurnKey(sid, i)])
  }

  lemma StoredKeyInScan(t: Tables, sid: string, key: string) returns (i: nat)
    requires Sound(t) && key in t.turns && InScan(sid, key)
    ensures Announces(t, sid, i) && i < LIMIT && key == TurnKey(sid, i)
  {
    assert Owned(t, key);
    var s, j :| Announces(t, s, j) && key == TurnKey(s, j);
    assert MetaSound(t, s);
    if s != sid {
      NulFreeKeysStayOut(sid, s, j);
    }
    i := j;
  }

  lemma NoMembers(b: seq<string>)
    ensures b == [] <==> forall k :: k !in b
  {
    assert b != [] ==> b[0] in b;
  }

  lemma FirstIsLeast(a: seq<string>, x: string)
    requires Ascending(a) && x in a
    ensures x == a[0] || Less(a[0], x)
  {
  }

  lemma {:induction false} AscendingIsUnique(a: seq<string>, b: seq<string>)
    requires Ascending(a) && Ascending(b) && forall k :: k in a <==> k in b
    ensures a == b
  {
    if a == [] {
      NoMembers(b);
    } else {
      assert a[0] in b && b != [] && b[0] in b;
      FirstIsLeast(a, b[0]);
      FirstIsLeast(b, a[0]);
      LessIsTotal(a[0], b[0]);
      forall k ensures k in a[1..] <==> k in b[1..] {
        if k == a[0] {
          LessIsTotal(k, k);
        }
        assert k in a <==> k == a[0] || k in a[1..];
        assert k in b <==> k == b[0] || k in b[1..];
      }
      AscendingIsUnique(a[1..], b[1..]);
    }
  }

  function KeysOf(sid: string, n: nat): seq<string> {
    seq(n, i requires 0 <= i < n => TurnKey(sid, i))
  }

  lemma KeysOfAscend(sid: string, n: nat)
    requires n <= LIMIT
    ensures Ascending(KeysOf(sid, n))
  {
    forall i, j | 0 <= i < j < n ensures Less(TurnKey(sid, i), TurnKey(sid, j)) {
      KeysSortByIndex(sid, i, j);
    }
  }

  lemma KeysInScan(t: Tables, sid: string, key: string)
    requires Sound(t)
    ensures key in t.turns && InScan(sid, key) <==> key in KeysOf(sid, |History(t, sid)|)
  {
    var n := |History(t, sid)|;
    assert n > 0 ==> MetaSound(t, sid);
    if key in t.turns && InScan(sid, key) {
      var i := StoredKeyInScan(t, sid, key);
      assert KeysOf(sid, n)[i] == key;
    }
    if key in KeysOf(sid, n) {
      var i :| 0 <= i < n && KeysOf(sid, n)[i] == key;
      OwnKeysInScan(sid, i);
    }
  }

  /** A scan for a session yields its own keys by turn index, and nothing of any other session. */
  lemma ScanIsHistory(t: Tables, sid: string, keys: seq<string>)
    requires Sound(t) && IsScan(t, sid, keys)
    ensures keys == KeysOf(sid, |History(t, sid)|) && |keys| == |History(t, sid)|
    ensures forall i :: 0 <= i < |keys| ==> keys[i] in t.turns && t.turns[keys[i]] == History(t, sid)[i]
  {
    var n := |History(t, sid)|;
    assert n > 0 ==> MetaSound(t, sid);
    KeysOfAscend(sid, n);
    assert keys == KeysOf(sid, n) by {
      hide TurnKey, InScan, KeysOf, Less, Sound, History;
      forall k ensures k in keys <==> k in KeysOf(sid, n) {
        KeysInScan(t, sid, k);
      }
      AscendingIsUnique(keys, KeysOf(sid, n));
    }
  }

  lemma NextKeyIsNew(t: Tables, sid: string, s: string, i: nat)
    requires Sound(t) && |History(t, sid)| < LIMIT && Announces(t, s, i)
    ensures i < LIMIT && TurnKey(s, i) != TurnKey(sid, |History(t, sid)|)
  {
    assert MetaSound(t, s);
    if TurnKey(s, i) == TurnKey(sid, |History(t, sid)|) {
      KeysAreDistinct(s, i, sid, |History(t, sid)|);
    }
  }

  lemma SaveKeepsSound(t: Tables, sid: string, turn: Turn)
    requires Sound(t) && NulFree(sid) && |History(t, sid)| < LIMIT
    ensures Sound(Save(t, sid, turn))
  {
    hide TurnKey, NulFree;
    var t' := Save(t, sid, turn);
    var n := |History(t, sid)|;
    assert sid in t.meta ==> MetaSound(t, sid);
    forall s | s in t'.meta ensures MetaSound(t', s) {
      assert s in t.meta ==> MetaSound(t, s);
    }
    forall k | k in t'.turns ensures Owned(t', k) {
      if k == TurnKey(sid, n) {
        assert Announces(t', sid, n);
      } else {
        assert Owned(t, k);
        var s, i :| Announces(t, s, i) && k == TurnKey(s, i);
        assert Announces(t', s, i);
      }
    }
  }

  lemma SaveKeepsTurn(t: Tables, sid: string, turn: Turn, s: string, i: nat)
    requires Sound(t) && |History(t, sid)| < LIMIT && Announces(t, s, i)
    ensures TurnKey(s, i) in t.turns && i < |History(t, s)|
    ensures TurnKey(s, i) in Save(t, sid, turn).turns
    ensures Save(t, sid, turn).turns[TurnKey(s, i)] == History(t, s)[i]
  {
    assert MetaSound(t, s);
    NextKeyIsNew(t, sid, s, i);
  }

  lemma SavedHistory(t: Tables, sid: string, turn: Turn, s: string)
    requires Sound(t) && Sound(Save(t, sid, turn)) && |History(t, sid)| < LIMIT
    ensures var before, after := History(t, s), History(Save(t, sid, turn), s);
            && |after| == |before| + (if s == sid then 1 else 0)
            && (s == sid ==> after[|before|] == turn)
            && forall i :: 0 <= i < |before| ==> after[i] == before[i]
  {
    forall i | 0 <= i < |History(t, s)| ensures History(Save(t, sid, turn), s)[i] == History(t, s)[i] {
      assert Announces(t, s, i);
      SaveKeepsTurn(t, sid, turn, s, i);
    }
  }

  lemma AppendOne<T>(before: seq<T>, after: seq<T>, x: T, grown: bool)
    requires |after| == |before| + (if grown then 1 else 0)
    requires (grown ==> after[|before|] == x) && forall i :: 0 <= i < |before| ==> after[i] == before[i]
    ensures after == if grown then before + [x] else before
  {
  }

  /** Saving appends one turn to the named session and changes no other. */
  lemma SaveAppends(t: Tables, sid: string, turn: Turn, s: string)
    requires Sound(t) && NulFree(sid) && |History(t, sid)| < LIMIT
    ensures Sound(Save(t, sid, turn))
    ensures History(Save(t, sid, turn), s) == if s == sid then History(t, s) + [turn] else History(t, s)
    ensures Save(t, sid, turn).meta.Keys == t.meta.Keys + {sid}
  {
    SaveKeepsSound(t, sid, turn);
    SavedHistory(t, sid, turn, s);
    AppendOne(History(t, s), History(Save(t, sid, turn), s), turn, s == sid);
  }

  lemma ClearTouchesOnlyNamed(t: Tables, ids: set<string>, s: string, i: nat)
    requires Sound(t) && Announces(t, s, i)
    ensures TurnKey(s, i) in t.turns && (Scanned(ids, TurnKey(s, i)) <==> s in ids)
  {
    assert MetaSound(t, s);
    if Scanned(ids, TurnKey(s, i)) {
      var sid :| sid in ids && InScan(sid, TurnKey(s, i));
      var j := StoredKeyInScan(t, sid, TurnKey(s, i));
      KeysAreDistinct(s, i, sid, j);
    }
    OwnKeysInScan(s, i);
  }

  /** Clearing removes exactly the named sessions. */
  lemma ClearRemoves(t: Tables, ids: set<string>)
    requires Sound(t)
    ensures Sound(Clear(t, ids))
    ensures forall s :: History(Clear(t, ids), s) == if s in ids then [] else History(t, s)
  {
    hide TurnKey, InScan, Scanned, NulFree;
    var t' := Clear(t, ids);
    forall s | s in t'.meta ensures MetaSound(t', s) {
      assert MetaSound(t, s);
      forall i | 0 <= i < t.meta[s].turnCount ensures TurnKey(s, i) in t'.turns {
        assert Announces(t, s, i);
        ClearTouchesOnlyNamed(t, ids, s, i);
      }
    }
    forall k | k in t'.turns ensures Owned(t', k) {
      assert Owned(t, k);
      var s, i :| Announces(t, s, i) && k == TurnKey(s, i);
      ClearTouchesOnlyNamed(t, ids, s, i);
      assert Announces(t', s, i);
    }
    forall s ensures History(t', s) == if s in ids then [] else History(t, s) {
      if s in t.meta && s !in ids {
        assert MetaSound(t, s) && MetaSound(t', s);
      }
    }
  }

  lemma ClearTwice(t: Tables, a: set<string>, b: set<string>)
    ensures Clear(Clear(t, a), b) == Clear(t, a + b)
  {
    assert forall k :: Scanned(a + b, k) <==> Scanned(a, k) || Scanned(b, k);
    assert Clear(Clear(t, a), b).turns == Clear(t, a + b).turns;
  }

  lemma ClearNothing(t: Tables, none: set<string>)
    requires none == {}
    ensures Clear(t, none) == t
  {
    assert Clear(t, none).turns == t.turns;
  }

  lemma NothingCleared(t: Tables, ids: seq<string>)
    ensures t == Clear(t, Elems(ids[..0]))
  {
    ClearNothing(t, Elems(ids[..0]));
  }

  lemma ClearedOneMore(t: Tables, ids: seq<string>, i: nat)
    requires i < |ids|
    ensures Clear(Clear(t, Elems(ids[..i])), {ids[i]}) == Clear(t, Elems(ids[..i + 1]))
  {
    hide Clear;
    ClearTwice(t, Elems(ids[..i]), {ids[i]});
    assert ids[..i + 1] == ids[..i] + [ids[i]];
    assert Elems(ids[..i + 1]) == Elems(ids[..i]) + {ids[i]};
  }

  /** Pruning a sound store keeps exactly the sessions updated after the cutoff, with their metadata and turns. */
  lemma PruneKeepsFresh(t: Tables, cutoff: int)
    requires Sound(t)
    ensures var t' := Clear(t, Stale(t, cutoff));
            && Sound(t')
            && t'.meta == (map s | s in t.meta && t.meta[s].updatedAt > cutoff :: t.meta[s])
            && forall s :: History(t', s) == if s in t'.meta then History(t, s) else []
  {
    ClearRemoves(t, Stale(t, cutoff));
    assert forall s :: s in t.meta ==> MetaSound(t, s);
    assert Stale(t, cutoff) == set s | s in t.meta && t.meta[s].updatedAt <= cutoff;
  }

  function Insert(keys: seq<string>, k: string): (r: seq<string>)
    ensures forall x :: x in r <==> x == k || x in keys
  {
    if keys == [] || Less(k, keys[0]) then [k] + keys
    else
      assert keys == [keys[0]] + keys[1..];
      [keys[0]] + Insert(keys[1..], k)
  }

  lemma {:induction false} LessIsTransitive(a: string, b: string, c: string)
    requires Less(a, b) && Less(b, c)
    ensures Less(a, c)
  {
    if a != "" && a[0] == b[0] == c[0] {
      LessIsTransitive(a[1..], b[1..], c[1..]);
    }
  }

  lemma {:induction false} InsertKeepsOrder(keys: seq<string>, k: string)
    requires Ascending(keys) && k !in keys
    ensures Ascending(Insert(keys, k))
  {
    if keys != [] {
      if Less(k, keys[0]) {
        forall j | 0 < j < |keys| ensures Less(k, keys[j]) {
          LessIsTransitive(k, keys[0], keys[j]);
        }
      } else {
        LessIsTotal(k, keys[0]);
        InsertKeepsOrder(keys[1..], k);
        var rest := Insert(keys[1..], k);
        forall x | x in rest ensures Less(keys[0], x) {
          if x != k {
            var j :| 0 <= j < |keys[1..]| && keys[1..][j] == x;
          }
        }
      }
    }
  }

  /** The store: two tables, each call one transaction. */
  class Store {
    var turns: map<string, Turn>
    var meta: map<string, Meta>

    ghost function View(): Tables
      reads this
    {
      Tables(turns, meta)
    }

    constructor ()
      ensures View() == Tables(map[], map[]) && Sound(View())
    {
      turns, meta := map[], map[];
    }

    /** Appends a turn: the session's history grows by it, all others stay. */
    method SaveTurn(sid: string, role: string, content: string, now: int)
      modifies this
      ensures View() == Save(old(View()), sid, Turn(role, content, now))
      ensures old(Sound(View())) && NulFree(sid) && |History(old(View()), sid)| < LIMIT ==>
                && Sound(View())
                && History(View(), sid) == History(old(View()), sid) + [Turn(role, content, now)]
                && forall s :: s != sid ==> History(View(), s) == History(old(View()), s)
    {
      var m := if sid in meta then meta[sid] else Meta(sid, now, now, 0, "");
      var turn := Turn(role, content, now);
      turns := turns[TurnKey(sid, m.turnCount) := turn];
      m := m.(turnCount := m.turnCount + 1, updatedAt := now);
      if m.title == "" && role == "user" {
        m := m.(title := if |content| <= TITLE_CHARS then content else content[..TITLE_CHARS]);
      }
      meta := meta[sid := m];
      ghost var t := old(View());
      assert View() == Save(t, sid, turn);
      if Sound(t) && NulFree(sid) && |History(t, sid)| < LIMIT {
        forall s ensures Sound(View())
            && History(View(), s) == if s == sid then History(t, s) + [turn] else History(t, s)
        {
          SaveAppends(t, sid, turn, s);
        }
      }
    }

    /** A range scan over the turn table. */
    method Scan(sid: string) returns (keys: seq<string>)
      ensures IsScan(View(), sid, keys)
    {
      keys := [];
      var rest := set k | k in turns && InScan(sid, k);
      ghost var all := rest;
      while rest != {}
        invariant rest <= all && Ascending(keys)
        invariant forall k :: k in keys <==> k in all - rest
      {
        var k :| k in rest;
        InsertKeepsOrder(keys, k);
        keys, rest := Insert(keys, k), rest - {k};
      }
    }

    /** The last `maxTurns` turns of the session, oldest first. */
    method LoadSession(sid: string, maxTurns: nat) returns (r: seq<Turn>)
      ensures Sound(View()) ==> IsNewest(r, History(View(), sid), maxTurns)
    {
      hide Sound, History, IsNewest, InScan, KeysOf;
      var keys := Scan(sid);
      r := [];
      for i := 0 to |keys|
        invariant |r| == i && forall j :: 0 <= j < i ==> r[j] == turns[keys[j]]
      {
        r := r + [turns[keys[i]]];
      }
      if Sound(View()) {
        ScanIsHistory(View(), sid, keys);
        assert r == History(View(), sid);
      }
      EndIsNewest(r, maxTurns);
      if |r| > maxTurns {
        r := r[|r| - maxTurns..];
      }
    }

    /** Removes the named session's rows from both tables. */
    method ClearSession(sid: string)
      modifies this
      ensures View() == Clear(old(View()), {sid})
      ensures old(Sound(View())) ==>
                && Sound(View()) && History(View(), sid) == [] && meta == old(meta) - {sid}
                && forall s :: s != sid ==> History(View(), s) == History(old(View()), s)
    {
      var keys := Scan(sid);
      for i := 0 to |keys|
        invariant meta == old(meta)
        invariant turns == map k | k in old(turns) && k !in keys[..i] :: old(turns)[k]
      {
        assert keys[..i + 1] == keys[..i] + [keys[i]];
        turns := turns - {keys[i]};
      }
      assert keys[..|keys|] == keys;
      meta := meta - {sid};
      ghost var t := old(View());
      assert forall k :: Scanned({sid}, k) <==> InScan(sid, k);
      assert View() == Clear(t, {sid});
      if Sound(t) {
        ClearRemoves(t, {sid});
      }
    }

    /** The ids in the metadata rows last updated at `cutoff` or before, in no particular order. */
    method StaleSessions(cutoff: int) returns (ids: seq<string>)
      ensures Elems(ids) == Stale(View(), cutoff)
      ensures |ids| == |set s | s in meta && meta[s].updatedAt <= cutoff|
    {
      ids := [];
      var rest := meta.Keys;
      ghost var stale := {};
      while rest != {}
        invariant rest <= meta.Keys
        invariant forall s :: s in stale <==> s in meta && s !in rest && meta[s].updatedAt <= cutoff
        invariant |ids| == |stale|
        invariant Elems(ids) == set s | s in stale :: meta[s].sessionId
      {
        var s :| s in rest;
        rest := rest - {s};
        if meta[s].updatedAt <= cutoff {
          assert Elems(ids + [meta[s].sessionId]) == Elems(ids) + {meta[s].sessionId};
          ids, stale := ids + [meta[s].sessionId], stale + {s};
        }
      }
      assert stale == set s | s in meta && meta[s].updatedAt <= cutoff;
    }

    /** Clears every session last updated `maxAge` seconds ago or earlier, and returns how many, as 32 bits hold. */
    method PruneOld(maxAge: int, now: int) returns (count: nat)
      modifies this
      ensures View() == Clear(old(View()), Stale(old(View()), now - maxAge))
      ensures count == |set s | s in old(meta) && old(meta)[s].updatedAt <= now - maxAge| % 0x1_0000_0000
      ensures old(Sound(View())) ==>
                && Sound(View())
                && meta == (map s | s in old(meta) && old(meta)[s].updatedAt > now - maxAge :: old(meta)[s])
                && forall s :: History(View(), s) == if s in meta then History(old(View()), s) else []
    {
      hide Clear, Sound, Stale, History, Elems;
      ghost var t := View();
      var ids := StaleSessions(now - maxAge);
      count := |ids| % 0x1_0000_0000;
      NothingCleared(t, ids);
      for i := 0 to |ids|
        invariant View() == Clear(t, Elems(ids[..i]))
      {
        ClearSession(ids[i]);
        ClearedOneMore(t, ids, i);
      }
      assert ids[..|ids|] == ids;
      if Sound(t) {
        PruneKeepsFresh(t, now - maxAge);
      }
    }
  }
}
