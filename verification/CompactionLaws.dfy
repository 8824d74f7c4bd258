/** What pruning keeps of a conversation, and when it succeeds in making it fit. */
module CompactionLaws {
  import opened Common
  import opened Text
  import opened Compaction

  // ---- truncation ----

  lemma {:induction false} DecimalIsShort(n: nat)
    ensures n < 10 ==> |Decimal(n)| == 1
    ensures 10 <= n < 100 ==> |Decimal(n)| == 2
    ensures n >= 32 ==> |Decimal(n)| + 30 <= n
  {
    if n >= 10 {
      DecimalIsShort(n / 10);
    }
  }

  /** A long text is cut at the last line break within the limit; without one at the last space; without that at the
      limit. What stays is what stood before the cut. */
  lemma CutsAtABreak(content: string, max: nat)
    requires |content| > max
    ensures var i := BreakAt(content, max);
            && content[..i] <= Truncate(content, max)
            && (forall k :: i < k < max ==> content[k] != '\n')
            && (i == max || content[i] == '\n' || (content[i] == ' ' && '\n' !in content[..max]))
            && (i == max ==> '\n' !in content[..max] && ' ' !in content[..max])
            && ('\n' !in content[..max] ==> forall k :: i < k < max ==> content[k] != ' ')
  {
    var s := content[..max];
    assert forall k :: 0 <= k < max ==> s[k] == content[k];
    hide Decimal;
  }

  predicate Shrinks(content: string, max: nat) {
    |content| > max ==> |content| - BreakAt(content, max) >= 32
  }

  /** Cutting a text makes it no longer exactly when at least 32 characters go: the note that replaces them has
      thirty, and their number. When it does grow, it is by at most thirty. */
  lemma TruncationShrinksIff(content: string, max: nat)
    ensures |Truncate(content, max)| <= |content| <==> Shrinks(content, max)
    ensures |Truncate(content, max)| <= |content| + 30
  {
    if |content| > max {
      var omitted := |content| - BreakAt(content, max);
      DecimalIsShort(omitted);
      assert |Truncate(content, max)| == |content| - omitted + 30 + |Decimal(omitted)|;
      hide Decimal, BreakAt;
    }
  }

  /** All long tool results of a stretch get shorter. */
  ghost predicate NoneGrows(s: seq<Message>) {
    forall i :: 0 <= i < |s| && IsLongResult(s[i]) ==> Shrinks(s[i].content, TOOL_RESULT_TRUNCATE_CHARS)
  }

  // ---- sizes ----

  lemma {:induction false} CharSizeOfConcat(a: seq<Message>, b: seq<Message>)
    ensures CharSize(a + b) == CharSize(a) + CharSize(b)
  {
    if b == [] {
      assert a + b == a;
    } else {
      CharSizeOfConcat(a, b[..|b| - 1]);
      assert (a + b)[..|a + b| - 1] == a + b[..|b| - 1];
    }
  }

  lemma {:induction false} FilterSplitsSize(s: seq<Message>, kind: Kind)
    ensures CharSize(Without(s, kind)) + CharSize(OnlyOf(s, kind)) == CharSize(s)
  {
    hide IsOf, Weight;
    if s != [] {
      var front, x := s[..|s| - 1], s[|s| - 1];
      FilterSplitsSize(front, kind);
      WeightOfOneMore(Without(front, kind), x);
      WeightOfOneMore(OnlyOf(front, kind), x);
      assert Without(front, kind) + [] == Without(front, kind) && OnlyOf(front, kind) + [] == OnlyOf(front, kind);
    }
  }

  lemma TrimmedWeight(m: Message)
    ensures IsLongResult(m) ==> Weight(Trimmed(m)) <= Weight(m) + 30
    ensures IsLongResult(m) ==> (Weight(Trimmed(m)) <= Weight(m) <==> Shrinks(m.content, TOOL_RESULT_TRUNCATE_CHARS))
    ensures !IsLongResult(m) ==> Trimmed(m) == m
  {
    TruncationShrinksIff(m.content, TOOL_RESULT_TRUNCATE_CHARS);
  }

  lemma NoneGrowsStep(front: seq<Message>, x: Message)
    ensures NoneGrows(front + [x]) <==>
            NoneGrows(front) && (IsLongResult(x) ==> Shrinks(x.content, TOOL_RESULT_TRUNCATE_CHARS))
  {
    var s := front + [x];
    assert s[|front|] == x && forall i :: 0 <= i < |front| ==> s[i] == front[i];
    hide IsLongResult, Shrinks;
  }

  function SizeAfter(before: nat, x: Message): nat {
    if IsLongResult(x) then SaturatingSub(before, WordSub(|x.content|, |Trimmed(x).content|)) else before
  }

  lemma SizeStep(before: nat, x: Message)
    requires Weight(x) <= before <= WORD - 30
    ensures if IsLongResult(x) ==> Shrinks(x.content, TOOL_RESULT_TRUNCATE_CHARS)
            then SizeAfter(before, x) == before - Weight(x) + Weight(Trimmed(x)) <= before
            else SizeAfter(before, x) == 0
  {
    TrimmedWeight(x);
    hide IsLongResult, Shrinks, Trimmed;
  }

  lemma TrimUnfolds(size: nat, front: seq<Message>, x: Message)
    ensures CharSize(front + [x]) == CharSize(front) + Weight(x)
    ensures TrimSize(size, front + [x]) == SizeAfter(TrimSize(size, front), x)
    ensures CharSize(TrimAll(front + [x])) == CharSize(TrimAll(front)) + Weight(Trimmed(x))
  {
    var s := front + [x];
    assert s[..|s| - 1] == front;
    assert TrimAll(s) == TrimAll(front) + [Trimmed(x)];
    WeightOfOneMore(TrimAll(front), Trimmed(x));
    hide Trimmed, IsLongResult;
  }

  /** The size kept during the first pass is the true one exactly when no tool result grows; otherwise the unsigned
      subtraction wraps and leaves zero. */
  lemma {:induction false} TrimSizeExactIff(s: seq<Message>, rest: nat)
    requires CharSize(s) + rest <= WORD - 30
    ensures NoneGrows(s) ==> TrimSize(CharSize(s) + rest, s) == CharSize(TrimAll(s)) + rest <= CharSize(s) + rest
    ensures !NoneGrows(s) ==> TrimSize(CharSize(s) + rest, s) == 0 && CharSize(TrimAll(s)) > 0
    decreases |s|, 0
  {
    if s == [] {
      assert TrimAll(s) == [];
    } else {
      var front, x := s[..|s| - 1], s[|s| - 1];
      assert s == front + [x];
      TrimStepExactIff(front, x, rest);
    }
    hide IsLongResult, Shrinks, Trimmed;
  }

  lemma {:induction false} TrimStepExactIff(front: seq<Message>, x: Message, rest: nat)
    requires CharSize(front + [x]) + rest <= WORD - 30
    ensures var s := front + [x];
            if NoneGrows(s) then TrimSize(CharSize(s) + rest, s) == CharSize(TrimAll(s)) + rest <= CharSize(s) + rest
            else TrimSize(CharSize(s) + rest, s) == 0 && CharSize(TrimAll(s)) > 0
    decreases |front|, 1
  {
    hide CharSize, TrimAll, TrimSize, NoneGrows, IsLongResult, Shrinks, Trimmed, SizeAfter;
    var size := CharSize(front + [x]) + rest;
    TrimUnfolds(size, front, x);
    NoneGrowsStep(front, x);
    TrimSizeExactIff(front, rest + Weight(x));
    if NoneGrows(front) {
      SizeStep(TrimSize(size, front), x);
    } else {
      NoSizeLeft(x);
    }
  }

  lemma NoSizeLeft(x: Message)
    ensures SizeAfter(0, x) == 0
  {
  }

  lemma CharSizeOfThree(a: seq<Message>, b: seq<Message>, c: seq<Message>)
    ensures CharSize(a + b + c) == CharSize(a) + CharSize(b) + CharSize(c)
  {
    CharSizeOfConcat(a + b, c);
    CharSizeOfConcat(a, b);
  }

  ghost predicate Exact(d: Draft) {
    d.size == CharSize(d.messages)
  }

  /** Removing one message from an exact draft subtracts no more than there is, and leaves it exact. */
  lemma RemovalStaysExact(d: Draft, i: nat)
    requires Exact(d) && i < |d.messages|
    ensures Weight(d.messages[i]) <= d.size && Exact(RemoveAt(d, i))
  {
    var m := d.messages;
    assert m == m[..i] + [m[i]] + m[i + 1..];
    CharSizeOfThree(m[..i], [m[i]], m[i + 1..]);
    CharSizeOfConcat(m[..i], m[i + 1..]);
    assert [m[i]][..0] == [];
  }

  /** The size is the true one before and after each single removal, and no subtraction saturates. */
  ghost predicate ExactThroughout(d: Draft, ps: seq<nat>)
    requires Ascending(ps, |d.messages|)
    decreases |ps|
  {
    && Exact(d)
    && (ps != [] ==>
          var i := ps[|ps| - 1];
          Weight(d.messages[i]) <= d.size && ExactThroughout(RemoveAt(d, i), ps[..|ps| - 1]))
  }

  /** Removing messages back to front, the size stays exact through every removal. */
  lemma {:induction false} RemovalsStayExact(d: Draft, ps: seq<nat>)
    requires Exact(d) && Ascending(ps, |d.messages|)
    ensures ExactThroughout(d, ps)
    decreases |ps|
  {
    hide Exact, RemoveAt, Weight;
    if ps != [] {
      RemovalStaysExact(d, ps[|ps| - 1]);
      RemovalShortens(d, ps[|ps| - 1]);
      RemovalsStayExact(RemoveAt(d, ps[|ps| - 1]), ps[..|ps| - 1]);
    }
  }

  lemma RemovalShortens(d: Draft, i: nat)
    requires i < |d.messages|
    ensures |RemoveAt(d, i).messages| == |d.messages| - 1
  {
  }

  lemma DropStaysExact(d: Draft, kind: Kind, b: nat)
    requires Exact(d) && 1 <= b <= |d.messages|
    ensures Exact(DropPass(d, kind, b)) && DropPass(d, kind, b).size <= d.size
  {
    var m := d.messages;
    FilterSplitsSize(m[1..b], kind);
    assert m == m[..1] + m[1..b] + m[b..];
    CharSizeOfThree(m[..1], m[1..b], m[b..]);
    CharSizeOfThree(m[..1], Without(m[1..b], kind), m[b..]);
    hide CharSize, Without, OnlyOf;
  }

  lemma TrimOfParts(m: seq<Message>, b: nat, size: nat)
    requires 1 <= b <= |m|
    ensures m == m[..1] + m[1..b] + m[b..]
    ensures TrimPass(Draft(m, size), b) == Draft(m[..1] + TrimAll(m[1..b]) + m[b..], TrimSize(size, m[1..b]))
  {
    hide TrimAll, TrimSize;
  }

  lemma TrimExactIff(m: seq<Message>, b: nat)
    requires 1 <= b <= |m| && CharSize(m) <= WORD - 30
    ensures NoneGrows(m[1..b]) <==> Exact(TrimPass(Draft(m, CharSize(m)), b))
    ensures !NoneGrows(m[1..b]) ==> TrimPass(Draft(m, CharSize(m)), b).size == 0
  {
    hide CharSize, TrimAll, TrimSize, NoneGrows, TrimPass;
    var a, s, c := m[..1], m[1..b], m[b..];
    TrimOfParts(m, b, CharSize(m));
    CharSizeOfThree(a, s, c);
    CharSizeOfThree(a, TrimAll(s), c);
    TrimSizeExactIff(s, CharSize(a) + CharSize(c));
    assert CharSize(s) + (CharSize(a) + CharSize(c)) == CharSize(m);
  }

  // ---- the boundary ----

  lemma {:induction false} QuestionsOfConcat(a: seq<Message>, b: seq<Message>)
    ensures Questions(a + b) == Questions(a) + Questions(b)
  {
    if a == [] {
      assert a + b == b;
    } else {
      QuestionsOfConcat(a[1..], b);
      assert (a + b)[1..] == a[1..] + b;
    }
  }

  lemma QuestionsFall(m: seq<Message>, i: nat, j: nat)
    requires i <= j <= |m|
    ensures Questions(m[i..]) == Questions(m[i..j]) + Questions(m[j..])
  {
    assert m[i..] == m[i..j] + m[j..];
    QuestionsOfConcat(m[i..j], m[j..]);
  }

  /** Position k starts the last four questions. */
  predicate StartsRecent(m: seq<Message>, k: nat) {
    1 <= k < |m| && IsQuestion(m[k]) && Questions(m[k..]) == 4
  }

  lemma {:induction false} ScanBackFinds(m: seq<Message>, i: nat)
    requires i < |m| && Questions(m[i + 1..]) < 4
    ensures if Questions(m[1..]) >= 4 then StartsRecent(m, ScanBack(m, i)) else ScanBack(m, i) == |m|
  {
    if i > 0 {
      assert m[i..][0] == m[i] && m[i..][1..] == m[i + 1..];
      QuestionsFall(m, 1, i);
      if !(IsQuestion(m[i]) && Questions(m[i..]) >= 4) {
        ScanBackFinds(m, i - 1);
      }
    }
  }

  lemma NoRecentBefore(m: seq<Message>, a: nat, b: nat)
    requires StartsRecent(m, b) && a < b && IsQuestion(m[a])
    ensures Questions(m[a..]) > 4
  {
    hide IsQuestion;
    assert m[a..][0] == m[a] && m[a..][1..] == m[a + 1..];
    QuestionsFall(m, a + 1, b);
  }

  lemma RecentIsUnique(m: seq<Message>, j: nat, k: nat)
    requires StartsRecent(m, j) && StartsRecent(m, k)
    ensures j == k
  {
    hide IsQuestion, Questions;
    if j < k {
      NoRecentBefore(m, j, k);
    } else if k < j {
      NoRecentBefore(m, k, j);
    }
  }

  lemma {:induction false} FourNeedRoom(m: seq<Message>)
    ensures Questions(m) <= |m|
  {
    if m != [] {
      FourNeedRoom(m[1..]);
    }
  }

  /** With four questions after the first message the protected tail starts at the fourth-last of them; with fewer
      it is the last message alone. */
  lemma BoundaryMeans(m: seq<Message>)
    requires m != []
    ensures Questions(m[1..]) >= 4 ==> forall k :: StartsRecent(m, k) <==> k == Boundary(m)
    ensures Questions(m[1..]) < 4 ==> Boundary(m) == Max(|m| - 1, 1)
  {
    ScanBackFinds(m, |m| - 1);
    if Questions(m[1..]) >= 4 {
      var r := ScanBack(m, |m| - 1);
      FourNeedRoom(m[r..]);
      forall k | StartsRecent(m, k) ensures k == r {
        RecentIsUnique(m, k, r);
      }
    }
  }

  function Tail(m: seq<Message>): nat
    requires m != []
  {
    |m| - Boundary(m)
  }

  /** Removing or changing messages between the first and the protected tail never shrinks the tail; it leaves it as
      it is when there were four questions, or when no new question appears. */
  lemma TailIsStable(m: seq<Message>, m': seq<Message>)
    requires m != [] && |m'| <= |m| && |m'| >= 1 + Tail(m)
    requires m'[|m'| - Tail(m)..] == m[Boundary(m)..]
    ensures Tail(m') >= Tail(m)
    ensures Questions(m[1..]) >= 4 || Questions(m'[1..]) <= Questions(m[1..]) ==> Tail(m') == Tail(m)
    ensures Questions(m[1..]) >= 4 ==> Questions(m'[1..]) >= 4
  {
    BoundaryMeans(m);
    BoundaryMeans(m');
    var k := |m'| - Tail(m);
    QuestionsFall(m', 1, k);
    if Questions(m[1..]) >= 4 {
      assert StartsRecent(m, Boundary(m));
      assert m'[k] == m'[k..][0] == m[Boundary(m)..][0];
      assert StartsRecent(m', k);
    } else if Questions(m'[1..]) >= 4 {
      assert StartsRecent(m', Boundary(m'));
      FourNeedRoom(m'[Boundary(m')..]);
    }
  }

  // ---- what stays ----

  /** `a` is what may be left of `b`: messages other than system messages may be missing, tool results may be cut. */
  predicate LeftOf(a: seq<Message>, b: seq<Message>)
    decreases |b|
  {
    if b == [] then a == []
    else
      var front, x := b[..|b| - 1], b[|b| - 1];
      || (x.role != System && LeftOf(a, front))
      || (a != [] && a[|a| - 1] in {x, Trimmed(x)} && LeftOf(a[..|a| - 1], front))
  }

  lemma {:induction false} TrimLeaves(s: seq<Message>)
    ensures LeftOf(TrimAll(s), s)
  {
    if s != [] {
      TrimLeaves(s[..|s| - 1]);
      assert TrimAll(s)[..|s| - 1] == TrimAll(s[..|s| - 1]);
    }
  }

  lemma {:induction false} AllIsLeft(s: seq<Message>)
    ensures LeftOf(s, s)
  {
    if s != [] {
      AllIsLeft(s[..|s| - 1]);
    }
  }

  lemma RoleStays(x: Message)
    ensures Trimmed(x).role == x.role
  {
  }

  lemma {:induction false} DropLeaves(a: seq<Message>, c: seq<Message>, b: seq<Message>, kind: Kind)
    requires LeftOf(a + c, b)
    ensures LeftOf(Without(a, kind) + c, b)
    decreases |b|, 1
  {
    hide IsOf, Trimmed;
    var s := a + c;
    if b == [] {
      assert s == [] ==> a == [] && c == [];
    } else if b[|b| - 1].role != System && LeftOf(s, b[..|b| - 1]) {
      DropLeaves(a, c, b[..|b| - 1], kind);
    } else if c != [] {
      var front := c[..|c| - 1];
      assert s[..|s| - 1] == a + front && s[|s| - 1] == c[|c| - 1];
      DropLeaves(a, front, b[..|b| - 1], kind);
      var r := Without(a, kind) + c;
      assert r[..|r| - 1] == Without(a, kind) + front && r[|r| - 1] == c[|c| - 1];
    } else {
      assert a + c == a && Without(a, kind) + c == Without(a, kind);
      DropLeavesLast(a, b, kind);
    }
  }

  lemma {:induction false} DropLeavesLast(a: seq<Message>, b: seq<Message>, kind: Kind)
    requires b != [] && a + [] == a && LeftOf(a, b) && !(b[|b| - 1].role != System && LeftOf(a, b[..|b| - 1]))
    ensures LeftOf(Without(a, kind), b)
    decreases |b|, 0
  {
    var front, x := b[..|b| - 1], b[|b| - 1];
    var y, before := a[|a| - 1], a[..|a| - 1];
    RoleStays(x);
    assert before + [] == before;
    DropLeaves(before, [], front, kind);
    assert Without(before, kind) + [] == Without(before, kind);
    var r := Without(a, kind);
    if !IsOf(y, kind) {
      assert r == Without(before, kind) + [y] && r[..|r| - 1] == Without(before, kind);
    } else {
      assert r == Without(before, kind);
      assert y.role != System;
    }
  }

  /** The first message and the protected tail are untouched, and between them something is left of what was there. */
  ghost predicate Keeps(m: seq<Message>, m': seq<Message>)
    requires m != []
  {
    && 1 + Tail(m) <= |m'| <= |m|
    && m'[0] == m[0]
    && m'[|m'| - Tail(m)..] == m[Boundary(m)..]
    && LeftOf(m'[1..|m'| - Tail(m)], m[1..Boundary(m)])
  }

  lemma TrimKeeps(m: seq<Message>)
    requires m != []
    ensures Keeps(m, TrimPass(Draft(m, CharSize(m)), Boundary(m)).messages)
  {
    hide LeftOf, TrimAll, Boundary, TrimSize, CharSize;
    var b := Boundary(m);
    TrimLeaves(m[1..b]);
    SameStretch(m, TrimAll(m[1..b]), b);
  }

  lemma SameStretch(m: seq<Message>, mid: seq<Message>, b: nat)
    requires 1 <= b <= |m| && |mid| == b - 1
    ensures var r := m[..1] + mid + m[b..];
            |r| == |m| && r[0] == m[0] && r[1..b] == mid && r[b..] == m[b..]
  {
  }

  lemma {:induction false} WithoutIsShorter(s: seq<Message>, kind: Kind)
    ensures |Without(s, kind)| <= |s|
  {
    if s != [] {
      WithoutIsShorter(s[..|s| - 1], kind);
    }
  }

  /** Replacing the stretch from 1 to b leaves what lies behind it where it was, seen from the end. */
  lemma Splice(s: seq<Message>, kept: seq<Message>, b: nat, k: nat)
    requires 1 <= b <= k <= |s| && |kept| < b
    ensures var s' := s[..1] + kept + s[b..];
            var k' := |s'| - (|s| - k);
            && s[1..k] == s[1..b] + s[b..k]
            && s'[1..k'] == kept + s[b..k] && s'[k'..] == s[k..] && s'[0] == s[0]
  {
    assert s[b..] == s[b..k] + s[k..];
  }

  lemma DropKeeps(m: seq<Message>, d: Draft, kind: Kind, b: nat)
    requires m != [] && Keeps(m, d.messages) && 1 <= b <= |d.messages| - Tail(m)
    ensures Keeps(m, DropPass(d, kind, b).messages)
  {
    hide LeftOf, Without, OnlyOf, CharSize, Boundary;
    var s := d.messages;
    var k := |s| - Tail(m);
    var kept := Without(s[1..b], kind);
    WithoutIsShorter(s[1..b], kind);
    Splice(s, kept, b, k);
    DropLeaves(s[1..b], s[b..k], m[1..Boundary(m)], kind);
  }

  ghost predicate LeftBy(m: seq<Message>, r: seq<Message>)
    requires m != []
  {
    r != [] && r[0] in {m[0], Shorten(m[0])} && Keeps(m, [m[0]] + r[1..])
  }

  lemma KeptIsLeft(m: seq<Message>, r: seq<Message>)
    requires m != [] && Keeps(m, r)
    ensures r != [] && LeftBy(m, r) && LeftBy(m, [Shorten(r[0])] + r[1..])
  {
    assert [m[0]] + r[1..] == r;
    assert ([Shorten(r[0])] + r[1..])[1..] == r[1..];
    hide LeftOf, Boundary, Shorten;
  }

  lemma LastPassLeaves(m: seq<Message>, d: Draft, max: nat)
    requires m != [] && Keeps(m, d.messages)
    ensures LeftBy(m, AfterReplies(d, max))
  {
    hide Keeps, LeftBy, DropPass, Boundary, Shorten;
    KeptIsLeft(m, d.messages);
    BoundaryBeforeTail(m, d.messages);
    DropKeeps(m, d, FromUser, Boundary(d.messages));
    KeptIsLeft(m, DropPass(d, FromUser, Boundary(d.messages)).messages);
  }

  lemma LastTwoPassesLeave(m: seq<Message>, d: Draft, max: nat)
    requires m != [] && Keeps(m, d.messages)
    ensures LeftBy(m, AfterTools(d, max))
  {
    hide Keeps, LeftBy, DropPass, Boundary, AfterReplies;
    KeptIsLeft(m, d.messages);
    BoundaryBeforeTail(m, d.messages);
    DropKeeps(m, d, FromAssistant, Boundary(d.messages));
    LastPassLeaves(m, DropPass(d, FromAssistant, Boundary(d.messages)), max);
  }

  lemma AllIsKept(m: seq<Message>)
    requires m != []
    ensures Keeps(m, m)
  {
    AllIsLeft(m[1..Boundary(m)]);
    hide LeftOf, Boundary;
  }

  /** For every conversation and limit: pruning leaves the first message (a long system prompt may be cut) and the
      protected tail; between them system messages stay, and all that happens to others is that tool results are cut
      and messages dropped. Nothing is reordered or added. */
  lemma PruningKeeps(m: seq<Message>, max: nat)
    requires m != []
    ensures LeftBy(m, Pruned(m, max))
  {
    hide Keeps, LeftBy, TrimPass, DropPass, Boundary, CharSize, AfterTools;
    AllIsKept(m);
    KeptIsLeft(m, m);
    TrimKeeps(m);
    var trimmed := TrimPass(Draft(m, CharSize(m)), Boundary(m));
    KeptIsLeft(m, trimmed.messages);
    TrimKeepsLength(m);
    DropKeeps(m, trimmed, ToolResults, Boundary(m));
    LastTwoPassesLeave(m, DropPass(trimmed, ToolResults, Boundary(m)), max);
  }

  lemma TrimKeepsLength(m: seq<Message>)
    requires m != []
    ensures |TrimPass(Draft(m, CharSize(m)), Boundary(m)).messages| == |m| == Boundary(m) + Tail(m)
  {
  }

  lemma BoundaryBeforeTail(m: seq<Message>, m': seq<Message>)
    requires m != [] && Keeps(m, m')
    ensures 1 <= Boundary(m') <= |m'| - Tail(m)
  {
    TailIsStable(m, m');
  }

  // ---- when it fits ----

  lemma {:induction false} WithoutMeans(s: seq<Message>, kind: Kind)
    ensures forall x :: x in Without(s, kind) <==> x in s && !IsOf(x, kind)
  {
    if s != [] {
      WithoutMeans(s[..|s| - 1], kind);
      assert s == s[..|s| - 1] + [s[|s| - 1]];
    }
  }

  lemma {:induction false} NoNewQuestions(s: seq<Message>, kind: Kind)
    ensures Questions(Without(s, kind)) <= Questions(s)
  {
    if s != [] {
      var front, x := s[..|s| - 1], s[|s| - 1];
      NoNewQuestions(front, kind);
      assert s == front + [x];
      QuestionsOfConcat(front, [x]);
      QuestionsOfConcat(Without(front, kind), if IsOf(x, kind) then [] else [x]);
    }
  }

  /** Replacing the stretch from 1 to b by what is kept of it. */
  lemma KeptStretch(s: seq<Message>, kept: seq<Message>, b: nat)
    requires 1 <= b <= |s|
    ensures var r := s[..1] + kept + s[b..];
            && r[1..] == kept + s[b..] && s[1..] == s[1..b] + s[b..]
            && r[|r| - (|s| - b)..] == s[b..] && r[1..|r| - (|s| - b)] == kept
  {
  }

  /** A pass that drops up to the boundary leaves the tail where it is, and nothing of its kind before it. */
  lemma DropClears(d: Draft, kind: Kind)
    requires d.messages != []
    ensures var d' := DropPass(d, kind, Boundary(d.messages));
            && Tail(d'.messages) == Tail(d.messages)
            && d'.messages[1..Boundary(d'.messages)] == Without(d.messages[1..Boundary(d.messages)], kind)
  {
    hide Without, OnlyOf, CharSize, Boundary, Questions;
    var m, b := d.messages, Boundary(d.messages);
    var m' := DropPass(d, kind, b).messages;
    var kept := Without(m[1..b], kind);
    WithoutIsShorter(m[1..b], kind);
    NoNewQuestions(m[1..b], kind);
    KeptStretch(m, kept, b);
    QuestionsOfConcat(kept, m[b..]);
    QuestionsOfConcat(m[1..b], m[b..]);
    TailIsStable(m, m');
  }

  ghost predicate OnlySystemBefore(m: seq<Message>, b: nat)
    requires b <= |m|
  {
    forall i :: 1 <= i < b ==> m[i].role == System
  }

  lemma LastPassesLeaveSystem(d: Draft)
    requires d.messages != []
    ensures var second := DropPass(d, FromAssistant, Boundary(d.messages));
            var third := DropPass(second, FromUser, Boundary(second.messages)).messages;
            OnlySystemBefore(third, Boundary(third))
  {
    var second := DropPass(d, FromAssistant, Boundary(d.messages));
    var third := DropPass(second, FromUser, Boundary(second.messages)).messages;
    DropClears(d, FromAssistant);
    DropClears(second, FromUser);
    var s := d.messages[1..Boundary(d.messages)];
    WithoutMeans(s, FromAssistant);
    WithoutMeans(Without(s, FromAssistant), FromUser);
    hide DropPass, Boundary, Without;
    forall i | 1 <= i < Boundary(third) ensures third[i].role == System {
      assert third[i] == third[1..Boundary(third)][i - 1];
      assert third[i] in Without(Without(s, FromAssistant), FromUser);
    }
  }

  /** The first message plays no part in where the boundary lies. */
  lemma FirstDoesNotMatter(m: seq<Message>, x: Message)
    requires m != []
    ensures Boundary([x] + m[1..]) == Boundary(m)
  {
    var m' := [x] + m[1..];
    BoundaryMeans(m);
    BoundaryMeans(m');
    assert m'[1..] == m[1..];
    forall k | 1 <= k < |m| ensures m'[k..] == m[k..] && m'[k] == m[k] {
    }
    assert forall k :: StartsRecent(m, k) <==> StartsRecent(m', k);
    assert Questions(m[1..]) >= 4 ==> StartsRecent(m', Boundary(m));
  }

  /** If no tool result grows when it is cut, the size kept by the passes is always the true one, and pruning ends
      with a conversation that fits, or with nothing but system messages before the protected tail. */
  lemma PruningFits(m: seq<Message>, max: nat)
    requires m != [] && CharSize(m) <= WORD - 30 && NoneGrows(m[1..Boundary(m)])
    ensures var r := Pruned(m, max);
            r != [] && (CharSize(r) <= max || OnlySystemBefore(r, Boundary(r)))
  {
    hide TrimPass, DropPass, Boundary, CharSize, OnlySystemBefore, NoneGrows, AfterTools;
    if CharSize(m) > max {
      var trimmed := TrimPass(Draft(m, CharSize(m)), Boundary(m));
      TrimExactIff(m, Boundary(m));
      TrimKeepsLength(m);
      DropStaysExact(trimmed, ToolResults, Boundary(m));
      LastPassesFit(DropPass(trimmed, ToolResults, Boundary(m)), max);
    }
  }

  lemma LastPassesFit(d: Draft, max: nat)
    requires d.messages != [] && Exact(d)
    ensures var r := AfterTools(d, max);
            r != [] && (CharSize(r) <= max || OnlySystemBefore(r, Boundary(r)))
  {
    hide DropPass, Boundary, Shorten, CharSize, OnlySystemBefore;
    var second := DropPass(d, FromAssistant, Boundary(d.messages));
    DropStaysExact(d, FromAssistant, Boundary(d.messages));
    var third := DropPass(second, FromUser, Boundary(second.messages));
    DropStaysExact(second, FromUser, Boundary(second.messages));
    LastPassesLeaveSystem(d);
    FirstDoesNotMatter(third.messages, Shorten(third.messages[0]));
    ReplaceFirst(third.messages, Shorten(third.messages[0]));
  }

  lemma ReplaceFirst(m: seq<Message>, x: Message)
    requires m != [] && OnlySystemBefore(m, Boundary(m)) && Boundary([x] + m[1..]) == Boundary(m)
    ensures OnlySystemBefore([x] + m[1..], Boundary([x] + m[1..]))
  {
  }

  /** With at least four questions after the first message, the tail that survives word for word starts at the
      fourth-last question. */
  lemma RecentTurnsSurvive(m: seq<Message>, max: nat, k: nat)
    requires StartsRecent(m, k)
    ensures var r := Pruned(m, max);
            && |r| >= 1 + |m| - k && r[|r| - (|m| - k)..] == m[k..]
            && StartsRecent(r, |r| - (|m| - k))
  {
    hide Pruned, LeftOf, Questions, Boundary, Shorten;
    var r := Pruned(m, max);
    QuestionsFall(m, 1, k);
    BoundaryMeans(m);
    PruningKeeps(m, max);
    var s := [m[0]] + r[1..];
    var j := |r| - (|m| - k);
    assert s[j..] == r[j..];
    assert r[j] == r[j..][0] == m[k..][0];
  }

  lemma TailOfFew(m: seq<Message>)
    requires 2 <= |m| <= 4
    ensures Boundary(m) == |m| - 1
  {
    FourNeedRoom(m[1..]);
    BoundaryMeans(m);
  }
}
