/** What one call of pruning leaves, limit by limit: which recent messages survive it, and when the result fits. */
module PruningOutcome {
  import opened Compaction
  import opened CompactionLaws
  import Text

  // ---- the stages ----

  function Cut(m: seq<Message>): Draft
    requires m != []
  {
    TrimPass(Draft(m, CharSize(m)), Boundary(m))
  }

  function NoTools(m: seq<Message>): (d: Draft)
    requires m != []
    ensures d.messages != []
  {
    DropPass(Cut(m), ToolResults, Boundary(m))
  }

  function NoReplies(m: seq<Message>): (d: Draft)
    requires m != []
    ensures d.messages != []
  {
    DropPass(NoTools(m), FromAssistant, Boundary(NoTools(m).messages))
  }

  function NoQuestions(m: seq<Message>): (d: Draft)
    requires m != []
    ensures d.messages != []
  {
    DropPass(NoReplies(m), FromUser, Boundary(NoReplies(m).messages))
  }

  /** Pruning stops after the first stage whose believed size is within the limit. */
  lemma ByStages(m: seq<Message>, max: nat)
    requires m != []
    ensures Pruned(m, max) ==
            if CharSize(m) <= max then m
            else if Cut(m).size <= max then Cut(m).messages
            else if NoTools(m).size <= max then NoTools(m).messages
            else if NoReplies(m).size <= max then NoReplies(m).messages
            else if NoQuestions(m).size <= max then NoQuestions(m).messages
            else [Shorten(NoQuestions(m).messages[0])] + NoQuestions(m).messages[1..]
  {
    hide TrimPass, DropPass, Boundary, CharSize, Shorten;
  }

  lemma CharSizeIsPositive(m: seq<Message>)
    requires m != []
    ensures CharSize(m) > 0
  {
  }

  /** If no tool result grows, each stage's believed size is the true one. */
  lemma SizesAreTrue(m: seq<Message>)
    requires m != [] && CharSize(m) <= WORD - 30 && NoneGrows(m[1..Boundary(m)])
    ensures Exact(Cut(m)) && Exact(NoTools(m)) && Exact(NoReplies(m)) && Exact(NoQuestions(m))
    ensures Cut(m).size > 0 && NoTools(m).size > 0 && NoReplies(m).size > 0
  {
    hide TrimPass, DropPass, Boundary, CharSize, NoneGrows;
    TrimExactIff(m, Boundary(m));
    TrimKeepsLength(m);
    DropStaysExact(Cut(m), ToolResults, Boundary(m));
    DropStaysExact(NoTools(m), FromAssistant, Boundary(NoTools(m).messages));
    DropStaysExact(NoReplies(m), FromUser, Boundary(NoReplies(m).messages));
    CharSizeIsPositive(Cut(m).messages);
    CharSizeIsPositive(NoTools(m).messages);
    CharSizeIsPositive(NoReplies(m).messages);
  }

  // ---- counting what filters remove ----

  predicate NoneIs(s: seq<Message>, kind: Kind) {
    forall i :: 0 <= i < |s| ==> !IsOf(s[i], kind)
  }

  lemma NoneIsStep(front: seq<Message>, x: Message, kind: Kind)
    ensures NoneIs(front + [x], kind) <==> NoneIs(front, kind) && !IsOf(x, kind)
  {
    var s := front + [x];
    assert s[|front|] == x && forall i :: 0 <= i < |front| ==> s[i] == front[i];
    hide IsOf;
  }

  lemma FilterOneMore(front: seq<Message>, x: Message, kind: Kind)
    ensures Without(front + [x], kind) == if IsOf(x, kind) then Without(front, kind) else Without(front, kind) + [x]
    ensures OnlyOf(front + [x], kind) == if IsOf(x, kind) then OnlyOf(front, kind) + [x] else OnlyOf(front, kind)
  {
    assert (front + [x])[..|front|] == front;
    hide IsOf;
  }

  lemma FilterNothing(kind: Kind)
    ensures Without([], kind) == [] == OnlyOf([], kind)
  {
  }

  lemma Reassociate(a: seq<Message>, b: seq<Message>, x: Message)
    ensures a + (b + [x]) == (a + b) + [x]
  {
  }

  lemma {:induction false} WithoutOfConcat(a: seq<Message>, b: seq<Message>, kind: Kind)
    ensures Without(a + b, kind) == Without(a, kind) + Without(b, kind)
    ensures OnlyOf(a + b, kind) == OnlyOf(a, kind) + OnlyOf(b, kind)
  {
    hide Without, OnlyOf, IsOf;
    if b == [] {
      assert a + b == a;
      FilterNothing(kind);
    } else {
      var front, x := b[..|b| - 1], b[|b| - 1];
      assert b == front + [x];
      Reassociate(a, front, x);
      WithoutOfConcat(a, front, kind);
      FilterOneMore(front, x, kind);
      FilterOneMore(a + front, x, kind);
      Reassociate(Without(a, kind), Without(front, kind), x);
      Reassociate(OnlyOf(a, kind), OnlyOf(front, kind), x);
    }
  }

  lemma {:induction false} NoneOfKind(s: seq<Message>, kind: Kind)
    ensures OnlyOf(s, kind) == [] <==> NoneIs(s, kind)
    ensures NoneIs(s, kind) ==> Without(s, kind) == s
    ensures OnlyOf(Without(s, kind), kind) == []
  {
    if s != [] {
      var front, x := s[..|s| - 1], s[|s| - 1];
      assert s == front + [x];
      NoneOfKind(front, kind);
      NoneIsStep(front, x, kind);
      FilterOneMore(front, x, kind);
      FilterOneMore(Without(front, kind), x, kind);
      hide IsOf, Without, OnlyOf, NoneIs;
    }
  }

  lemma {:induction false} FilterLosesCount(s: seq<Message>, kind: Kind, other: Kind)
    ensures |OnlyOf(Without(s, kind), other)| <= |OnlyOf(s, other)|
  {
    hide IsOf;
    if s != [] {
      var front, x := s[..|s| - 1], s[|s| - 1];
      FilterLosesCount(front, kind, other);
      WithoutOfConcat(Without(front, kind), [x], other);
      assert [x][..0] == [];
      assert Without(front, kind) + [] == Without(front, kind);
    }
  }

  /** What a dropping pass leaves of a kind after the first message. */
  lemma DropCounts(d: Draft, kind: Kind, b: nat, other: Kind)
    requires 1 <= b <= |d.messages|
    ensures var r := DropPass(d, kind, b).messages;
            && |OnlyOf(r[1..], other)| <= |OnlyOf(d.messages[1..], other)|
            && OnlyOf(r[1..], kind) == OnlyOf(d.messages[b..], kind)
  {
    hide IsOf, Without, OnlyOf, CharSize;
    var s, r := d.messages, DropPass(d, kind, b).messages;
    assert r[1..] == Without(s[1..b], kind) + s[b..] && s[1..] == s[1..b] + s[b..];
    hide DropPass;
    WithoutOfConcat(Without(s[1..b], kind), s[b..], other);
    WithoutOfConcat(Without(s[1..b], kind), s[b..], kind);
    WithoutOfConcat(s[1..b], s[b..], other);
    FilterLosesCount(s[1..b], kind, other);
    NoneOfKind(s[1..b], kind);
  }

  // ---- survival ----

  /** The messages of m from k on end r word for word, behind its first message. */
  predicate Survives(m: seq<Message>, k: nat, r: seq<Message>)
    requires k <= |m|
  {
    |r| > |m| - k && r[|r| - (|m| - k)..] == m[k..]
  }

  /** r has too few messages of some kind for the messages of m from k on to be among them. */
  ghost predicate Short(m: seq<Message>, k: nat, r: seq<Message>)
    requires k <= |m|
  {
    r != [] && exists kind :: |OnlyOf(r[1..], kind)| < |OnlyOf(m[k..], kind)|
  }

  lemma ShortIsLost(m: seq<Message>, k: nat, r: seq<Message>)
    requires k <= |m| && Short(m, k, r)
    ensures !Survives(m, k, r)
  {
    if Survives(m, k, r) {
      var kind :| |OnlyOf(r[1..], kind)| < |OnlyOf(m[k..], kind)|;
      var j := |r| - (|m| - k);
      assert r[1..] == r[1..j] + r[j..];
      WithoutOfConcat(r[1..j], r[j..], kind);
    }
  }

  lemma ShortStaysShort(m: seq<Message>, k: nat, d: Draft, kind: Kind, b: nat)
    requires k <= |m| && 1 <= b <= |d.messages| && Short(m, k, d.messages)
    ensures Short(m, k, DropPass(d, kind, b).messages)
  {
    hide DropPass, OnlyOf;
    var other :| |OnlyOf(d.messages[1..], other)| < |OnlyOf(m[k..], other)|;
    DropCounts(d, kind, b, other);
    assert |OnlyOf(DropPass(d, kind, b).messages[1..], other)| < |OnlyOf(m[k..], other)|;
  }

  /** The messages of m from k up to c, if there are any. */
  function Between(m: seq<Message>, k: nat, c: int): seq<Message>
    requires c <= |m|
  {
    if k <= c then m[k..c] else []
  }

  lemma NothingBetween(m: seq<Message>, k: nat, c: int, kind: Kind)
    requires c <= |m|
    ensures c <= k ==> NoneIs(Between(m, k, c), kind)
  {
    assert c == k && k <= |m| ==> m[k..c] == [];
  }

  /** A drop up to b in which what has survived starts at j. */
  lemma DropSplits(d: Draft, kind: Kind, j: nat, b: nat)
    requires 1 <= b <= |d.messages| && 1 <= j <= |d.messages|
    ensures var s, r := d.messages, DropPass(d, kind, b).messages;
            && r == s[..1] + Without(s[1..b], kind) + s[b..]
            && (j <= b ==> r == s[..1] + (Without(s[1..j], kind) + Without(s[j..b], kind)) + s[b..])
            && (b <= j ==> |r| > |s| - j && r[|r| - (|s| - j)..] == s[j..])
  {
    hide Without, OnlyOf, CharSize;
    var s := d.messages;
    if j <= b {
      assert s[1..b] == s[1..j] + s[j..b];
      WithoutOfConcat(s[1..j], s[j..b], kind);
    }
    if b <= j {
      TailStays(s[..1] + Without(s[1..b], kind), s[b..], j - b);
      assert s[b..][j - b..] == s[j..];
    }
  }

  lemma TailStays(a: seq<Message>, c: seq<Message>, i: nat)
    requires i <= |c|
    ensures (a + c)[|a + c| - (|c| - i)..] == c[i..]
  {
  }

  lemma SuffixSplits(m: seq<Message>, k: nat, s: seq<Message>, b: nat)
    requires k <= |m| && Survives(m, k, s) && |s| - (|m| - k) <= b <= |s|
    ensures var j, c := |s| - (|m| - k), |m| - (|s| - b);
            k <= c <= |m| && s[j..b] == m[k..c] && s[b..] == m[c..] && m[k..] == m[k..c] + m[c..]
  {
    var j, c := |s| - (|m| - k), |m| - (|s| - b);
    assert s[b..] == s[j..][b - j..] && m[c..] == m[k..][c - k..];
    assert s[j..b] == s[j..][..b - j] && m[k..c] == m[k..][..c - k];
  }

  /** What follows the first part stays the end of the whole. */
  lemma Rejoin(first: seq<Message>, kept: seq<Message>, x: seq<Message>, y: seq<Message>)
    ensures var r := first + (kept + x) + y;
            |r| == |first| + |kept| + |x| + |y| && r[|first| + |kept|..] == x + y
  {
  }

  lemma SparedAfterDrop(m: seq<Message>, k: nat, d: Draft, kind: Kind, b: nat)
    requires 1 <= k <= |m| && Survives(m, k, d.messages) && 1 <= b <= |d.messages|
    requires NoneIs(Between(m, k, |m| - (|d.messages| - b)), kind)
    ensures Survives(m, k, DropPass(d, kind, b).messages)
  {
    hide DropPass, OnlyOf, Without, IsOf, NoneIs;
    var s, r := d.messages, DropPass(d, kind, b).messages;
    var j, c := |s| - (|m| - k), |m| - (|s| - b);
    DropSplits(d, kind, j, b);
    if j <= b {
      SuffixSplits(m, k, s, b);
      NoneOfKind(s[j..b], kind);
      Rejoin(s[..1], Without(s[1..j], kind), m[k..c], m[c..]);
    }
  }

  lemma LostAfterDrop(m: seq<Message>, k: nat, d: Draft, kind: Kind, b: nat)
    requires 1 <= k <= |m| && Survives(m, k, d.messages) && 1 <= b <= |d.messages|
    requires !NoneIs(Between(m, k, |m| - (|d.messages| - b)), kind)
    ensures Short(m, k, DropPass(d, kind, b).messages)
  {
    hide DropPass, OnlyOf, Without, IsOf, NoneIs;
    NothingBetween(m, k, |m| - (|d.messages| - b), kind);
    var c, r := |m| - (|d.messages| - b), DropPass(d, kind, b).messages;
    SuffixSplits(m, k, d.messages, b);
    NoneOfKind(m[k..c], kind);
    WithoutOfConcat(m[k..c], m[c..], kind);
    DropCounts(d, kind, b, kind);
    assert |OnlyOf(r[1..], kind)| < |OnlyOf(m[k..], kind)|;
  }

  // ---- which recent messages survive ----

  /** Cutting leaves the messages from k up to the boundary as they are. */
  predicate Uncut(m: seq<Message>, k: nat)
    requires m != []
  {
    forall i :: k <= i < Boundary(m) ==> Trimmed(m[i]) == m[i]
  }

  /** The messages before this position are at the mercy of the last two passes. */
  function Mercy(m: seq<Message>): int
    requires m != []
  {
    |m| - Tail(NoTools(m).messages)
  }

  /** What it takes for the messages from k on to come through pruning word for word. */
  ghost predicate Spared(m: seq<Message>, k: nat, max: nat)
    requires m != []
  {
    || CharSize(m) <= max
    || (&& Uncut(m, k)
        && (|| Cut(m).size <= max
            || (&& NoneIs(Between(m, k, Boundary(m)), ToolResults)
                && (|| NoTools(m).size <= max
                    || (&& NoneIs(Between(m, k, Mercy(m)), FromAssistant)
                        && (|| NoReplies(m).size <= max
                            || NoneIs(Between(m, k, Mercy(m)), FromUser)))))))
  }

  lemma CutKeepsLength(m: seq<Message>)
    requires m != []
    ensures |Cut(m).messages| == |m|
  {
  }

  lemma CutAt(m: seq<Message>, i: nat)
    requires i < |m|
    ensures |Cut(m).messages| == |m|
    ensures Cut(m).messages[i] == if 1 <= i < Boundary(m) then Trimmed(m[i]) else m[i]
  {
    hide Boundary, TrimSize, CharSize, Trimmed;
    var b := Boundary(m);
    if 1 <= i < b {
      assert m[1..b][i - 1] == m[i] && TrimAll(m[1..b])[i - 1] == Trimmed(m[1..b][i - 1]);
      assert Cut(m).messages[i] == TrimAll(m[1..b])[i - 1];
    }
  }

  lemma SameFrom(m: seq<Message>, r: seq<Message>, k: nat)
    requires |r| == |m| && 1 <= k < |m|
    ensures Survives(m, k, r) <==> forall i :: k <= i < |m| ==> r[i] == m[i]
  {
    assert forall i :: k <= i < |m| ==> r[k..][i - k] == r[i] && m[k..][i - k] == m[i];
    if Survives(m, k, r) {
      forall i | k <= i < |m| ensures r[i] == m[i] {
        assert r[k..][i - k] == m[k..][i - k];
      }
    }
  }

  lemma CutSparesIff(m: seq<Message>, k: nat)
    requires 1 <= k < |m|
    ensures Survives(m, k, Cut(m).messages) <==> Uncut(m, k)
  {
    hide Boundary, Trimmed, Cut, Survives;
    CutKeepsLength(m);
    forall i | 0 <= i < |m|
      ensures Cut(m).messages[i] == if 1 <= i < Boundary(m) then Trimmed(m[i]) else m[i]
    {
      CutAt(m, i);
    }
    SameFrom(m, Cut(m).messages, k);
  }

  lemma ToolsAreLost(m: seq<Message>, k: nat)
    requires 1 <= k < |m| && !NoneIs(Between(m, k, Boundary(m)), ToolResults)
    ensures Short(m, k, NoTools(m).messages)
  {
    hide DropPass, OnlyOf, Without, IsOf, NoneIs;
    var b, r := Boundary(m), NoTools(m).messages;
    NothingBetween(m, k, b, ToolResults);
    TrimKeepsLength(m);
    DropCounts(Cut(m), ToolResults, b, ToolResults);
    assert Cut(m).messages[b..] == m[b..];
    NoneOfKind(m[k..b], ToolResults);
    assert m[k..] == m[k..b] + m[b..];
    WithoutOfConcat(m[k..b], m[b..], ToolResults);
    assert |OnlyOf(r[1..], ToolResults)| < |OnlyOf(m[k..], ToolResults)|;
  }

  lemma ToolFreeIsUncut(m: seq<Message>, k: nat)
    requires m != [] && NoneIs(Between(m, k, Boundary(m)), ToolResults)
    ensures Uncut(m, k)
  {
    hide Boundary, Truncate, IsToolResult;
    forall i | k <= i < Boundary(m) ensures Trimmed(m[i]) == m[i] {
      assert Between(m, k, Boundary(m))[i - k] == m[i];
    }
  }

  lemma ToolStage(m: seq<Message>, k: nat)
    requires 1 <= k < |m|
    ensures if NoneIs(Between(m, k, Boundary(m)), ToolResults) then Uncut(m, k) && Survives(m, k, NoTools(m).messages)
            else Short(m, k, NoTools(m).messages)
  {
    hide DropPass, IsOf, NoneIs, Uncut, Survives, Short, TrimPass;
    if NoneIs(Between(m, k, Boundary(m)), ToolResults) {
      ToolFreeIsUncut(m, k);
      CutSparesIff(m, k);
      TrimKeepsLength(m);
      SparedAfterDrop(m, k, Cut(m), ToolResults, Boundary(m));
    } else {
      ToolsAreLost(m, k);
    }
  }

  lemma ReplyStage(m: seq<Message>, k: nat)
    requires 1 <= k < |m|
    ensures Short(m, k, NoTools(m).messages) ==> Short(m, k, NoReplies(m).messages)
    ensures Survives(m, k, NoTools(m).messages) ==>
              if NoneIs(Between(m, k, Mercy(m)), FromAssistant) then Survives(m, k, NoReplies(m).messages)
              else Short(m, k, NoReplies(m).messages)
  {
    hide DropPass, IsOf, NoneIs, Survives, Short, Boundary;
    var d := NoTools(m);
    var b := Boundary(d.messages);
    if Short(m, k, d.messages) {
      ShortStaysShort(m, k, d, FromAssistant, b);
    }
    if Survives(m, k, d.messages) {
      if NoneIs(Between(m, k, Mercy(m)), FromAssistant) {
        SparedAfterDrop(m, k, d, FromAssistant, b);
      } else {
        LostAfterDrop(m, k, d, FromAssistant, b);
      }
    }
  }

  lemma QuestionStage(m: seq<Message>, k: nat)
    requires 1 <= k < |m|
    ensures Short(m, k, NoReplies(m).messages) ==> Short(m, k, NoQuestions(m).messages)
    ensures Survives(m, k, NoReplies(m).messages) ==>
              if NoneIs(Between(m, k, Mercy(m)), FromUser) then Survives(m, k, NoQuestions(m).messages)
              else Short(m, k, NoQuestions(m).messages)
  {
    hide DropPass, IsOf, NoneIs, Survives, Short, Boundary;
    var d := NoReplies(m);
    var b := Boundary(d.messages);
    DropClears(NoTools(m), FromAssistant);
    if Short(m, k, d.messages) {
      ShortStaysShort(m, k, d, FromUser, b);
    }
    if Survives(m, k, d.messages) {
      if NoneIs(Between(m, k, Mercy(m)), FromUser) {
        SparedAfterDrop(m, k, d, FromUser, b);
      } else {
        LostAfterDrop(m, k, d, FromUser, b);
      }
    }
  }

  lemma FirstPlaysNoPart(m: seq<Message>, k: nat, r: seq<Message>, x: Message)
    requires 1 <= k <= |m| && r != []
    ensures Survives(m, k, [x] + r[1..]) <==> Survives(m, k, r)
  {
    var j := |r| - (|m| - k);
    assert j >= 1 ==> ([x] + r[1..])[j..] == r[j..];
  }

  /** For every conversation, position and limit: the messages from there on come through word for word if and only if
      they are spared, pass by pass. */
  lemma SurvivesIff(m: seq<Message>, k: nat, max: nat)
    requires 1 <= k < |m|
    ensures Survives(m, k, Pruned(m, max)) <==> Spared(m, k, max)
  {
    hide Pruned, Cut, NoTools, NoReplies, NoQuestions, Survives, Short, NoneIs, Uncut, CharSize, Mercy, Boundary;
    hide Shorten;
    ByStages(m, max);
    AllSurvive(m, k);
    CutSparesIff(m, k);
    ToolStage(m, k);
    ReplyStage(m, k);
    QuestionStage(m, k);
    LostIfShort(m, k, NoTools(m).messages);
    LostIfShort(m, k, NoReplies(m).messages);
    LostIfShort(m, k, NoQuestions(m).messages);
    FirstPlaysNoPart(m, k, NoQuestions(m).messages, Shorten(NoQuestions(m).messages[0]));
  }

  lemma AllSurvive(m: seq<Message>, k: nat)
    requires 1 <= k < |m|
    ensures Survives(m, k, m)
  {
  }

  lemma LostIfShort(m: seq<Message>, k: nat, r: seq<Message>)
    requires k <= |m|
    ensures Short(m, k, r) ==> !Survives(m, k, r)
  {
    if Short(m, k, r) {
      ShortIsLost(m, k, r);
    }
  }

  // ---- whatever the limit ----

  /** One of the last four questions if there are four after the first message, or the last message. */
  predicate IsRecent(m: seq<Message>, k: nat)
    requires 1 <= k < |m|
  {
    k == |m| - 1 || (Questions(m[1..]) >= 4 && Questions(m[k..]) <= 4)
  }

  lemma ProtectedIff(m: seq<Message>, k: nat)
    requires 1 <= k < |m| && IsQuestion(m[k])
    ensures Boundary(m) <= k <==> IsRecent(m, k)
  {
    BoundaryMeans(m);
    var b := Boundary(m);
    hide Boundary, Questions, IsQuestion;
    if Questions(m[1..]) >= 4 {
      assert StartsRecent(m, b);
      if b <= k {
        QuestionsFall(m, b, k);
      } else {
        QuestionCounts(m, k);
        QuestionsFall(m, k + 1, b);
      }
    }
  }

  lemma QuestionCounts(m: seq<Message>, k: nat)
    requires k < |m| && IsQuestion(m[k])
    ensures Questions(m[k..]) == 1 + Questions(m[k + 1..])
  {
    assert m[k..][0] == m[k] && m[k..][1..] == m[k + 1..];
  }

  lemma {:induction false} ToolsAreNoQuestions(s: seq<Message>)
    ensures Questions(Without(s, ToolResults)) == Questions(s)
  {
    if s != [] {
      var front, x := s[..|s| - 1], s[|s| - 1];
      assert s == front + [x];
      ToolsAreNoQuestions(front);
      FilterOneMore(front, x, ToolResults);
      QuestionsOfConcat(front, [x]);
      QuestionsOfConcat(Without(front, ToolResults), [x]);
      hide Without, OnlyOf;
    }
  }

  lemma QuestionsAfterTools(m: seq<Message>)
    requires m != []
    ensures Questions(NoTools(m).messages[1..]) == Questions(Cut(m).messages[1..])
  {
    hide Questions, Without, OnlyOf, CharSize;
    TrimKeepsLength(m);
    var s, b := Cut(m).messages, Boundary(m);
    DropSplits(Cut(m), ToolResults, 1, b);
    hide Cut, Boundary, DropPass;
    ToolsAreNoQuestions(s[1..b]);
    assert s[1..] == s[1..b] + s[b..];
    assert NoTools(m).messages[1..] == Without(s[1..b], ToolResults) + s[b..];
    QuestionsOfConcat(s[1..b], s[b..]);
    QuestionsOfConcat(Without(s[1..b], ToolResults), s[b..]);
  }

  lemma MercyMeans(m: seq<Message>, k: nat)
    requires 1 <= k < |m| && IsQuestion(m[k]) && NoneIs(Between(m, k, Boundary(m)), ToolResults)
    ensures Mercy(m) <= k <==> |Cut(m).messages| == |m| && IsRecent(Cut(m).messages, k)
  {
    hide Questions, Boundary, NoTools, Cut, IsQuestion, NoneIs, Uncut;
    ToolStage(m, k);
    CutSparesIff(m, k);
    CutKeepsLength(m);
    QuestionsAfterTools(m);
    var s := NoTools(m).messages;
    var j := |s| - (|m| - k);
    assert s[j] == s[j..][0] == m[k];
    ProtectedIff(s, j);
  }

  /** Which questions survive with everything after them, whatever the limit. If no tool result grows: those behind
      which nothing before the boundary is a tool result, and which are the last message or among the last four
      questions, counting four in the conversation after cutting. If one grows, pruning ends there: those behind
      which cutting changes nothing. */
  lemma AlwaysSurvivesIff(m: seq<Message>, k: nat)
    requires 1 <= k < |m| && IsQuestion(m[k]) && CharSize(m) <= WORD - 30
    ensures |Cut(m).messages| == |m|
    ensures (forall max :: Survives(m, k, Pruned(m, max))) <==>
            if NoneGrows(m[1..Boundary(m)])
            then NoneIs(Between(m, k, Boundary(m)), ToolResults) && IsRecent(Cut(m).messages, k)
            else Uncut(m, k)
  {
    hide Pruned, NoTools, NoReplies, NoQuestions, Survives, NoneIs, Uncut, CharSize, Mercy, Boundary, NoneGrows;
    hide IsRecent, TrimPass, IsQuestion;
    CutKeepsLength(m);
    CharSizeIsPositive(m);
    forall max ensures Survives(m, k, Pruned(m, max)) <==> Spared(m, k, max) {
      SurvivesIff(m, k, max);
    }
    assert (forall max :: Survives(m, k, Pruned(m, max))) ==> Survives(m, k, Pruned(m, 0));
    if NoneGrows(m[1..Boundary(m)]) {
      SizesAreTrue(m);
      QuestionsFallLast(m, k);
      if NoneIs(Between(m, k, Boundary(m)), ToolResults) {
        ToolFreeIsUncut(m, k);
        MercyMeans(m, k);
      }
    } else {
      TrimExactIff(m, Boundary(m));
    }
  }

  /** Before the boundary of the later passes a question itself is what the last pass drops. */
  lemma QuestionsFallLast(m: seq<Message>, k: nat)
    requires 1 <= k < |m| && IsQuestion(m[k])
    ensures NoneIs(Between(m, k, Mercy(m)), FromUser) <==> Mercy(m) <= k
    ensures Mercy(m) <= k ==> NoneIs(Between(m, k, Mercy(m)), FromAssistant)
  {
    NothingBetween(m, k, Mercy(m), FromUser);
    NothingBetween(m, k, Mercy(m), FromAssistant);
    if Mercy(m) > k {
      assert IsOf(Between(m, k, Mercy(m))[0], FromUser);
    }
    hide Mercy;
  }

  lemma {:induction false} TrimSizeFalls(size: nat, s: seq<Message>)
    ensures TrimSize(size, s) <= size
  {
    if s != [] {
      TrimSizeFalls(size, s[..|s| - 1]);
      hide IsLongResult, Trimmed;
    }
  }

  lemma StageSizesFall(m: seq<Message>)
    requires m != []
    ensures NoReplies(m).size <= NoTools(m).size <= Cut(m).size <= CharSize(m)
  {
    TrimSizeFalls(CharSize(m), m[1..Boundary(m)]);
    hide CharSize, TrimSize, Boundary, OnlyOf, Without, TrimAll;
  }

  /** The smallest limit under which a question keeps its place with everything after it. */
  function Needs(m: seq<Message>, k: nat): nat
    requires 1 <= k < |m|
  {
    CutKeepsLength(m);
    if !Uncut(m, k) then CharSize(m)
    else if !NoneIs(Between(m, k, Boundary(m)), ToolResults) then Cut(m).size
    else if IsRecent(Cut(m).messages, k) then 0
    else if !NoneIs(Between(m, k, Mercy(m)), FromAssistant) then NoTools(m).size
    else NoReplies(m).size
  }

  /** For every conversation and limit: a question survives with everything after it exactly from that limit on. With
      fewer than four questions in the conversation after cutting, that is a positive size for each question but a
      last one. */
  lemma SurvivesFrom(m: seq<Message>, k: nat, max: nat)
    requires 1 <= k < |m| && IsQuestion(m[k])
    ensures Survives(m, k, Pruned(m, max)) <==> max >= Needs(m, k)
  {
    hide Pruned, Cut, NoTools, NoReplies, NoQuestions, Survives, NoneIs, Uncut, CharSize, Mercy, Boundary, IsRecent,
      IsQuestion;
    SurvivesIff(m, k, max);
    StageSizesFall(m);
    CutKeepsLength(m);
    QuestionsFallLast(m, k);
    if NoneIs(Between(m, k, Boundary(m)), ToolResults) {
      ToolFreeIsUncut(m, k);
      MercyMeans(m, k);
    }
  }

  /** With fewer than four questions every question but a last one is lost with its reply under small limits: below
      what is left without the replies before the last message, or earlier. */
  lemma FewQuestionsLoseTurns(m: seq<Message>, k: nat, max: nat)
    requires 1 <= k < |m| - 1 && IsQuestion(m[k])
    requires Questions(Cut(m).messages[1..]) < 4 && max < NoReplies(m).size
    ensures !Survives(m, k, Pruned(m, max))
  {
    hide Pruned, Cut, NoTools, NoReplies, NoQuestions, Survives, NoneIs, Uncut, CharSize, Mercy, Boundary, IsQuestion;
    SurvivesFrom(m, k, max);
    StageSizesFall(m);
    CutKeepsLength(m);
  }

  lemma FilterPair(a: Message, b: Message, kind: Kind)
    ensures Without([a, b], kind) == (if IsOf(a, kind) then [] else [a]) + (if IsOf(b, kind) then [] else [b])
    ensures Without([a], kind) == (if IsOf(a, kind) then [] else [a])
  {
    assert [a, b][..1] == [a] && [a][..0] == [];
    assert Without([a], kind) == (if IsOf(a, kind) then [] else [a]);
    hide IsOf;
  }

  lemma NothingToTrim(a: Message, b: Message, size: nat)
    requires !IsToolResult(a) && !IsToolResult(b)
    ensures TrimAll([a, b]) == [a, b] && TrimSize(size, [a, b]) == size
  {
    assert [a, b][..1] == [a] && [a][..0] == [];
    assert TrimSize(size, [a]) == size;
    hide IsToolResult;
  }

  lemma TrimOfFour(d: Draft, a: Message, x: Message, y: Message, z: Message)
    requires d.messages == [a, x, y, z] && !IsToolResult(x) && !IsToolResult(y)
    ensures TrimPass(d, 3) == d
  {
    NothingToTrim(x, y, d.size);
    assert [a, x, y, z][1..3] == [x, y];
    hide TrimAll, TrimSize, IsToolResult;
  }

  lemma DropOfFour(d: Draft, kind: Kind, a: Message, x: Message, y: Message, z: Message)
    requires d.messages == [a, x, y, z] && Exact(d)
    ensures Exact(DropPass(d, kind, 3))
    ensures DropPass(d, kind, 3).messages
         == [a] + (if IsOf(x, kind) then [] else [x]) + (if IsOf(y, kind) then [] else [y]) + [z]
    ensures !IsOf(x, kind) && !IsOf(y, kind) ==> DropPass(d, kind, 3) == d
  {
    hide Without, OnlyOf, CharSize, IsOf;
    DropStaysExact(d, kind, 3);
    FilterPair(x, y, kind);
    assert [a, x, y, z][1..3] == [x, y] && [a, x, y, z][3..] == [z];
    assert [a] + [x] + [y] + [z] == [a, x, y, z];
  }

  lemma DropOfThree(d: Draft, kind: Kind, a: Message, x: Message, z: Message)
    requires d.messages == [a, x, z] && Exact(d)
    ensures Exact(DropPass(d, kind, 2))
    ensures DropPass(d, kind, 2).messages == [a] + (if IsOf(x, kind) then [] else [x]) + [z]
  {
    hide Without, OnlyOf, CharSize, IsOf;
    DropStaysExact(d, kind, 2);
    FilterPair(x, x, kind);
    assert [a, x, z][1..2] == [x] && [a, x, z][2..] == [z];
  }

  lemma ShortStays(m: Message)
    requires |m.content| <= SYSTEM_TRUNCATE_CHARS
    ensures Shorten(m) == m
  {
  }

  /** In the smallest case: a question and its reply before a last message are both dropped under every limit below
      what is left without the reply. */
  lemma ExchangeIsLost(system: Message, question: Message, reply: Message, last: Message, max: nat)
    requires system.role == System && |system.content| <= SYSTEM_TRUNCATE_CHARS
    requires IsQuestion(question) && reply.role == Assistant && max < CharSize([system, question, last])
    ensures Pruned([system, question, reply, last], max) == [system, last]
  {
    assert !IsToolResult(question) && !IsToolResult(reply);
    hide CharSize, TrimPass, DropPass, Boundary, IsToolResult, Shorten;
    var m := [system, question, reply, last];
    var d := Draft(m, CharSize(m));
    TailOfFew(m);
    TrimOfFour(d, system, question, reply, last);
    DropOfFour(d, ToolResults, system, question, reply, last);
    DropOfFour(d, FromAssistant, system, question, reply, last);
    TailOfFew([system, question, last]);
    DropOfThree(NoReplies(m), FromUser, system, question, last);
    StageSizesFall(m);
    ShortStays(system);
    assert [system] + [system, last][1..] == [system, last];
    ByStages(m, max);
  }

  lemma {:induction false} NothingToCut(s: seq<Message>)
    requires NoneIs(s, ToolResults)
    ensures TrimAll(s) == s && NoneGrows(s)
  {
    forall i | 0 <= i < |s| ensures Trimmed(s[i]) == s[i] && !IsLongResult(s[i]) {
      assert !IsOf(s[i], ToolResults);
    }
  }

  lemma PlainTalkIsUncut(m: seq<Message>, k: nat)
    requires 1 <= k < |m| && NoneIs(m[1..Boundary(m)], ToolResults)
    ensures Cut(m).messages == m && NoneGrows(m[1..Boundary(m)]) && NoneIs(Between(m, k, Boundary(m)), ToolResults)
  {
    hide Boundary, NoneGrows, CharSize, TrimAll, TrimSize, IsOf;
    var s, b := m[1..Boundary(m)], Boundary(m);
    NothingToCut(s);
    assert Cut(m).messages == m[..1] + s + m[b..] == m;
    hide Cut;
    forall i | 0 <= i < |Between(m, k, b)| ensures !IsOf(Between(m, k, b)[i], ToolResults) {
      assert Between(m, k, b)[i] == m[k + i] == s[k + i - 1];
    }
  }

  /** Without tool results before the boundary: a question survives every limit exactly if it is one of the last four
      and there are four, or it is the last message. */
  lemma PlainTalkSurvivesIff(m: seq<Message>, k: nat)
    requires 1 <= k < |m| && IsQuestion(m[k]) && CharSize(m) <= WORD - 30
    requires NoneIs(m[1..Boundary(m)], ToolResults)
    ensures (forall max :: Survives(m, k, Pruned(m, max))) <==> IsRecent(m, k)
  {
    hide Pruned, Survives, NoneIs, Boundary, Cut, IsRecent, CharSize, NoneGrows, IsQuestion;
    PlainTalkIsUncut(m, k);
    AlwaysSurvivesIff(m, k);
  }

  // ---- when cutting changes what a message counts as ----

  const MARKERS := ["Tool result for ", "Tool '", "Tool error: "]

  /** The marker that makes a message a tool result. */
  function Marker(m: Message): (p: string)
    requires IsToolResult(m)
    ensures p in MARKERS && p <= m.content
  {
    if MARKERS[0] <= m.content then MARKERS[0] else if MARKERS[1] <= m.content then MARKERS[1] else MARKERS[2]
  }

  lemma MarkersDiffer(p: string, q: string)
    requires p in MARKERS && q in MARKERS
    ensures |p| >= 6 && |q| >= 6 && '.' !in q && (p[5] == q[5] ==> p == q)
  {
  }

  lemma MarkerCut(content: string, i: nat, note: string, p: string)
    requires p in MARKERS && p <= content && i <= |content| && note != "" && note[0] == '.'
    ensures var r := content[..i] + note;
            if i >= |p| then p <= r else forall q :: q in MARKERS ==> !(q <= r)
  {
    var r := content[..i] + note;
    if i >= |p| {
      assert r[..|p|] == content[..|p|] == p;
    } else {
      forall q | q in MARKERS ensures !(q <= r) {
        MarkersDiffer(p, q);
        assert r[i] == '.' && (5 < i ==> r[5] == content[5] == p[5]);
      }
    }
  }

  lemma MarkerMeans(m: Message)
    requires m.role == User
    ensures IsQuestion(m) <==> forall q :: q in MARKERS ==> !(q <= m.content)
  {
    assert MARKERS[0] in MARKERS && MARKERS[1] in MARKERS && MARKERS[2] in MARKERS;
  }

  /** A tool result cut at a space inside its marker is taken for a question from then on, and never dropped as a tool
      result. */
  lemma BecomesQuestionIff(m: Message)
    requires IsLongResult(m)
    ensures IsQuestion(Trimmed(m)) <==> BreakAt(m.content, TOOL_RESULT_TRUNCATE_CHARS) < |Marker(m)|
  {
    var i := BreakAt(m.content, TOOL_RESULT_TRUNCATE_CHARS);
    var note := "...(truncated, " + Text.Decimal(|m.content| - i) + " chars omitted)";
    hide BreakAt, Text.Decimal;
    assert note[0] == '.';
    assert Trimmed(m).content == m.content[..i] + note;
    MarkerMeans(Trimmed(m));
    MarkerCut(m.content, i, note, Marker(m));
    hide IsToolResult, Marker, Trimmed, IsQuestion;
  }

  // ---- when the result fits ----

  /** The result is within the limit, or has nothing left that pruning would drop. */
  ghost predicate DoneFor(r: seq<Message>, max: nat)
    requires r != []
  {
    CharSize(r) <= max || OnlySystemBefore(r, Boundary(r))
  }

  lemma PrunedIsNotEmpty(m: seq<Message>, max: nat)
    requires m != []
    ensures Pruned(m, max) != []
  {
    PruningKeeps(m, max);
    hide Pruned, Keeps, Shorten;
  }

  /** If some tool result grows, the size wraps to zero and pruning ends after the first pass. */
  lemma GrowthEndsPruning(m: seq<Message>, max: nat)
    requires m != [] && max < CharSize(m) <= WORD - 30 && !NoneGrows(m[1..Boundary(m)])
    ensures Pruned(m, max) == Cut(m).messages
  {
    hide CharSize, TrimPass, Boundary, NoneGrows, NoTools, NoReplies, NoQuestions;
    TrimExactIff(m, Boundary(m));
    ByStages(m, max);
  }

  /** For every conversation and limit: pruning does what it can exactly if nothing had to be pruned, no tool result
      grows, or the first pass is already enough. */
  lemma PruningFitsIff(m: seq<Message>, max: nat)
    requires m != [] && CharSize(m) <= WORD - 30
    ensures Pruned(m, max) != []
    ensures DoneFor(Pruned(m, max), max) <==>
            CharSize(m) <= max || NoneGrows(m[1..Boundary(m)]) || DoneFor(Cut(m).messages, max)
  {
    hide Pruned, CharSize, Boundary, NoneGrows, OnlySystemBefore, TrimPass;
    PrunedIsNotEmpty(m, max);
    if CharSize(m) <= max {
      ByStages(m, max);
    } else if NoneGrows(m[1..Boundary(m)]) {
      PruningFits(m, max);
    } else {
      GrowthEndsPruning(m, max);
    }
  }

  /** A long tool result that grows, between two other messages: under every limit that calls for pruning the result
      is larger than before, and does not fit. */
  lemma GrowthDoesNotFit(first: Message, x: Message, last: Message, max: nat)
    requires IsLongResult(x) && !Shrinks(x.content, TOOL_RESULT_TRUNCATE_CHARS)
    requires max < CharSize([first, x, last]) <= WORD - 30
    ensures Pruned([first, x, last], max) == [first, Trimmed(x), last]
    ensures max < CharSize([first, x, last]) < CharSize([first, Trimmed(x), last])
    ensures !DoneFor([first, Trimmed(x), last], max)
  {
    var m, r := [first, x, last], [first, Trimmed(x), last];
    hide CharSize, Boundary, Pruned, IsLongResult, Shrinks, Trimmed;
    TailOfFew(m);
    TailOfFew(r);
    assert m[1..2] == [x] && m[1..2][0] == x;
    CutOfThree(first, x, last);
    GrowthEndsPruning(m, max);
    TrimmedWeight(x);
    SizeOfThree(first, x, last);
    SizeOfThree(first, Trimmed(x), last);
    RoleOfResult(x);
    assert r[1].role != System;
  }

  lemma RoleOfResult(x: Message)
    requires IsLongResult(x)
    ensures x.role == Trimmed(x).role == User
  {
  }

  lemma CutOfThree(first: Message, x: Message, last: Message)
    requires Boundary([first, x, last]) == 2
    ensures Cut([first, x, last]).messages == [first, Trimmed(x), last]
  {
    var m := [first, x, last];
    assert m[1..2] == [x] && TrimAll([x]) == [Trimmed(x)] && m[..1] == [first] && m[2..] == [last];
    hide Trimmed, Boundary, CharSize, TrimSize;
  }

  lemma SizeOfThree(a: Message, b: Message, c: Message)
    ensures CharSize([a, b, c]) == Weight(a) + Weight(b) + Weight(c)
  {
    assert [a, b, c] == [] + [a] + [b] + [c] && [] + [a] == [a] && [a] + [b] == [a, b];
    WeightOfOneMore([], a);
    WeightOfOneMore([a], b);
    WeightOfOneMore([a, b], c);
  }

  /** Such tool results exist: 507 characters become 528. */
  lemma SomeResultGrows() returns (x: Message)
    ensures IsLongResult(x) && !Shrinks(x.content, TOOL_RESULT_TRUNCATE_CHARS)
    ensures |x.content| == 507 && |Trimmed(x).content| == 528
  {
    var body, end := seq(490, _ => 'a'), seq(10, _ => 'b');
    var content := "Tool '" + body + " " + end;
    x := Message(User, content);
    assert "Tool '" <= content;
    var head := content[..500];
    assert head[496] == ' ';
    assert forall k :: 6 <= k < 496 ==> head[k] == 'a';
    assert forall k :: 496 < k < 500 ==> head[k] == 'b';
    assert head[..6] == "Tool '";
    assert BreakAt(content, 500) == 496;
    DecimalIsShort(11);
    hide Text.Decimal, BreakAt;
  }

  // ---- the first message ----

  /** The first message stays as it is, except that a system prompt of more than 2000 characters is cut when even the
      last pass leaves too much: at a line break or space within the first 2000, with a note of what is missing. */
  lemma FirstMessageIff(m: seq<Message>, max: nat)
    requires m != []
    ensures var r, text := Pruned(m, max), m[0].content;
            && r != []
            && if m[0].role == System && |text| > 2000 && max < NoQuestions(m).size then
                 && r[0].role == System && BreakAt(text, 2000) <= 2000
                 && r[0].content
                    == text[..BreakAt(text, 2000)] + "...(truncated, " + Text.Decimal(|text| - BreakAt(text, 2000))
                       + " chars omitted)"
               else r[0] == m[0]
  {
    ByStages(m, max);
    AllSizesFall(m);
    FirstStays(m);
    hide NoTools, NoReplies, NoQuestions, Cut, CharSize, BreakAt, Text.Decimal;
  }

  lemma AllSizesFall(m: seq<Message>)
    requires m != []
    ensures NoQuestions(m).size <= NoReplies(m).size <= NoTools(m).size <= Cut(m).size <= CharSize(m)
  {
    StageSizesFall(m);
    hide CharSize, Boundary, OnlyOf, Without, TrimPass;
  }

  lemma FirstStays(m: seq<Message>)
    requires m != []
    ensures Cut(m).messages != [] && Cut(m).messages[0] == m[0]
    ensures NoTools(m).messages[0] == NoReplies(m).messages[0] == NoQuestions(m).messages[0] == m[0]
  {
    hide CharSize, Boundary, Without, TrimAll;
  }

  /** If no tool result grows, a result that does not fit has no long system prompt left: the prompt was at most 2000
      characters, or it has been cut to them. */
  lemma LongPromptIsCut(m: seq<Message>, max: nat)
    requires m != [] && CharSize(m) <= WORD - 30 && NoneGrows(m[1..Boundary(m)])
    ensures var r := Pruned(m, max);
            && r != []
            && (CharSize(r) > max && m[0].role == System && |m[0].content| > 2000 ==>
                  r[0].content == Truncate(m[0].content, 2000))
  {
    hide CharSize, Boundary, NoneGrows, Truncate, BreakAt;
    SizesAreTrue(m);
    ByStages(m, max);
    FirstStays(m);
    hide NoTools, NoReplies, NoQuestions, Cut;
  }
}
