/** Pruning of a conversation: the functions it is made of, and the in-place passes. */
module Compaction {
  import opened Common
  import opened Text

  const TOOL_RESULT_TRUNCATE_CHARS := 500
  const SYSTEM_TRUNCATE_CHARS := 2000
  const KEEP_RECENT_TURNS := 4
  const MESSAGE_OVERHEAD := 20
  const WORD := 0x1_0000_0000_0000_0000

  datatype Role = System | User | Assistant

  datatype Message = Message(role: Role, content: string)

  function Weight(m: Message): nat {
    |m.content| + MESSAGE_OVERHEAD
  }

  function CharSize(s: seq<Message>): nat {
    if s == [] then 0 else CharSize(s[..|s| - 1]) + Weight(s[|s| - 1])
  }

  predicate IsToolResult(m: Message) {
    m.role == User && ("Tool result for " <= m.content || "Tool '" <= m.content || "Tool error: " <= m.content)
  }

  /** A message the user really wrote. */
  predicate IsQuestion(m: Message) {
    m.role == User && !IsToolResult(m)
  }

  /** The last position of c in s, or -1. */
  function LastIndex(s: string, c: char): (i: int)
    ensures -1 <= i < |s|
    ensures i >= 0 ==> s[i] == c
    ensures forall k :: i < k < |s| ==> s[k] != c
  {
    if s == "" then -1 else if s[|s| - 1] == c then |s| - 1 else LastIndex(s[..|s| - 1], c)
  }

  /** Where a long text is cut: at the last line break within `max`, or the last space, or at `max`. */
  function BreakAt(content: string, max: nat): (i: nat)
    requires |content| > max
    ensures i <= max
  {
    var line, space := LastIndex(content[..max], '\n'), LastIndex(content[..max], ' ');
    if line >= 0 then line else if space >= 0 then space else max
  }

  function Truncate(content: string, max: nat): string {
    if |content| <= max then content
    else
      var i := BreakAt(content, max);
      content[..i] + "...(truncated, " + Decimal(|content| - i) + " chars omitted)"
  }

  predicate IsLongResult(m: Message) {
    IsToolResult(m) && |m.content| > TOOL_RESULT_TRUNCATE_CHARS
  }

  function Trimmed(m: Message): Message {
    if IsLongResult(m) then m.(content := Truncate(m.content, TOOL_RESULT_TRUNCATE_CHARS)) else m
  }

  function TrimAll(s: seq<Message>): (r: seq<Message>)
    ensures |r| == |s| && forall i :: 0 <= i < |s| ==> r[i] == Trimmed(s[i])
  {
    if s == [] then [] else TrimAll(s[..|s| - 1]) + [Trimmed(s[|s| - 1])]
  }

  /** How many questions a stretch of a conversation holds. */
  function Questions(s: seq<Message>): nat {
    if s == [] then 0 else Questions(s[1..]) + if IsQuestion(s[0]) then 1 else 0
  }

  /** The last position up to i that starts a stretch of `KEEP_RECENT_TURNS` questions, or none: the whole length. */
  function ScanBack(m: seq<Message>, i: nat): nat
    requires i < |m|
  {
    if i == 0 then |m|
    else if IsQuestion(m[i]) && Questions(m[i..]) >= KEEP_RECENT_TURNS then i
    else ScanBack(m, i - 1)
  }

  function Min(a: nat, b: nat): nat {
    if a <= b then a else b
  }

  function Max(a: nat, b: nat): nat {
    if a <= b then b else a
  }

  /** Where the protected tail starts. */
  function Boundary(m: seq<Message>): (b: nat)
    requires m != []
    ensures 1 <= b <= |m|
  {
    Max(Min(ScanBack(m, |m| - 1), |m| - 1), 1)
  }

  /** Subtraction of 64-bit words, which wraps. */
  function WordSub(a: nat, b: nat): nat {
    if a >= b then a - b else (a - b) % WORD
  }

  /** A conversation and the size the passes believe it has. */
  datatype Draft = Draft(messages: seq<Message>, size: nat)

  function TrimSize(size: nat, s: seq<Message>): nat {
    if s == [] then size
    else
      var before, m := TrimSize(size, s[..|s| - 1]), s[|s| - 1];
      if IsLongResult(m) then SaturatingSub(before, WordSub(|m.content|, |Trimmed(m).content|)) else before
  }

  datatype Kind = ToolResults | FromAssistant | FromUser

  predicate IsOf(m: Message, kind: Kind) {
    match kind
    case ToolResults => IsToolResult(m)
    case FromAssistant => m.role == Assistant
    case FromUser => m.role == User
  }

  function Without(s: seq<Message>, kind: Kind): seq<Message> {
    if s == [] then []
    else Without(s[..|s| - 1], kind) + if IsOf(s[|s| - 1], kind) then [] else [s[|s| - 1]]
  }

  function OnlyOf(s: seq<Message>, kind: Kind): seq<Message> {
    if s == [] then []
    else OnlyOf(s[..|s| - 1], kind) + if IsOf(s[|s| - 1], kind) then [s[|s| - 1]] else []
  }

  function TrimPass(d: Draft, b: nat): (r: Draft)
    requires 1 <= b <= |d.messages|
    ensures |r.messages| == |d.messages| && r.messages[0] == d.messages[0]
  {
    var m := d.messages;
    Draft(m[..1] + TrimAll(m[1..b]) + m[b..], TrimSize(d.size, m[1..b]))
  }

  function DropPass(d: Draft, kind: Kind, b: nat): (r: Draft)
    requires 1 <= b <= |d.messages|
    ensures r.messages != [] && r.messages[0] == d.messages[0]
  {
    var m := d.messages;
    Draft(m[..1] + Without(m[1..b], kind) + m[b..], SaturatingSub(d.size, CharSize(OnlyOf(m[1..b], kind))))
  }

  function Shorten(m: Message): Message {
    if m.role == System && |m.content| > SYSTEM_TRUNCATE_CHARS then
      m.(content := Truncate(m.content, SYSTEM_TRUNCATE_CHARS))
    else m
  }

  /** The result of pruning, pass by pass, each taken only while the believed size exceeds `max`. */
  function Pruned(m: seq<Message>, max: nat): seq<Message> {
    if m == [] || CharSize(m) <= max then m
    else AfterTrim(TrimPass(Draft(m, CharSize(m)), Boundary(m)), Boundary(m), max)
  }

  function AfterTrim(d: Draft, b: nat, max: nat): seq<Message>
    requires 1 <= b <= |d.messages|
  {
    if d.size <= max then d.messages else AfterTools(DropPass(d, ToolResults, b), max)
  }

  function AfterTools(d: Draft, max: nat): seq<Message>
    requires d.messages != []
  {
    if d.size <= max then d.messages else AfterReplies(DropPass(d, FromAssistant, Boundary(d.messages)), max)
  }

  function AfterReplies(d: Draft, max: nat): seq<Message>
    requires d.messages != []
  {
    if d.size <= max then d.messages else AfterQuestions(DropPass(d, FromUser, Boundary(d.messages)), max)
  }

  /** The last resort: cutting a system prompt. */
  function AfterQuestions(d: Draft, max: nat): seq<Message>
    requires d.messages != []
  {
    if d.size <= max then d.messages else [Shorten(d.messages[0])] + d.messages[1..]
  }

  /** The positions from lo to hi of the messages of a kind. */
  function Positions(m: seq<Message>, kind: Kind, lo: nat, hi: nat): (ps: seq<nat>)
    requires lo <= hi <= |m|
    ensures forall k :: 0 <= k < |ps| ==> lo <= ps[k] < hi
    ensures forall j, k :: 0 <= j < k < |ps| ==> ps[j] < ps[k]
  {
    if lo == hi then []
    else Positions(m, kind, lo, hi - 1) + if IsOf(m[hi - 1], kind) then [hi - 1] else []
  }

  function RemoveAt(d: Draft, i: nat): Draft
    requires i < |d.messages|
  {
    Draft(d.messages[..i] + d.messages[i + 1..], SaturatingSub(d.size, Weight(d.messages[i])))
  }

  ghost predicate Ascending(ps: seq<nat>, n: nat) {
    && (forall k :: 0 <= k < |ps| ==> ps[k] < n)
    && (forall j, k :: 0 <= j < k < |ps| ==> ps[j] < ps[k])
  }

  /** Removal from the back, which keeps the positions in front valid. */
  ghost function RemoveFromBack(d: Draft, ps: seq<nat>): Draft
    requires Ascending(ps, |d.messages|)
    decreases |ps|
  {
    if ps == [] then d else RemoveFromBack(RemoveAt(d, ps[|ps| - 1]), ps[..|ps| - 1])
  }

  lemma PositionsDepend(m: seq<Message>, m': seq<Message>, kind: Kind, lo: nat, hi: nat)
    requires lo <= hi <= |m| && hi <= |m'| && m[..hi] == m'[..hi]
    ensures Positions(m, kind, lo, hi) == Positions(m', kind, lo, hi)
  {
    if lo < hi {
      assert m[..hi - 1] == m[..hi][..hi - 1] == m'[..hi - 1];
      assert m[hi - 1] == m[..hi][hi - 1] == m'[hi - 1];
      PositionsDepend(m, m', kind, lo, hi - 1);
    }
  }

  lemma FilterStep(m: seq<Message>, kind: Kind, lo: nat, hi: nat)
    requires lo < hi <= |m|
    ensures var x := m[hi - 1];
            && Without(m[lo..hi], kind) == Without(m[lo..hi - 1], kind) + (if IsOf(x, kind) then [] else [x])
            && CharSize(OnlyOf(m[lo..hi], kind))
            == CharSize(OnlyOf(m[lo..hi - 1], kind)) + if IsOf(x, kind) then Weight(x) else 0
  {
    assert m[lo..hi][..hi - lo - 1] == m[lo..hi - 1] && m[lo..hi][hi - lo - 1] == m[hi - 1];
    WeightOfOneMore(OnlyOf(m[lo..hi - 1], kind), m[hi - 1]);
    if IsOf(m[hi - 1], kind) {
      assert OnlyOf(m[lo..hi], kind) == OnlyOf(m[lo..hi - 1], kind) + [m[hi - 1]];
    } else {
      assert OnlyOf(m[lo..hi], kind) == OnlyOf(m[lo..hi - 1], kind);
    }
  }

  lemma WeightOfOneMore(s: seq<Message>, x: Message)
    ensures CharSize(s + [x]) == CharSize(s) + Weight(x)
  {
    assert (s + [x])[..|s|] == s;
  }

  lemma RemoveLast(d: Draft, kind: Kind, lo: nat, hi: nat)
    requires lo < hi <= |d.messages| && IsOf(d.messages[hi - 1], kind)
    ensures var e := RemoveAt(d, hi - 1);
            && e.messages[..hi - 1] == d.messages[..hi - 1] && e.messages[hi - 1..] == d.messages[hi..]
            && RemoveFromBack(d, Positions(d.messages, kind, lo, hi))
            == RemoveFromBack(e, Positions(e.messages, kind, lo, hi - 1))
  {
    var m, ps, e := d.messages, Positions(d.messages, kind, lo, hi), RemoveAt(d, hi - 1);
    assert ps[..|ps| - 1] == Positions(m, kind, lo, hi - 1);
    PositionsDepend(m, e.messages, kind, lo, hi - 1);
  }

  lemma RemovalBegins(d: Draft, ps: seq<nat>, b: nat)
    requires forall k :: 0 <= k < |ps| ==> ps[k] < b <= |d.messages|
    requires forall j, k :: 0 <= j < k < |ps| ==> ps[j] < ps[k]
    ensures ps[..|ps|] == ps && Ascending(ps, |d.messages|)
  {
  }

  lemma RemovalStep(d: Draft, ps: seq<nat>)
    requires ps != [] && Ascending(ps, |d.messages|)
    ensures var i, rest := ps[|ps| - 1], ps[..|ps| - 1];
            && i < |d.messages| && Ascending(rest, |d.messages| - 1)
            && RemoveFromBack(d, ps) == RemoveFromBack(RemoveAt(d, i), rest)
  {
  }

  lemma RemovalEnds(d: Draft)
    ensures Ascending([], |d.messages|) && RemoveFromBack(d, []) == d
  {
  }

  ghost function Filtered(d: Draft, kind: Kind, lo: nat, hi: nat): Draft
    requires lo <= hi <= |d.messages|
  {
    Draft(d.messages[..lo] + Without(d.messages[lo..hi], kind) + d.messages[hi..],
          SaturatingSub(d.size, CharSize(OnlyOf(d.messages[lo..hi], kind))))
  }

  lemma CutOut(m: seq<Message>, lo: nat, hi: nat)
    requires lo < hi <= |m|
    ensures var e := m[..hi - 1] + m[hi..];
            e[..lo] == m[..lo] && e[lo..hi - 1] == m[lo..hi - 1] && e[hi - 1..] == m[hi..]
  {
  }

  lemma Regroup(a: seq<Message>, w: seq<Message>, x: Message, t: seq<Message>)
    ensures a + (w + [x]) + t == a + w + ([x] + t)
  {
  }

  lemma FilteredStep(d: Draft, kind: Kind, lo: nat, hi: nat)
    requires lo < hi <= |d.messages|
    ensures Filtered(d, kind, lo, hi)
         == Filtered(if IsOf(d.messages[hi - 1], kind) then RemoveAt(d, hi - 1) else d, kind, lo, hi - 1)
  {
    hide Without, OnlyOf, CharSize, IsOf, Weight;
    var m := d.messages;
    var x := m[hi - 1];
    FilterStep(m, kind, lo, hi);
    if IsOf(x, kind) {
      CutOut(m, lo, hi);
    } else {
      Regroup(m[..lo], Without(m[lo..hi - 1], kind), x, m[hi..]);
      assert m[hi - 1..] == [x] + m[hi..];
    }
  }

  lemma FilteredNothing(d: Draft, kind: Kind, lo: nat)
    requires lo <= |d.messages|
    ensures Filtered(d, kind, lo, lo) == RemoveFromBack(d, Positions(d.messages, kind, lo, lo)) == d
  {
    var m := d.messages;
    assert m == m[..lo] + [] + m[lo..];
  }

  lemma NoneToRemove(m: seq<Message>, kind: Kind, lo: nat, hi: nat)
    requires lo < hi <= |m| && !IsOf(m[hi - 1], kind)
    ensures Positions(m, kind, lo, hi) == Positions(m, kind, lo, hi - 1)
  {
  }

  /** Removing one position after the other from the back amounts to filtering the stretch. */
  lemma {:induction false} RemovalIsDrop(d: Draft, kind: Kind, lo: nat, hi: nat)
    requires lo <= hi <= |d.messages|
    ensures RemoveFromBack(d, Positions(d.messages, kind, lo, hi)) == Filtered(d, kind, lo, hi)
    decreases hi
  {
    hide Filtered, IsOf, RemoveFromBack, Positions;
    if lo == hi {
      FilteredNothing(d, kind, lo);
    } else {
      FilteredStep(d, kind, lo, hi);
      if IsOf(d.messages[hi - 1], kind) {
        RemoveLast(d, kind, lo, hi);
        RemovalIsDrop(RemoveAt(d, hi - 1), kind, lo, hi - 1);
      } else {
        NoneToRemove(d.messages, kind, lo, hi);
        RemovalIsDrop(d, kind, lo, hi - 1);
      }
    }
  }

  lemma TrimNothing(m: seq<Message>, size: nat)
    requires m != []
    ensures m == m[..1] + TrimAll(m[1..1]) + m[1..] && size == TrimSize(size, m[1..1])
  {
  }

  lemma ReplaceNext(m: seq<Message>, done: seq<Message>, i: nat, x: Message)
    requires 1 <= i < |m| && |done| == i - 1
    ensures (m[..1] + done + m[i..])[i] == m[i]
    ensures (m[..1] + done + m[i..])[i := x] == m[..1] + (done + [x]) + m[i + 1..]
  {
  }

  lemma TrimOneMore(front: seq<Message>, x: Message, size: nat)
    ensures TrimAll(front + [x]) == TrimAll(front) + [Trimmed(x)]
    ensures TrimSize(size, front + [x])
         == if IsLongResult(x)
            then SaturatingSub(TrimSize(size, front), WordSub(|x.content|, |Trimmed(x).content|))
            else TrimSize(size, front)
  {
    assert (front + [x])[..|front|] == front;
    hide Trimmed, IsLongResult, SaturatingSub, WordSub;
  }

  lemma TrimStep(m: seq<Message>, i: nat, size: nat)
    requires 1 <= i < |m|
    ensures var done := m[..1] + TrimAll(m[1..i]) + m[i..];
            && done[i] == m[i]
            && done[i := Trimmed(m[i])] == m[..1] + TrimAll(m[1..i + 1]) + m[i + 1..]
    ensures TrimSize(size, m[1..i + 1])
         == if IsLongResult(m[i])
            then SaturatingSub(TrimSize(size, m[1..i]), WordSub(|m[i].content|, |Trimmed(m[i]).content|))
            else TrimSize(size, m[1..i])
  {
    hide TrimAll, TrimSize, Trimmed, IsLongResult, SaturatingSub, WordSub;
    assert m[1..i + 1] == m[1..i] + [m[i]];
    TrimOneMore(m[1..i], m[i], size);
    ReplaceNext(m, TrimAll(m[1..i]), i, Trimmed(m[i]));
  }

  /** The conversation of an agent, pruned in place. */
  class Conversation {
    var messages: seq<Message>

    constructor (messages: seq<Message>)
      ensures this.messages == messages
    {
      this.messages := messages;
    }

    method FindProtectedBoundary() returns (b: nat)
      requires messages != []
      ensures b == Boundary(messages)
    {
      var count, boundary := 0, |messages|;
      var i := |messages| - 1;
      while i >= 1
        invariant 0 <= i < |messages|
        invariant count == Questions(messages[i + 1..]) < KEEP_RECENT_TURNS
        invariant boundary == |messages|
        invariant ScanBack(messages, |messages| - 1) == ScanBack(messages, i)
      {
        assert messages[i..][0] == messages[i] && messages[i..][1..] == messages[i + 1..];
        if messages[i].role == User && !IsToolResult(messages[i]) {
          count := count + 1;
          if count >= KEEP_RECENT_TURNS {
            boundary := i;
            break;
          }
        }
        i := i - 1;
      }
      b := Max(Min(boundary, |messages| - 1), 1);
    }

    /** The first pass: cuts the tool results before b and returns the new size. */
    method TruncateOld(b: nat, size: nat) returns (newSize: nat)
      requires 1 <= b <= |messages|
      modifies this
      ensures Draft(messages, newSize) == TrimPass(Draft(old(messages), size), b)
    {
      hide TrimAll, TrimSize, Truncate, IsToolResult;
      newSize := size;
      ghost var m := messages;
      assert messages == m[..1] + TrimAll(m[1..1]) + m[1..] && newSize == TrimSize(size, m[1..1]) by {
        TrimNothing(m, size);
      }
      for i := 1 to b
        invariant messages == m[..1] + TrimAll(m[1..i]) + m[i..]
        invariant newSize == TrimSize(size, m[1..i])
      {
        TrimStep(m, i, size);
        var msg := messages[i];
        if IsToolResult(msg) && |msg.content| > TOOL_RESULT_TRUNCATE_CHARS {
          var cut := Truncate(msg.content, TOOL_RESULT_TRUNCATE_CHARS);
          messages := messages[i := msg.(content := cut)];
          newSize := SaturatingSub(newSize, WordSub(|msg.content|, |cut|));
        }
      }
    }

    method PositionsOf(kind: Kind, b: nat) returns (indices: seq<nat>)
      requires 1 <= b <= |messages|
      ensures indices == Positions(messages, kind, 1, b)
    {
      hide IsOf;
      indices := [];
      for i := 1 to b
        invariant indices == Positions(messages, kind, 1, i)
      {
        if IsOf(messages[i], kind) {
          indices := indices + [i];
        }
      }
    }

    /** The later passes: removes the messages of one kind before b, back to front, and returns the new size. */
    method DropOld(kind: Kind, b: nat, size: nat) returns (newSize: nat)
      requires 1 <= b <= |messages|
      modifies this
      ensures Draft(messages, newSize) == DropPass(Draft(old(messages), size), kind, b)
    {
      hide IsOf, Without, OnlyOf, CharSize, Weight, SaturatingSub, RemoveFromBack, Ascending, Positions;
      var indices := PositionsOf(kind, b);
      newSize := size;
      ghost var d := Draft(messages, size);
      RemovalIsDrop(d, kind, 1, b);
      RemovalBegins(d, indices, b);
      for j := |indices| downto 0
        invariant Ascending(indices[..j], |messages|)
        invariant RemoveFromBack(Draft(messages, newSize), indices[..j]) == RemoveFromBack(d, indices)
      {
        RemovalStep(Draft(messages, newSize), indices[..j + 1]);
        assert indices[..j + 1][..j] == indices[..j];
        var i := indices[j];
        newSize := SaturatingSub(newSize, Weight(messages[i]));
        messages := messages[..i] + messages[i + 1..];
      }
      RemovalEnds(Draft(messages, newSize));
    }

    method Prune(max: nat)
      modifies this
      ensures messages == Pruned(old(messages), max)
    {
      hide TrimPass, DropPass, Boundary, CharSize, Truncate;
      if messages == [] || CharSize(messages) <= max {
        return;
      }
      var b := FindProtectedBoundary();
      var size := TruncateOld(b, CharSize(messages));
      if size <= max {
        return;
      }
      size := DropOld(ToolResults, b, size);
      if size <= max {
        return;
      }
      b := FindProtectedBoundary();
      size := DropOld(FromAssistant, b, size);
      if size <= max {
        return;
      }
      b := FindProtectedBoundary();
      size := DropOld(FromUser, b, size);
      if size > max && messages != [] && messages[0].role == System {
        if |messages[0].content| > SYSTEM_TRUNCATE_CHARS {
          messages := messages[0 := messages[0].(content := Truncate(messages[0].content, SYSTEM_TRUNCATE_CHARS))];
        }
      }
    }
  }
}
