/**
 Markdown normalization: unify newlines, strip outer newlines, and collapse runs of blank lines outside fenced
 code. A fence opens at the start of a line with three or more backticks or tildes, whatever follows them, and
 closes at any later line that starts with at least as many of the same character.
 */
module Markdown {
  import opened Prelude

  datatype Fence = Fence(mark: char, length: nat)

  /** The length of the run of `c` at the start of the line. */
  function RunLength(line: string, c: char): (n: nat)
    ensures n <= |line|
  {
    if line != [] && line[0] == c then 1 + RunLength(line[1..], c) else 0
  }

  /** The fence pattern at the start of a line. */
  function FenceOf(line: string): Option<Fence> {
    if RunLength(line, '`') >= 3 then Some(Fence('`', RunLength(line, '`')))
    else if RunLength(line, '~') >= 3 then Some(Fence('~', RunLength(line, '~')))
    else None
  }

  predicate Closes(line: string, open: Fence) {
    var f := FenceOf(line);
    f.Some? && f.value.mark == open.mark && f.value.length >= open.length
  }

  /** The fence in force after a line. */
  function NextFence(fence: Option<Fence>, line: string): Option<Fence> {
    if fence.Some? then (if Closes(line, fence.value) then None else fence) else FenceOf(line)
  }

  /** The line is blank and outside every fence. */
  predicate Gap(fence: Option<Fence>, line: string) {
    fence.None? && line == ""
  }

  /** What the loop keeps of the remaining lines, given the open fence and whether a blank line precedes. */
  function Collapse(lines: seq<string>, fence: Option<Fence>, blank: bool): seq<string> {
    if lines == [] then []
    else
      var gap := Gap(fence, lines[0]);
      var rest := Collapse(lines[1..], NextFence(fence, lines[0]), gap);
      if gap && blank then rest else [lines[0]] + rest
  }

  /** The same from line `k` on. */
  function CollapseFrom(lines: seq<string>, k: nat, fence: Option<Fence>, blank: bool): seq<string>
    requires k <= |lines|
    decreases |lines| - k
  {
    if k == |lines| then []
    else Kept(lines[k], fence, blank) + CollapseFrom(lines, k + 1, NextFence(fence, lines[k]), Gap(fence, lines[k]))
  }

  function Kept(line: string, fence: Option<Fence>, blank: bool): seq<string> {
    if Gap(fence, line) && blank then [] else [line]
  }

  lemma {:induction false} CollapseFromIs(lines: seq<string>, k: nat, fence: Option<Fence>, blank: bool)
    requires k <= |lines|
    ensures CollapseFrom(lines, k, fence, blank) == Collapse(lines[k..], fence, blank)
    decreases |lines| - k
  {
    if k < |lines| {
      CollapseFromIs(lines, k + 1, NextFence(fence, lines[k]), Gap(fence, lines[k]));
      assert lines[k..][1..] == lines[k + 1..];
    }
  }

  // ---------- Text and lines ----------

  function UnifyCrLf(s: string): string {
    if s == [] then []
    else if |s| >= 2 && s[0] == '\r' && s[1] == '\n' then ['\n'] + UnifyCrLf(s[2..])
    else [s[0]] + UnifyCrLf(s[1..])
  }

  function UnifyCr(s: string): string {
    if s == [] then [] else [if s[0] == '\r' then '\n' else s[0]] + UnifyCr(s[1..])
  }

  function TrimStart(s: string): string {
    if s != [] && s[0] == '\n' then TrimStart(s[1..]) else s
  }

  function TrimEnd(s: string): string {
    if s != [] && s[|s| - 1] == '\n' then TrimEnd(s[..|s| - 1]) else s
  }

  function Split(s: string): (lines: seq<string>)
    ensures lines != []
  {
    if s == [] then [""]
    else
      var rest := Split(s[1..]);
      if s[0] == '\n' then [""] + rest else [[s[0]] + rest[0]] + rest[1..]
  }

  function Join(lines: seq<string>): string {
    if lines == [] then ""
    else if |lines| == 1 then lines[0]
    else lines[0] + "\n" + Join(lines[1..])
  }

  function Unified(text: string): string {
    TrimEnd(TrimStart(UnifyCr(UnifyCrLf(text))))
  }

  function Normalized(text: string): string {
    Join(Collapse(Split(Unified(text)), None, false))
  }

  /** `_normalize_markdown` */
  method NormalizeMarkdown(text: string) returns (r: string)
    ensures r == Normalized(text)
    ensures var was := Split(Unified(text)); Split(r) == Survivors(was, |was|)
  {
    NormalizeKeepsContent(text);
    var lines := Split(Unified(text));
    var out := CollapseLines(lines);
    r := Join(out);
  }

  /** The loop body: what is kept of the line, and the state after it. */
  method NextLine(line: string, fence: Option<Fence>, blankRun: nat)
    returns (kept: seq<string>, fence': Option<Fence>, blankRun': nat)
    requires fence.Some? ==> blankRun == 0
    ensures kept == Kept(line, fence, blankRun > 0)
    ensures fence' == NextFence(fence, line) && (blankRun' > 0 <==> Gap(fence, line))
  {
    kept, fence', blankRun' := [line], fence, 0;
    if fence.Some? {
      if Closes(line, fence.value) { fence' := None; }
    } else if FenceOf(line).Some? {
      fence' := FenceOf(line);
    } else if line == "" {
      blankRun' := blankRun + 1;
      if blankRun' > 1 { kept := []; }
    }
  }

  /** The loop of `_normalize_markdown`. */
  method CollapseLines(lines: seq<string>) returns (out: seq<string>)
    ensures out == Collapse(lines, None, false) && out == Survivors(lines, |lines|)
  {
    out := [];
    var fence: Option<Fence> := None;
    var blankRun: nat := 0;
    ghost var all := CollapseFrom(lines, 0, None, false);
    for k := 0 to |lines|
      invariant fence.Some? ==> blankRun == 0
      invariant out + CollapseFrom(lines, k, fence, blankRun > 0) == all
    {
      ghost var rest := CollapseFrom(lines, k + 1, NextFence(fence, lines[k]), Gap(fence, lines[k]));
      var kept;
      kept, fence, blankRun := NextLine(lines[k], fence, blankRun);
      Regroup(out, kept, rest);
      out := out + kept;
    }
    CollapseFromIs(lines, 0, None, false);
    CollapseIsSurvivors(lines);
    assert lines[0..] == lines;
  }

  lemma Regroup(a: seq<string>, b: seq<string>, c: seq<string>)
    ensures a + (b + c) == (a + b) + c
  {
  }

  // ---------- Collapsing lines ----------

  lemma {:induction false} CollapseIdempotent(lines: seq<string>, fence: Option<Fence>, blank: bool)
    ensures Collapse(Collapse(lines, fence, blank), fence, blank) == Collapse(lines, fence, blank)
  {
    if lines != [] {
      var gap := Gap(fence, lines[0]);
      var next := NextFence(fence, lines[0]);
      CollapseIdempotent(lines[1..], next, gap);
      if !(gap && blank) {
        assert Collapse(lines, fence, blank)[1..] == Collapse(lines[1..], next, gap);
      }
    }
  }

  /** The open fence before line `k`. */
  function FenceBefore(lines: seq<string>, fence: Option<Fence>, k: nat): Option<Fence>
    requires k <= |lines|
  {
    if k == 0 then fence else FenceBefore(lines[1..], NextFence(fence, lines[0]), k - 1)
  }

  /** Two blank lines in a row outside every fence, the first possibly just before the lines. */
  ghost predicate DoubleGap(lines: seq<string>, fence: Option<Fence>, blank: bool, k: nat)
    requires k < |lines|
  {
    && Gap(FenceBefore(lines, fence, k), lines[k])
    && (if k == 0 then blank else Gap(FenceBefore(lines, fence, k - 1), lines[k - 1]))
  }

  lemma DoubleGapTail(lines: seq<string>, fence: Option<Fence>, blank: bool, k: nat)
    requires 0 < k < |lines|
    ensures DoubleGap(lines, fence, blank, k)
            <==> DoubleGap(lines[1..], NextFence(fence, lines[0]), Gap(fence, lines[0]), k - 1)
  {
  }

  /** Collapsing changes nothing exactly when no two blank lines are adjacent outside fences. */
  lemma {:induction false} CollapseFixedIff(lines: seq<string>, fence: Option<Fence>, blank: bool)
    ensures Collapse(lines, fence, blank) == lines <==> forall k: nat :: k < |lines| ==> !DoubleGap(lines, fence, blank, k)
  {
    if lines != [] {
      var gap := Gap(fence, lines[0]);
      var next := NextFence(fence, lines[0]);
      CollapseFixedIff(lines[1..], next, gap);
      CollapseNotLonger(lines[1..], next, gap);
      forall k: nat | 0 < k < |lines|
        ensures DoubleGap(lines, fence, blank, k) <==> DoubleGap(lines[1..], next, gap, k - 1)
      {
        DoubleGapTail(lines, fence, blank, k);
      }
      assert DoubleGap(lines, fence, blank, 0) <==> gap && blank;
      if gap && blank {
        assert |Collapse(lines, fence, blank)| < |lines|;
      } else {
        assert Collapse(lines, fence, blank)[1..] == Collapse(lines[1..], next, gap);
        assert lines == [lines[0]] + lines[1..];
        if k: nat :| k < |lines[1..]| && DoubleGap(lines[1..], next, gap, k) {
          assert DoubleGap(lines, fence, blank, k + 1);
        }
      }
    }
  }

  lemma {:induction false} CollapseNotLonger(lines: seq<string>, fence: Option<Fence>, blank: bool)
    ensures |Collapse(lines, fence, blank)| <= |lines|
  {
    if lines != [] {
      CollapseNotLonger(lines[1..], NextFence(fence, lines[0]), Gap(fence, lines[0]));
    }
  }

  /** A line that is kept for certain, with whether blank lines outside fences come right before it. */
  datatype Item = Item(text: string, spaced: bool)

  /** All lines inside fences and all non-blank lines, in order, each with its spacing. */
  function Shape(lines: seq<string>, fence: Option<Fence>, blank: bool): seq<Item> {
    if lines == [] then []
    else
      var gap := Gap(fence, lines[0]);
      var rest := Shape(lines[1..], NextFence(fence, lines[0]), gap);
      if gap then rest else [Item(lines[0], blank)] + rest
  }

  function EndsSpaced(lines: seq<string>, fence: Option<Fence>, blank: bool): bool {
    if lines == [] then blank else EndsSpaced(lines[1..], NextFence(fence, lines[0]), Gap(fence, lines[0]))
  }

  function Spacing(b: bool): seq<string> {
    if b then [""] else []
  }

  function Render(items: seq<Item>, end: bool): seq<string> {
    if items == [] then Spacing(end)
    else Spacing(items[0].spaced) + [items[0].text] + Render(items[1..], end)
  }

  /** Collapsing is laying out the shape with single blank lines. */
  lemma {:induction false} CollapseIsRendering(lines: seq<string>, fence: Option<Fence>, blank: bool)
    ensures Spacing(blank) + Collapse(lines, fence, blank)
            == Render(Shape(lines, fence, blank), EndsSpaced(lines, fence, blank))
  {
    if lines != [] {
      var gap := Gap(fence, lines[0]);
      CollapseIsRendering(lines[1..], NextFence(fence, lines[0]), gap);
      if !gap {
        assert Shape(lines, fence, blank)[1..] == Shape(lines[1..], NextFence(fence, lines[0]), gap);
      }
    }
  }

  /** The shape survives: no fenced or non-blank line is lost, changed or moved, and no spacing appears or vanishes. */
  lemma {:induction false} CollapseKeepsShape(lines: seq<string>, fence: Option<Fence>, blank: bool)
    ensures var c := Collapse(lines, fence, blank);
            Shape(c, fence, blank) == Shape(lines, fence, blank) && EndsSpaced(c, fence, blank) == EndsSpaced(lines, fence, blank)
  {
    if lines != [] {
      var gap := Gap(fence, lines[0]);
      var next := NextFence(fence, lines[0]);
      CollapseKeepsShape(lines[1..], next, gap);
      if !(gap && blank) {
        assert Collapse(lines, fence, blank)[1..] == Collapse(lines[1..], next, gap);
      }
    }
  }

  /** A canonical form: two documents collapse to the same lines exactly when they have the same shape. */
  lemma CollapseCanonicalIff(a: seq<string>, b: seq<string>)
    ensures Collapse(a, None, false) == Collapse(b, None, false)
            <==> Shape(a, None, false) == Shape(b, None, false) && EndsSpaced(a, None, false) == EndsSpaced(b, None, false)
  {
    CollapseKeepsShape(a, None, false);
    CollapseKeepsShape(b, None, false);
    CollapseIsRendering(a, None, false);
    CollapseIsRendering(b, None, false);
    assert Spacing(false) + Collapse(a, None, false) == Collapse(a, None, false);
    assert Spacing(false) + Collapse(b, None, false) == Collapse(b, None, false);
  }

  // ---------- Newlines ----------

  lemma {:induction false} UnifyRemovesCr(s: string)
    ensures '\r' !in UnifyCr(s) && |UnifyCr(s)| == |s|
    ensures '\r' !in s ==> UnifyCr(s) == s
  {
    if s != [] {
      UnifyRemovesCr(s[1..]);
    }
  }

  lemma {:induction false} UnifyCrLfShrinks(s: string)
    ensures |UnifyCrLf(s)| <= |s|
    ensures '\r' !in s ==> UnifyCrLf(s) == s
  {
    if |s| >= 2 && s[0] == '\r' && s[1] == '\n' {
      UnifyCrLfShrinks(s[2..]);
    } else if s != [] {
      UnifyCrLfShrinks(s[1..]);
    }
  }

  /** No carriage return and no newline at either end. */
  predicate Clean(s: string) {
    '\r' !in s && (s != [] ==> s[0] != '\n' && s[|s| - 1] != '\n')
  }

  lemma {:induction false} TrimStartClears(s: string)
    ensures |TrimStart(s)| <= |s| && (forall c :: c in TrimStart(s) ==> c in s)
    ensures TrimStart(s) != [] ==> TrimStart(s)[0] != '\n'
  {
    if s != [] && s[0] == '\n' {
      TrimStartClears(s[1..]);
    }
  }

  lemma {:induction false} TrimEndClears(s: string)
    ensures TrimEnd(s) <= s
    ensures TrimEnd(s) != [] ==> TrimEnd(s)[|TrimEnd(s)| - 1] != '\n'
  {
    if s != [] && s[|s| - 1] == '\n' {
      TrimEndClears(s[..|s| - 1]);
    }
  }

  lemma UnifiedFixed(text: string)
    requires Clean(text)
    ensures Unified(text) == text
  {
    UnifyCrLfShrinks(text);
    UnifyRemovesCr(text);
  }

  lemma UnifiedClean(text: string)
    ensures Clean(Unified(text)) && |Unified(text)| <= |text|
    ensures Unified(text) == text <==> Clean(text)
  {
    var u := UnifyCr(UnifyCrLf(text));
    UnifyCrLfShrinks(text);
    UnifyRemovesCr(UnifyCrLf(text));
    TrimmedClean(u);
    if Clean(text) {
      UnifiedFixed(text);
    }
  }

  lemma TrimmedClean(u: string)
    requires '\r' !in u
    ensures Clean(TrimEnd(TrimStart(u))) && |TrimEnd(TrimStart(u))| <= |u|
  {
    TrimStartClears(u);
    TrimEndClears(TrimStart(u));
  }

  // ---------- Splitting and joining ----------

  ghost predicate NoneHolds(lines: seq<string>, c: char) {
    forall i :: 0 <= i < |lines| ==> c !in lines[i]
  }

  lemma ConsLine(c: char, line: string, tail: string)
    ensures ([c] + line) + "\n" + tail == [c] + (line + "\n" + tail)
  {
  }

  /** Reading one more character of the first line. */
  lemma JoinCons(c: char, first: string, t: seq<string>)
    ensures Join([[c] + first] + t) == [c] + Join([first] + t)
  {
    assert ([[c] + first] + t)[1..] == t && ([first] + t)[1..] == t;
    ConsLine(c, first, Join(t));
  }

  lemma JoinNewline(lines: seq<string>)
    requires lines != []
    ensures Join([""] + lines) == "\n" + Join(lines)
  {
    assert ([""] + lines)[1..] == lines;
  }

  lemma {:induction false} JoinSplit(s: string)
    ensures Join(Split(s)) == s
  {
    if s != [] {
      JoinSplit(s[1..]);
      var rest := Split(s[1..]);
      JoinCons(s[0], rest[0], rest[1..]);
      JoinNewline(rest);
      assert rest == [rest[0]] + rest[1..];
      assert s == [s[0]] + s[1..];
    }
  }

  /** Lines hold no newline and no character the text does not hold. */
  lemma {:induction false} SplitFree(s: string, c: char)
    requires c == '\n' || c !in s
    ensures NoneHolds(Split(s), c)
  {
    if s != [] {
      SplitFree(s[1..], c);
    }
  }

  /** Reading a first line back. */
  lemma {:induction false} SplitLine(line: string, tail: string)
    requires '\n' !in line
    ensures Split(line) == [line]
    ensures Split(line + "\n" + tail) == [line] + Split(tail)
  {
    if line == [] {
      assert line + "\n" + tail == "\n" + tail;
      assert ("\n" + tail)[1..] == tail;
    } else {
      SplitLine(line[1..], tail);
      var s := line + "\n" + tail;
      assert s[1..] == line[1..] + "\n" + tail;
      assert line == [line[0]] + line[1..];
    }
  }

  lemma {:induction false} SplitJoin(lines: seq<string>)
    requires lines != [] && NoneHolds(lines, '\n')
    ensures Split(Join(lines)) == lines
  {
    SplitLine(lines[0], Join(lines[1..]));
    if |lines| > 1 {
      SplitJoin(lines[1..]);
    } else {
      assert lines == [lines[0]];
    }
  }

  /** Characters plus one separator per line. */
  function Weight(lines: seq<string>): nat {
    if lines == [] then 0 else |lines[0]| + 1 + Weight(lines[1..])
  }

  lemma {:induction false} JoinLength(lines: seq<string>)
    requires lines != []
    ensures |Join(lines)| + 1 == Weight(lines)
  {
    if |lines| > 1 {
      JoinLength(lines[1..]);
    }
  }

  lemma {:induction false} CollapseWeight(lines: seq<string>, fence: Option<Fence>, blank: bool)
    ensures Weight(Collapse(lines, fence, blank)) <= Weight(lines)
  {
    if lines != [] {
      var gap := Gap(fence, lines[0]);
      CollapseWeight(lines[1..], NextFence(fence, lines[0]), gap);
      if !(gap && blank) {
        assert Collapse(lines, fence, blank)[1..] == Collapse(lines[1..], NextFence(fence, lines[0]), gap);
      }
    }
  }

  lemma {:induction false} CollapseFree(lines: seq<string>, fence: Option<Fence>, blank: bool, c: char)
    requires NoneHolds(lines, c)
    ensures NoneHolds(Collapse(lines, fence, blank), c)
  {
    if lines != [] {
      CollapseFree(lines[1..], NextFence(fence, lines[0]), Gap(fence, lines[0]), c);
    }
  }

  lemma {:induction false} CollapseEnds(lines: seq<string>, fence: Option<Fence>, blank: bool)
    requires lines != [] && lines[|lines| - 1] != ""
    ensures var c := Collapse(lines, fence, blank); c != [] && c[|c| - 1] == lines[|lines| - 1]
  {
    if |lines| > 1 {
      CollapseEnds(lines[1..], NextFence(fence, lines[0]), Gap(fence, lines[0]));
    }
  }

  lemma {:induction false} JoinEnds(lines: seq<string>)
    requires lines != [] && lines[0] != "" && lines[|lines| - 1] != ""
    ensures var s := Join(lines); s != [] && s[0] == lines[0][0] && s[|s| - 1] == lines[|lines| - 1][|lines[|lines| - 1]| - 1]
  {
    if |lines| > 1 {
      JoinLast(lines);
    }
  }

  lemma {:induction false} JoinLast(lines: seq<string>)
    requires lines != [] && lines[|lines| - 1] != ""
    ensures var s := Join(lines); s != [] && s[|s| - 1] == lines[|lines| - 1][|lines[|lines| - 1]| - 1]
  {
    if |lines| > 1 {
      JoinLast(lines[1..]);
    }
  }

  lemma {:induction false} SplitEnds(s: string)
    requires s != []
    ensures s[0] != '\n' ==> Split(s)[0] != ""
    ensures s[|s| - 1] != '\n' ==> Split(s)[|Split(s)| - 1] != ""
  {
    if |s| > 1 {
      SplitEnds(s[1..]);
    }
  }

  lemma {:induction false} JoinFree(lines: seq<string>, c: char)
    requires NoneHolds(lines, c) && c != '\n'
    ensures c !in Join(lines)
  {
    if |lines| > 1 {
      JoinFree(lines[1..], c);
    }
  }

  // ---------- Fences and surplus lines, read off the document ----------

  /** The line starts with `n` times `c`. */
  ghost predicate StartsWith(line: string, c: char, n: nat) {
    n <= |line| && forall i :: 0 <= i < n ==> line[i] == c
  }

  lemma {:induction false} RunLengthIff(line: string, c: char, n: nat)
    ensures n <= RunLength(line, c) <==> StartsWith(line, c, n)
  {
    if n > 0 && line != [] && line[0] == c {
      RunLengthIff(line[1..], c, n - 1);
      var t := line[1..];
      if StartsWith(t, c, n - 1) {
        forall i | 0 <= i < n ensures line[i] == c {
          assert i > 0 ==> line[i] == t[i - 1];
        }
      }
    }
  }

  /** The line opens a fence: its run of one of the two marks, of three at least, is that long. */
  ghost predicate Opener(line: string, c: char, n: nat) {
    (c == '`' || c == '~') && n >= 3 && StartsWith(line, c, n) && !StartsWith(line, c, n + 1)
  }

  lemma FenceOfIff(line: string, c: char, n: nat)
    ensures FenceOf(line) == Some(Fence(c, n)) <==> Opener(line, c, n)
  {
    RunLengthIff(line, c, n);
    RunLengthIff(line, c, n + 1);
    RunLengthIff(line, '`', 3);
    RunLengthIff(line, '~', 3);
    if StartsWith(line, c, n) && n >= 3 {
      assert line[0] == c;
    }
  }

  /** A fence is closed exactly by a line that repeats its mark at least as often, trailing text or not. */
  lemma ClosesIff(line: string, c: char, n: nat)
    requires n >= 3 && (c == '`' || c == '~')
    ensures Closes(line, Fence(c, n)) <==> StartsWith(line, c, n)
  {
    RunLengthIff(line, c, n);
    RunLengthIff(line, '`', 3);
    if StartsWith(line, c, n) {
      assert line[0] == c;
    }
  }

  /** Line `i` opens a fence that no line before `k` closes. */
  ghost predicate LeftOpen(lines: seq<string>, i: nat, k: nat, c: char, n: nat)
    requires i < k <= |lines|
  {
    Opener(lines[i], c, n) && forall j :: i < j < k ==> !StartsWith(lines[j], c, n)
  }

  /** Line `k` is fenced: some line that is not itself fenced left a fence open. */
  ghost predicate Inside(lines: seq<string>, k: nat)
    requires k <= |lines|
    decreases k
  {
    exists i: nat, c, n: nat :: i < k && LeftOpen(lines, i, k, c, n) && !Inside(lines, i)
  }

  ghost predicate OpenSince(lines: seq<string>, i: nat, k: nat, c: char, n: nat)
    requires k <= |lines|
  {
    i < k && LeftOpen(lines, i, k, c, n) && !Inside(lines, i)
  }

  lemma {:induction false} FenceBeforeNext(lines: seq<string>, fence: Option<Fence>, k: nat)
    requires k < |lines|
    ensures FenceBefore(lines, fence, k + 1) == NextFence(FenceBefore(lines, fence, k), lines[k])
  {
    if k > 0 {
      FenceBeforeNext(lines[1..], NextFence(fence, lines[0]), k - 1);
    }
  }

  /** The loop's fence is the one that the document's own lines leave open. */
  lemma {:induction false} FenceOpenIff(lines: seq<string>, k: nat, c: char, n: nat)
    requires k <= |lines|
    ensures FenceBefore(lines, None, k) == Some(Fence(c, n)) <==> exists i: nat :: OpenSince(lines, i, k, c, n)
    decreases k, 0
  {
    if k > 0 {
      var b := FenceBefore(lines, None, k - 1);
      FenceBeforeNext(lines, None, k - 1);
      InsideIff(lines, k - 1);
      FenceOpenIff(lines, k - 1, c, n);
      FenceOfIff(lines[k - 1], c, n);
      if FenceBefore(lines, None, k) == Some(Fence(c, n)) {
        if b.None? {
          assert OpenSince(lines, k - 1, k, c, n);
        } else {
          var i: nat :| OpenSince(lines, i, k - 1, c, n);
          ClosesIff(lines[k - 1], c, n);
          assert OpenSince(lines, i, k, c, n);
        }
      }
      if i: nat :| OpenSince(lines, i, k, c, n) {
        if i < k - 1 {
          assert OpenSince(lines, i, k - 1, c, n);
          ClosesIff(lines[k - 1], c, n);
        }
      }
    }
  }

  lemma {:induction false} InsideIff(lines: seq<string>, k: nat)
    requires k <= |lines|
    ensures FenceBefore(lines, None, k).Some? <==> Inside(lines, k)
    decreases k, 1
  {
    var b := FenceBefore(lines, None, k);
    if b.Some? {
      FenceOpenIff(lines, k, b.value.mark, b.value.length);
    }
    if Inside(lines, k) {
      var i: nat, c, n: nat :| i < k && LeftOpen(lines, i, k, c, n) && !Inside(lines, i);
      assert OpenSince(lines, i, k, c, n);
      FenceOpenIff(lines, k, c, n);
    }
  }

  /** A blank line right after a blank line, outside fenced code. */
  ghost predicate Surplus(lines: seq<string>, k: nat)
    requires k < |lines|
  {
    k > 0 && lines[k] == "" && lines[k - 1] == "" && !Inside(lines, k)
  }

  /** The first `k` lines without the surplus ones. */
  ghost function Survivors(lines: seq<string>, k: nat): seq<string>
    requires k <= |lines|
  {
    if k == 0 then [] else Survivors(lines, k - 1) + (if Surplus(lines, k - 1) then [] else [lines[k - 1]])
  }

  /** A blank line neither opens nor closes a fence, so the two of a pair are outside together. */
  lemma DoubleGapIsSurplus(lines: seq<string>, k: nat)
    requires k < |lines|
    ensures DoubleGap(lines, None, false, k) <==> Surplus(lines, k)
  {
    InsideIff(lines, k);
    if k > 0 {
      FenceBeforeNext(lines, None, k - 1);
    }
  }

  /** Line `k` is blank outside every fence. */
  function GapAt(lines: seq<string>, k: nat): bool
    requires k < |lines|
  {
    Gap(FenceBefore(lines, None, k), lines[k])
  }

  lemma {:induction false} SurvivorsFrom(lines: seq<string>, k: nat)
    requires k <= |lines|
    ensures Survivors(lines, |lines|)
            == Survivors(lines, k) + CollapseFrom(lines, k, FenceBefore(lines, None, k), k > 0 && GapAt(lines, k - 1))
    decreases |lines| - k
  {
    if k < |lines| {
      SurvivorsFrom(lines, k + 1);
      FenceBeforeNext(lines, None, k);
      DoubleGapIsSurplus(lines, k);
      var fence, blank := FenceBefore(lines, None, k), k > 0 && GapAt(lines, k - 1);
      var rest := CollapseFrom(lines, k + 1, NextFence(fence, lines[k]), GapAt(lines, k));
      assert Survivors(lines, k + 1) == Survivors(lines, k) + Kept(lines[k], fence, blank);
      Regroup(Survivors(lines, k), Kept(lines[k], fence, blank), rest);
    }
  }

  /** Collapsing removes exactly the surplus lines and keeps every other line, in order. */
  lemma CollapseIsSurvivors(lines: seq<string>)
    ensures Collapse(lines, None, false) == Survivors(lines, |lines|)
  {
    SurvivorsFrom(lines, 0);
    CollapseFromIs(lines, 0, None, false);
    assert lines[0..] == lines;
  }

  // ---------- Line breaks and outer newlines, read off the text ----------

  /** One newline per carriage return, and none for a line feed right after one. */
  function Breaks(s: string, afterCr: bool): string {
    if s == [] then []
    else (if s[0] == '\r' then "\n" else if s[0] == '\n' && afterCr then "" else [s[0]]) + Breaks(s[1..], s[0] == '\r')
  }

  /** The two replacements together turn every line break into one newline. */
  lemma {:induction false} UnifyIsBreaks(s: string)
    ensures UnifyCr(UnifyCrLf(s)) == Breaks(s, false)
  {
    if |s| >= 2 && s[0] == '\r' && s[1] == '\n' {
      UnifyIsBreaks(s[2..]);
      assert s[1..][1..] == s[2..];
      assert Breaks(s[1..], true) == Breaks(s[2..], false);
      assert UnifyCrLf(s)[1..] == UnifyCrLf(s[2..]);
    } else if s != [] {
      UnifyIsBreaks(s[1..]);
      assert UnifyCrLf(s)[1..] == UnifyCrLf(s[1..]);
      assert Breaks(s[1..], s[0] == '\r') == Breaks(s[1..], false);
    }
  }

  ghost predicate Newlines(s: string) {
    forall i :: 0 <= i < |s| ==> s[i] == '\n'
  }

  lemma {:induction false} TrimStartPart(s: string) returns (i: nat)
    ensures i <= |s| && Newlines(s[..i]) && TrimStart(s) == s[i..]
  {
    i := 0;
    if s != [] && s[0] == '\n' {
      var k := TrimStartPart(s[1..]);
      i := k + 1;
      assert s[..i] == [s[0]] + s[1..][..k];
    }
  }

  lemma {:induction false} TrimEndPart(s: string) returns (k: nat)
    ensures k <= |s| && Newlines(s[k..]) && TrimEnd(s) == s[..k]
  {
    k := |s|;
    if s != [] && s[|s| - 1] == '\n' {
      var t := s[..|s| - 1];
      k := TrimEndPart(t);
      assert s[k..] == t[k..] + [s[|s| - 1]];
    }
  }

  /** Trimming takes newlines off both ends and nothing else. */
  lemma TrimPart(u: string) returns (front: string, back: string)
    ensures u == front + TrimEnd(TrimStart(u)) + back && Newlines(front) && Newlines(back)
  {
    var i := TrimStartPart(u);
    var t := u[i..];
    var k := TrimEndPart(t);
    front, back := u[..i], t[k..];
    assert t == t[..k] + back;
    assert u == front + t;
  }

  /** Unifying removes nothing but the newlines at both ends of the text with its line breaks unified. */
  lemma UnifiedIsPart(text: string) returns (front: string, back: string)
    ensures Breaks(text, false) == front + Unified(text) + back && Newlines(front) && Newlines(back)
  {
    UnifyIsBreaks(text);
    front, back := TrimPart(UnifyCr(UnifyCrLf(text)));
  }

  // ---------- Theorems ----------

  /** The lines of a normalized text are the collapsed lines, and it is clean. */
  lemma NormalizedLines(text: string)
    ensures Split(Normalized(text)) == Collapse(Split(Unified(text)), None, false)
    ensures Clean(Normalized(text))
  {
    var u := Unified(text);
    var lines := Split(u);
    var c := Collapse(lines, None, false);
    UnifiedClean(text);
    SplitFree(u, '\n');
    SplitFree(u, '\r');
    CollapseFree(lines, None, false, '\n');
    CollapseFree(lines, None, false, '\r');
    assert c != [] && c[0] == lines[0];
    SplitJoin(c);
    JoinFree(c, '\r');
    if u == [] {
      assert Join([""]) == "";
    } else {
      SplitEnds(u);
      CollapseEnds(lines, None, false);
      JoinEnds(c);
      LineEnds(c);
    }
  }

  /** Lines hold no newline, so neither do the ends of a text that starts and ends with a line. */
  lemma LineEnds(lines: seq<string>)
    requires lines != [] && NoneHolds(lines, '\n') && lines[0] != "" && lines[|lines| - 1] != ""
    ensures lines[0][0] != '\n' && lines[|lines| - 1][|lines[|lines| - 1]| - 1] != '\n'
  {
  }

  lemma NormalizeIdempotent(text: string)
    ensures Normalized(Normalized(text)) == Normalized(text)
  {
    NormalizedLines(text);
    UnifiedClean(Normalized(text));
    CollapseIdempotent(Split(Unified(text)), None, false);
  }

  lemma NormalizeNotLonger(text: string)
    ensures |Normalized(text)| <= |text|
  {
    var lines := Split(Unified(text));
    UnifiedClean(text);
    JoinSplit(Unified(text));
    CollapseWeight(lines, None, false);
    JoinLength(lines);
    JoinLength(Collapse(lines, None, false));
  }

  /** Exactly which texts are already normal: no carriage return, no outer newline, no surplus line. */
  lemma NormalizeFixedIff(text: string)
    ensures Normalized(text) == text <==>
            && Clean(text)
            && forall k: nat :: k < |Split(text)| ==> !Surplus(Split(text), k)
  {
    NormalizedLines(text);
    UnifiedClean(text);
    JoinSplit(text);
    if Clean(text) {
      CollapseFixedIff(Split(text), None, false);
      forall k: nat | k < |Split(text)| ensures DoubleGap(Split(text), None, false, k) <==> Surplus(Split(text), k) {
        DoubleGapIsSurplus(Split(text), k);
      }
    }
  }

  /**
   Nothing but outer newlines and surplus lines goes: the lines of the result are the other lines of the text, in
   order, and none of them is surplus any more.
   */
  lemma NormalizeKeepsContent(text: string)
    ensures var lines, was := Split(Normalized(text)), Split(Unified(text));
            && lines == Survivors(was, |was|)
            && Shape(lines, None, false) == Shape(was, None, false)
            && forall k: nat :: k < |lines| ==> !Surplus(lines, k)
  {
    NormalizedLines(text);
    CollapseKeepsShape(Split(Unified(text)), None, false);
    CollapseIsSurvivors(Split(Unified(text)));
    NormalizeIdempotent(text);
    NormalizeFixedIff(Normalized(text));
  }
}
