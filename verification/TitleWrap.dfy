/** Word wrapping and title fitting of the storefront cover (scripts/compose-storefront-cover.py). */
module TitleWrap {
  import opened PythonText
  import opened Totals

  type Width = string -> int

  predicate Fits(width: Width, maximum: int, line: seq<string>) {
    width(Join(line)) <= maximum
  }

  /** Where the line over the first words of `words` ends, if its first `end` words are taken already. */
  function LineEnd(width: Width, maximum: int, words: seq<string>, end: nat): (e: nat)
    requires 1 <= end <= |words|
    ensures end <= e <= |words|
    ensures e < |words| ==> !Fits(width, maximum, words[..e + 1])
    ensures forall k :: end < k <= e ==> Fits(width, maximum, words[..k])
    decreases |words| - end
  {
    if end < |words| && Fits(width, maximum, words[..end + 1]) then LineEnd(width, maximum, words, end + 1)
    else end
  }

  /** Greedy lines: each takes words while the next one still fits. */
  function Wrap(width: Width, maximum: int, words: seq<string>): seq<seq<string>> {
    if words == [] then []
    else
      var e := LineEnd(width, maximum, words, 1);
      [words[..e]] + Wrap(width, maximum, words[e..])
  }

  function Render(lines: seq<seq<string>>): (r: seq<string>)
    ensures |r| == |lines|
  {
    seq(|lines|, i requires 0 <= i < |lines| => Join(lines[i]))
  }

  /** What `wrap_lines` returns. */
  function Lines(width: Width, maximum: int, value: string): seq<string> {
    if Split(value) == [] then [""] else Render(Wrap(width, maximum, Split(value)))
  }

  const LARGEST_TITLE := 58
  const SMALLEST_TITLE := 32

  /** The test `fitted_title` makes at each size. */
  function KeepsLimit(widthAt: int -> Width, maximum: int, limit: nat, value: string): int -> bool {
    (size: int) => |Lines(widthAt(size), maximum, value)| <= limit
  }

  /** `size` is the first of 58 down to 32 for which `keeps` holds, or 31 when it holds for none. */
  ghost predicate FirstSize(keeps: int -> bool, size: int) {
    && SMALLEST_TITLE - 1 <= size <= LARGEST_TITLE
    && (size >= SMALLEST_TITLE ==> keeps(size))
    && forall s :: size < s <= LARGEST_TITLE ==> !keeps(s)
  }

  // ---------------------------------------------------------------- the code, step by step

  /** After `i` words: `done` lines are closed and the open line holds the words from `start`. */
  ghost predicate Progress(width: Width, maximum: int, words: seq<string>, i: nat, start: nat, done: seq<seq<string>>) {
    && start <= i <= |words| && (i > 0 ==> start < i)
    && Wrap(width, maximum, words) == done + Wrap(width, maximum, words[start..])
    && (start < i ==> LineEnd(width, maximum, words[start..], 1) == LineEnd(width, maximum, words[start..], i - start))
  }

  lemma TakeWord(width: Width, maximum: int, words: seq<string>, i: nat, start: nat, done: seq<seq<string>>)
    requires Progress(width, maximum, words, i, start, done) && i < |words|
    requires i == 0 || Fits(width, maximum, words[start..i + 1])
    ensures Progress(width, maximum, words, i + 1, start, done)
  {
    assert words[start..][..i + 1 - start] == words[start..i + 1];
  }

  lemma CloseLine(width: Width, maximum: int, words: seq<string>, i: nat, start: nat, done: seq<seq<string>>)
    requires Progress(width, maximum, words, i, start, done) && 0 < i
    requires i < |words| ==> !Fits(width, maximum, words[start..i + 1])
    ensures Wrap(width, maximum, words) == done + [words[start..i]] + Wrap(width, maximum, words[i..])
    ensures i < |words| ==> Progress(width, maximum, words, i + 1, i, done + [words[start..i]])
  {
    if i < |words| { assert words[start..][..i + 1 - start] == words[start..i + 1]; }
    assert words[start..][..i - start] == words[start..i];
    assert words[start..][i - start..] == words[i..];
  }

  lemma NextCandidate(words: seq<string>, start: nat, i: nat)
    requires AllWords(words) && start <= i < |words|
    ensures Strip(Join(words[start..i]) + " " + words[i]) == Join(words[start..i + 1])
    ensures Join(words[i..i + 1]) == words[i]
    ensures Join(words[start..i]) == "" <==> start == i
  {
    StripAppendsWord(words[start..i], words[i]);
    assert words[start..i] + [words[i]] == words[start..i + 1];
    if start < i { JoinNonEmpty(words[start..i]); }
  }

  lemma RenderSnoc(done: seq<seq<string>>, line: seq<string>)
    ensures Render(done + [line]) == Render(done) + [Join(line)]
  {
  }

  /** The loop over the words, with the last line appended. */
  method WrapWords(width: Width, words: seq<string>, maximum: int) returns (lines: seq<string>)
    requires AllWords(words)
    ensures lines == Render(Wrap(width, maximum, words))
  {
    lines := [];
    var current := "";
    ghost var done, start: nat := [], 0;
    for i := 0 to |words|
      invariant Progress(width, maximum, words, i, start, done)
      invariant current == Join(words[start..i])
      invariant lines == Render(done)
    {
      var word := words[i];
      var candidate := Strip(current + " " + word);
      NextCandidate(words, start, i);
      if current == "" || width(candidate) <= maximum {
        TakeWord(width, maximum, words, i, start, done);
        current := candidate;
      } else {
        CloseLine(width, maximum, words, i, start, done);
        RenderSnoc(done, words[start..i]);
        lines := lines + [current];
        current := word;
        done, start := done + [words[start..i]], i;
      }
    }
    if |words| > 0 {
      JoinNonEmpty(words[start..|words|]);
      CloseLine(width, maximum, words, |words|, start, done);
      RenderSnoc(done, words[start..|words|]);
    }
    if current != "" {
      lines := lines + [current];
    }
  }

  method WrapLines(width: Width, value: string, maximum: int) returns (r: seq<string>)
    ensures r == Lines(width, maximum, value)
  {
    var lines := WrapWords(width, Split(value), maximum);
    r := if lines == [] then [""] else lines;
  }

  method FitTitle(widthAt: int -> Width, value: string, maximum: int, limit: nat)
    returns (size: int, lines: seq<string>)
    ensures FirstSize(KeepsLimit(widthAt, maximum, limit, value), size)
    ensures 31 <= size <= 58 && (size == 31 || KeepsLimit(widthAt, maximum, limit, value)(size))
    ensures forall s :: size < s <= 58 ==> |Lines(widthAt(s), maximum, value)| > limit
    ensures var all := Lines(widthAt(size), maximum, value);
      lines == if size >= SMALLEST_TITLE || |all| <= limit then all else all[..limit]
  {
    size := LARGEST_TITLE;
    while size >= SMALLEST_TITLE
      invariant SMALLEST_TITLE - 1 <= size <= LARGEST_TITLE
      invariant forall s :: size < s <= LARGEST_TITLE ==> |Lines(widthAt(s), maximum, value)| > limit
    {
      lines := WrapLines(widthAt(size), value, maximum);
      if |lines| <= limit { return; }
      size := size - 1;
    }
    lines := WrapLines(widthAt(size), value, maximum);
    lines := if limit <= |lines| then lines[..limit] else lines;
  }

  // ---------------------------------------------------------------- what it achieves

  /** An order-preserving split of the words whose lines each fit or are a single word. */
  ghost predicate ValidSplit(width: Width, maximum: int, words: seq<string>, lines: seq<seq<string>>) {
    && Flatten(lines) == words
    && forall i :: 0 <= i < |lines| ==> lines[i] != [] && (|lines[i]| == 1 || width(Join(lines[i])) <= maximum)
  }

  /** `part` is what is left of `line` after taking words off its ends, one word at least. */
  ghost predicate PartOf(part: seq<string>, line: seq<string>) {
    exists i, j :: 0 <= i < j <= |line| && part == line[i..j]
  }

  /** Taking words off either end of a line does not make it wider. */
  ghost predicate Monotone(width: Width) {
    forall part, line :: PartOf(part, line) ==> width(Join(part)) <= width(Join(line))
  }

  /** Greedy lines are a valid split, whatever the width function does. */
  lemma {:induction false} WrapIsValid(width: Width, maximum: int, words: seq<string>)
    ensures ValidSplit(width, maximum, words, Wrap(width, maximum, words))
    decreases |words|
  {
    if words != [] {
      var e := LineEnd(width, maximum, words, 1);
      WrapIsValid(width, maximum, words[e..]);
      FlattenCons(words[..e], Wrap(width, maximum, words[e..]));
      assert words == words[..e] + words[e..];
    }
  }

  /** A greedy line started inside another split's line takes words at least to that line's end. */
  lemma GreedyLineReaches(width: Width, maximum: int, words: seq<string>, ahead: nat, line: seq<string>)
    requires Monotone(width) && ahead < |words| && line <= words
    requires |line| == 1 || Fits(width, maximum, line)
    ensures |line| <= ahead + LineEnd(width, maximum, words[ahead..], 1)
  {
    forall k | 1 <= k <= |line| - ahead && |line| > 1 ensures Fits(width, maximum, words[ahead..][..k]) {
      assert words[ahead..][..k] == line[ahead..ahead + k];
      assert PartOf(words[ahead..][..k], line);
    }
  }

  lemma DropDrop<T>(s: seq<T>, i: nat, j: nat)
    requires i + j <= |s|
    ensures s[i..][j..] == s[i + j..]
  {
  }

  lemma FirstLine(width: Width, maximum: int, words: seq<string>, lines: seq<seq<string>>)
    requires ValidSplit(width, maximum, words, lines) && lines != []
    ensures 0 < |lines[0]| && lines[0] <= words
    ensures |lines[0]| == 1 || Fits(width, maximum, lines[0])
    ensures ValidSplit(width, maximum, words[|lines[0]|..], lines[1..])
  {
    assert lines == [lines[0]] + lines[1..];
    FlattenCons(lines[0], lines[1..]);
  }

  /** The greedy line that starts at `ahead`, with the words after it seen from another line's end. */
  lemma WrapFromLine(width: Width, maximum: int, words: seq<string>, ahead: nat, end: nat)
    requires ahead < |words| && end <= ahead + LineEnd(width, maximum, words[ahead..], 1)
    ensures var further := ahead + LineEnd(width, maximum, words[ahead..], 1) - end;
      && further <= |words| - end
      && |Wrap(width, maximum, words[ahead..])| == 1 + |Wrap(width, maximum, words[end..][further..])|
  {
    var e := LineEnd(width, maximum, words[ahead..], 1);
    DropDrop(words, ahead, e);
    DropDrop(words, end, ahead + e - end);
  }

  /** Greedy stays ahead: started at or after the point where another split starts, it needs no
      more lines for the remaining words. */
  lemma {:induction false} GreedyStaysAhead(width: Width, maximum: int, words: seq<string>, ahead: nat,
                                            lines: seq<seq<string>>)
    requires Monotone(width) && ahead <= |words|
    requires ValidSplit(width, maximum, words, lines)
    ensures |Wrap(width, maximum, words[ahead..])| <= |lines|
    decreases |lines|
  {
    if ahead < |words| {
      assert lines != [];
      FirstLine(width, maximum, words, lines);
      var end := |lines[0]|;
      GreedyLineReaches(width, maximum, words, ahead, lines[0]);
      WrapFromLine(width, maximum, words, ahead, end);
      GreedyStaysAhead(width, maximum, words[end..], ahead + LineEnd(width, maximum, words[ahead..], 1) - end,
        lines[1..]);
    }
  }

  /** Greedy wrapping uses the fewest lines of any valid split. */
  lemma WrapUsesFewestLines(width: Width, maximum: int, words: seq<string>, lines: seq<seq<string>>)
    requires Monotone(width) && ValidSplit(width, maximum, words, lines)
    ensures |Wrap(width, maximum, words)| <= |lines|
  {
    GreedyStaysAhead(width, maximum, words, 0, lines);
    assert words[0..] == words;
  }

  /** Joining the rendered lines gives back the text with its whitespace normalised. */
  lemma {:induction false} RenderedLinesRejoin(lines: seq<seq<string>>)
    requires forall i :: 0 <= i < |lines| ==> lines[i] != []
    ensures Join(Render(lines)) == Join(Flatten(lines))
  {
    if lines != [] {
      var rest := lines[1..];
      assert lines == [lines[0]] + rest;
      FlattenCons(lines[0], rest);
      RenderedLinesRejoin(rest);
      assert Render(lines)[1..] == Render(rest);
      if rest != [] {
        assert Flatten(rest) != [] by { FlattenCons(rest[0], rest[1..]); assert rest == [rest[0]] + rest[1..]; }
        JoinConcat(lines[0], Flatten(rest));
      } else {
        assert lines[0] + Flatten(rest) == lines[0];
      }
    }
  }

  lemma LinesRejoinToNormalisedText(width: Width, maximum: int, value: string)
    ensures Join(Lines(width, maximum, value)) == Join(Split(value))
  {
    WrapIsValid(width, maximum, Split(value));
    RenderedLinesRejoin(Wrap(width, maximum, Split(value)));
  }

  /** Some valid split of the text keeps to the line limit at this size; text without words takes one line. */
  ghost predicate Feasible(width: Width, maximum: int, limit: nat, value: string) {
    if Split(value) == [] then limit >= 1
    else exists lines :: ValidSplit(width, maximum, Split(value), lines) && |lines| <= limit
  }

  lemma LimitMetIffFeasible(width: Width, maximum: int, limit: nat, value: string)
    requires Monotone(width)
    ensures |Lines(width, maximum, value)| <= limit <==> Feasible(width, maximum, limit, value)
  {
    var words := Split(value);
    if words != [] {
      WrapIsValid(width, maximum, words);
      if Feasible(width, maximum, limit, value) {
        var lines :| ValidSplit(width, maximum, words, lines) && |lines| <= limit;
        WrapUsesFewestLines(width, maximum, words, lines);
      }
    }
  }

  ghost function SomeSplitKeeps(widthAt: int -> Width, maximum: int, limit: nat, value: string): int -> bool {
    (size: int) => Feasible(widthAt(size), maximum, limit, value)
  }

  lemma SameTestSameSize(a: int -> bool, b: int -> bool, size: int)
    requires forall s :: a(s) == b(s)
    ensures FirstSize(a, size) <==> FirstSize(b, size)
  {
  }

  lemma GreedyKeepsIffSomeSplitKeeps(widthAt: int -> Width, maximum: int, limit: nat, value: string, size: int)
    requires Monotone(widthAt(size))
    ensures KeepsLimit(widthAt, maximum, limit, value)(size) == SomeSplitKeeps(widthAt, maximum, limit, value)(size)
  {
    LimitMetIffFeasible(widthAt(size), maximum, limit, value);
  }

  /** The size found from the greedy lines is the largest of 58 down to 32 at which any valid split
      keeps to the limit, and 31 exactly when no size does. */
  lemma FittedSizeIsLargestFeasible(widthAt: int -> Width, maximum: int, limit: nat, value: string, size: int)
    requires forall s :: Monotone(widthAt(s))
    ensures FirstSize(KeepsLimit(widthAt, maximum, limit, value), size)
       <==> FirstSize(SomeSplitKeeps(widthAt, maximum, limit, value), size)
  {
    forall s ensures KeepsLimit(widthAt, maximum, limit, value)(s) ==
      SomeSplitKeeps(widthAt, maximum, limit, value)(s) {
      GreedyKeepsIffSomeSplitKeeps(widthAt, maximum, limit, value, s);
    }
    SameTestSameSize(KeepsLimit(widthAt, maximum, limit, value), SomeSplitKeeps(widthAt, maximum, limit, value), size);
  }
}
