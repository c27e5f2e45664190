/** Wrapping with character splitting and a line cap (scripts/render-digital-product-kit.py). A word
    that does not fit goes back on the work list, so the loop needs a measure of its own. */
module CharacterWrap {
  import opened Options
  import opened PythonText
  import opened Totals

  type Width = string -> int

  // ---------------------------------------------------------------- cutting one word

  datatype Cut = Cut(lines: seq<string>, last: string)

  /** Cuts the characters of `word`, continuing the chunk `chunk`, into chunks that are a single
      character or fit. */
  function CutWord(width: Width, maximum: int, word: string, chunk: string): Cut {
    if word == "" then Cut([], chunk)
    else
      var candidate := chunk + [word[0]];
      if chunk != "" && width(candidate) > maximum then
        var rest := CutWord(width, maximum, word[1..], [word[0]]);
        Cut([chunk] + rest.lines, rest.last)
      else
        CutWord(width, maximum, word[1..], candidate)
  }

  lemma {:induction false} CutKeepsCharacters(width: Width, maximum: int, word: string, chunk: string)
    requires word != "" || chunk != ""
    ensures var cut := CutWord(width, maximum, word, chunk);
      && Flatten(cut.lines) + cut.last == chunk + word && cut.last != ""
      && forall i :: 0 <= i < |cut.lines| ==> cut.lines[i] != ""
  {
    if word != "" {
      var rest := CutWord(width, maximum, word[1..], [word[0]]);
      if chunk != "" && width(chunk + [word[0]]) > maximum {
        CutKeepsCharacters(width, maximum, word[1..], [word[0]]);
        FlattenCons(chunk, rest.lines);
        assert chunk + word == chunk + ([word[0]] + word[1..]);
      } else {
        CutKeepsCharacters(width, maximum, word[1..], chunk + [word[0]]);
        assert chunk + word == (chunk + [word[0]]) + word[1..];
      }
    }
  }

  /** Every single character of `s` fits. */
  ghost predicate CharactersFit(width: Width, maximum: int, s: string) {
    forall c :: c in s ==> width([c]) <= maximum
  }

  lemma {:induction false} CutFits(width: Width, maximum: int, word: string, chunk: string)
    requires CharactersFit(width, maximum, word)
    requires chunk != "" ==> width(chunk) <= maximum
    requires word != "" || chunk != ""
    ensures var cut := CutWord(width, maximum, word, chunk);
      && width(cut.last) <= maximum
      && forall i :: 0 <= i < |cut.lines| ==> width(cut.lines[i]) <= maximum
  {
    if word != "" {
      assert width([word[0]]) <= maximum;
      if chunk != "" && width(chunk + [word[0]]) > maximum {
        CutFits(width, maximum, word[1..], [word[0]]);
      } else {
        assert chunk == "" ==> chunk + [word[0]] == [word[0]];
        CutFits(width, maximum, word[1..], chunk + [word[0]]);
      }
    }
  }

  // ---------------------------------------------------------------- the loop as a function

  function Measure(words: seq<string>, current: string): nat {
    2 * |words| + if current == "" then 0 else 1
  }

  /** The lines still to come when there is no cap. */
  function Uncapped(width: Width, maximum: int, words: seq<string>, current: string): seq<string>
    requires AllWords(words)
    decreases Measure(words, current)
  {
    if words == [] then (if current == "" then [] else [current])
    else
      var candidate := Strip(current + " " + words[0]);
      if width(candidate) <= maximum then Uncapped(width, maximum, words[1..], candidate)
      else if current != "" then [current] + Uncapped(width, maximum, words, "")
      else
        var cut := CutWord(width, maximum, words[0], "");
        cut.lines + Uncapped(width, maximum, words[1..], cut.last)
  }

  /** Where the loop stops: closed lines, the open line, and the words not reached. */
  datatype Stop = Stop(lines: seq<string>, current: string, words: seq<string>)

  function Run(width: Width, maximum: int, cap: nat, from: Stop): (to: Stop)
    requires AllWords(from.words)
    ensures AllWords(to.words)
    decreases Measure(from.words, from.current)
  {
    if from.words == [] then from
    else
      var candidate := Strip(from.current + " " + from.words[0]);
      if width(candidate) <= maximum then
        Run(width, maximum, cap, Stop(from.lines, candidate, from.words[1..]))
      else
        var next := if from.current != "" then Stop(from.lines + [from.current], "", from.words)
                    else
                      var cut := CutWord(width, maximum, from.words[0], "");
                      Stop(from.lines + cut.lines, cut.last, from.words[1..]);
        if |next.lines| >= cap then next else Run(width, maximum, cap, next)
  }

  /** Removes characters from the end until `text + "..."` fits. */
  function TrimToFit(width: Width, maximum: int, text: string): string {
    if text != "" && width(text + "...") > maximum
    then TrimToFit(width, maximum, DropTrailingSpace(text[..|text| - 1]))
    else text
  }

  function Ellipsize(width: Width, maximum: int, value: string): string {
    var text := SafeText(value, 500);
    if width(text) <= maximum then text
    else TrimToFit(width, maximum, text) + "..."
  }

  /** What is returned from where the loop stopped. */
  function Finish(width: Width, maximum: int, cap: nat, stop: Stop): seq<string> {
    var lines := if stop.current != "" && |stop.lines| < cap then stop.lines + [stop.current] else stop.lines;
    var n := |lines| - 1;
    var remaining := stop.words != []
      || (stop.current != "" && |lines| >= cap && (lines == [] || lines[n] != stop.current));
    var marked := if remaining && lines != [] then lines[n := Ellipsize(width, maximum, lines[n] + " ...")] else lines;
    var kept := if |marked| <= cap then marked else marked[..cap];
    if kept == [] then [""] else kept
  }

  function Wrapped(width: Width, maximum: int, cap: nat, value: string): seq<string> {
    Finish(width, maximum, cap, Run(width, maximum, cap, Stop([], "", Split(SafeText(value, 1000)))))
  }

  /** With a cap of zero, `lines[-1]` is looked at although no line was closed. */
  predicate LooksAtMissingLine(cap: nat, stop: Stop) {
    cap == 0 && stop.lines == [] && stop.words == [] && stop.current != ""
  }

  predicate RaisesIndexError(width: Width, maximum: int, cap: nat, value: string) {
    LooksAtMissingLine(cap, Run(width, maximum, cap, Stop([], "", Split(SafeText(value, 1000)))))
  }

  // ---------------------------------------------------------------- the code, step by step

  method CutIntoChunks(width: Width, word: string, maximum: int) returns (lines: seq<string>, chunk: string)
    ensures Cut(lines, chunk) == CutWord(width, maximum, word, "")
  {
    lines, chunk := [], "";
    for i := 0 to |word|
      invariant var rest := CutWord(width, maximum, word[i..], chunk);
        CutWord(width, maximum, word, "") == Cut(lines + rest.lines, rest.last)
    {
      var candidate := chunk + [word[i]];
      assert word[i..][1..] == word[i + 1..];
      if chunk != "" && width(candidate) > maximum {
        lines := lines + [chunk];
        chunk := [word[i]];
      } else {
        chunk := candidate;
      }
    }
  }

  method EllipsizeLine(width: Width, value: string, maximum: int) returns (r: string)
    ensures r == Ellipsize(width, maximum, value)
  {
    var text := SafeText(value, 500);
    if width(text) <= maximum { return text; }
    ghost var start := text;
    while text != "" && width(text + "...") > maximum
      invariant TrimToFit(width, maximum, start) == TrimToFit(width, maximum, text)
      decreases |text|
    {
      text := DropTrailingSpace(text[..|text| - 1]);
    }
    r := if text != "" then text + "..." else "...";
  }

  /** The main loop. `words` is the work list; a word that does not fit behind the open line is put back. */
  method FillLines(width: Width, value: string, maximum: int, cap: nat) returns (stop: Stop)
    ensures stop == Run(width, maximum, cap, Stop([], "", Split(SafeText(value, 1000))))
  {
    var words := Split(SafeText(value, 1000));
    var lines: seq<string> := [];
    var current := "";
    ghost var begin := Stop(lines, current, words);
    while words != []
      invariant AllWords(words)
      invariant Run(width, maximum, cap, begin) == Run(width, maximum, cap, Stop(lines, current, words))
      decreases Measure(words, current)
    {
      var word := words[0];
      words := words[1..];
      var candidate := Strip(current + " " + word);
      if width(candidate) <= maximum {
        current := candidate;
        continue;
      }
      if current != "" {
        lines := lines + [current];
        current := "";
        words := [word] + words;
      } else {
        var chunks, chunk := CutIntoChunks(width, word, maximum);
        lines := lines + chunks;
        current := chunk;
      }
      if |lines| >= cap { return Stop(lines, current, words); }
    }
    stop := Stop(lines, current, words);
  }

  /** What follows the loop; `None` is the index error. */
  method FinishLines(width: Width, maximum: int, cap: nat, stop: Stop) returns (r: Option<seq<string>>)
    ensures r == if LooksAtMissingLine(cap, stop) then None else Some(Finish(width, maximum, cap, stop))
  {
    var lines := stop.lines;
    if stop.current != "" && |lines| < cap {
      lines := lines + [stop.current];
    }
    var remaining := stop.words != [];
    if !remaining && stop.current != "" && |lines| >= cap {
      if lines == [] { return None; }
      remaining := lines[|lines| - 1] != stop.current;
    }
    if remaining && lines != [] {
      var marked := EllipsizeLine(width, lines[|lines| - 1] + " ...", maximum);
      lines := lines[|lines| - 1 := marked];
    }
    lines := if |lines| <= cap then lines else lines[..cap];
    r := Some(if lines == [] then [""] else lines);
  }

  /** `wrapped_lines`. */
  method WrappedLines(width: Width, value: string, maximum: int, cap: nat) returns (r: Option<seq<string>>)
    ensures r == if RaisesIndexError(width, maximum, cap, value) then None
        else Some(Wrapped(width, maximum, cap, value))
  {
    var stop := FillLines(width, value, maximum, cap);
    r := FinishLines(width, maximum, cap, stop);
  }

  /** The test `fitted_wrapped_font` makes at each size. */
  function KeepsLimit(widthAt: int -> Width, maximum: int, limit: nat, value: string): int -> bool {
    (size: int) => |Wrapped(widthAt(size), maximum, 1000, value)| <= limit
  }

  /** The size search: the first size whose lines keep to the limit, else the smallest size, capped. */
  method FitWrappedFont(widthAt: int -> Width, value: string, maximum: int, limit: nat, starting: int, smallest: int)
    returns (size: int, lines: Option<seq<string>>)
    ensures smallest <= size <= starting || size == smallest
    ensures var keeps := KeepsLimit(widthAt, maximum, limit, value);
      && (forall s :: size < s <= starting ==> !keeps(s))
      && lines == if size <= starting && keeps(size) then Some(Wrapped(widthAt(size), maximum, 1000, value))
                  else if RaisesIndexError(widthAt(size), maximum, limit, value) then None
                  else Some(Wrapped(widthAt(size), maximum, limit, value))
  {
    ghost var keeps := KeepsLimit(widthAt, maximum, limit, value);
    size := starting;
    while size >= smallest
      invariant size <= starting
      invariant smallest - 1 <= size || size == starting
      invariant forall s :: size < s <= starting ==> !keeps(s)
    {
      var wrapped := WrappedLines(widthAt(size), value, maximum, 1000);
      assert keeps(size) <==> |wrapped.value| <= limit;
      if |wrapped.value| <= limit { return size, wrapped; }
      size := size - 1;
    }
    size := smallest;
    lines := WrappedLines(widthAt(size), value, maximum, limit);
  }

  // ---------------------------------------------------------------- what the uncapped lines hold

  lemma CandidateKeepsNonSpace(current: string, word: string)
    requires IsWord(word)
    ensures NonSpace(Strip(current + " " + word)) == NonSpace(current) + word
  {
    StripKeepsNonSpace(current + " " + word);
    NonSpaceAroundSpace(current, word);
    NonSpaceOfWord(word);
  }

  lemma FirstLineNonSpace(line: string, rest: seq<string>)
    ensures NonSpace(Flatten([line] + rest)) == NonSpace(line) + NonSpace(Flatten(rest))
  {
    FlattenCons(line, rest);
    NonSpaceConcat(line, Flatten(rest));
  }

  lemma SpliceNonSpace(closed: string, open: string, word: string, tail: string, rest: string)
    requires closed + open == word && IsWord(word)
    requires NonSpace(tail) == NonSpace(open) + rest
    ensures NonSpace(closed + tail) == word + rest
  {
    NonSpaceConcat(closed, tail);
    NonSpaceConcat(closed, open);
    NonSpaceOfWord(word);
    ConcatAssociates(NonSpace(closed), NonSpace(open), rest);
  }

  lemma CutWordKeepsCharacters(width: Width, maximum: int, word: string, tail: seq<string>, rest: string)
    requires IsWord(word)
    requires NonSpace(Flatten(tail)) == NonSpace(CutWord(width, maximum, word, "").last) + rest
    ensures NonSpace(Flatten(CutWord(width, maximum, word, "").lines + tail)) == word + rest
  {
    var cut := CutWord(width, maximum, word, "");
    CutKeepsCharacters(width, maximum, word, "");
    assert "" + word == word;
    FlattenConcat(cut.lines, tail);
    SpliceNonSpace(Flatten(cut.lines), cut.last, word, Flatten(tail), rest);
  }

  /** Uncapped lines hold exactly the non-space characters of the words, in order. */
  lemma {:induction false} UncappedKeepsCharacters(width: Width, maximum: int, words: seq<string>, current: string)
    requires AllWords(words)
    ensures NonSpace(Flatten(Uncapped(width, maximum, words, current))) == NonSpace(current) + Flatten(words)
    decreases Measure(words, current)
  {
    if words == [] {
      if current != "" { FirstLineNonSpace(current, []); }
    } else {
      var word, rest := words[0], words[1..];
      assert words == [word] + rest;
      FlattenCons(word, rest);
      var candidate := Strip(current + " " + word);
      if width(candidate) <= maximum {
        CandidateKeepsNonSpace(current, word);
        UncappedKeepsCharacters(width, maximum, rest, candidate);
        ConcatAssociates(NonSpace(current), word, Flatten(rest));
      } else if current != "" {
        UncappedKeepsCharacters(width, maximum, words, "");
        FirstLineNonSpace(current, Uncapped(width, maximum, words, ""));
        assert NonSpace("") + Flatten(words) == Flatten(words);
      } else {
        var last := CutWord(width, maximum, word, "").last;
        UncappedKeepsCharacters(width, maximum, rest, last);
        CutWordKeepsCharacters(width, maximum, word, Uncapped(width, maximum, rest, last), Flatten(rest));
      }
    }
  }

  /** Every uncapped line fits, if every single character does. */
  lemma {:induction false} UncappedFits(width: Width, maximum: int, words: seq<string>, current: string)
    requires AllWords(words)
    requires forall i :: 0 <= i < |words| ==> CharactersFit(width, maximum, words[i])
    requires current != "" ==> width(current) <= maximum
    ensures forall i :: 0 <= i < |Uncapped(width, maximum, words, current)| ==>
              width(Uncapped(width, maximum, words, current)[i]) <= maximum
    decreases Measure(words, current)
  {
    if words != [] {
      var candidate := Strip(current + " " + words[0]);
      if width(candidate) <= maximum {
        UncappedFits(width, maximum, words[1..], candidate);
      } else if current != "" {
        UncappedFits(width, maximum, words, "");
      } else {
        CutFits(width, maximum, words[0], "");
        UncappedFits(width, maximum, words[1..], CutWord(width, maximum, words[0], "").last);
      }
    }
  }

  /** No more lines than characters: every uncapped line holds a character that is not whitespace. */
  lemma {:induction false} UncappedLineCount(width: Width, maximum: int, words: seq<string>, current: string)
    requires AllWords(words) && (current != "" ==> NonSpace(current) != "")
    ensures |Uncapped(width, maximum, words, current)| <= |NonSpace(current)| + |Flatten(words)|
    decreases Measure(words, current)
  {
    if words != [] {
      var word, rest := words[0], words[1..];
      assert words == [word] + rest;
      FlattenCons(word, rest);
      var candidate := Strip(current + " " + word);
      if width(candidate) <= maximum {
        CandidateKeepsNonSpace(current, word);
        UncappedLineCount(width, maximum, rest, candidate);
      } else if current != "" {
        UncappedLineCount(width, maximum, words, "");
      } else {
        var cut := CutWord(width, maximum, word, "");
        CutLineCount(width, maximum, word);
        UncappedLineCount(width, maximum, rest, cut.last);
      }
    }
  }

  lemma CutLineCount(width: Width, maximum: int, word: string)
    requires IsWord(word)
    ensures var cut := CutWord(width, maximum, word, "");
      NonSpace(cut.last) != "" && |cut.lines| + |NonSpace(cut.last)| <= |word|
  {
    var cut := CutWord(width, maximum, word, "");
    CutKeepsCharacters(width, maximum, word, "");
    assert "" + word == word;
    NonEmptyLinesFlatten(cut.lines);
    WordSuffix(Flatten(cut.lines), cut.last, word);
  }

  lemma WordSuffix(closed: string, open: string, word: string)
    requires closed + open == word && IsWord(word)
    ensures NonSpace(open) == open
  {
    forall i | 0 <= i < |open| ensures !IsSpace(open[i]) {
      assert open[i] == word[|closed| + i];
    }
    NonSpaceOfWord(open);
  }

  lemma {:induction false} NonEmptyLinesFlatten(lines: seq<string>)
    requires forall i :: 0 <= i < |lines| ==> lines[i] != ""
    ensures |lines| <= |Flatten(lines)|
  {
    if lines != [] { NonEmptyLinesFlatten(lines[..|lines| - 1]); }
  }

  // ---------------------------------------------------------------- what the cap does

  /** The lines of the text when there is no cap. */
  function AllLines(width: Width, maximum: int, value: string): seq<string> {
    Uncapped(width, maximum, Split(SafeText(value, 1000)), "")
  }

  /** Wherever the loop stops, the closed lines and those still to come are the uncapped lines; it
      stops early only with something left. */
  lemma {:induction false} RunFollowsUncapped(width: Width, maximum: int, cap: nat, from: Stop)
    requires AllWords(from.words)
    requires |from.lines| < cap
    ensures var to := Run(width, maximum, cap, from);
      && to.lines + Uncapped(width, maximum, to.words, to.current)
         == from.lines + Uncapped(width, maximum, from.words, from.current)
      && (|to.lines| < cap ==> to.words == [])
      && (|to.lines| >= cap ==> Uncapped(width, maximum, to.words, to.current) != [])
    decreases Measure(from.words, from.current)
  {
    if from.words != [] {
      var word := from.words[0];
      var candidate := Strip(from.current + " " + word);
      if width(candidate) <= maximum {
        RunFollowsUncapped(width, maximum, cap, Stop(from.lines, candidate, from.words[1..]));
      } else if from.current != "" {
        var next := Stop(from.lines + [from.current], "", from.words);
        ConcatAssociates(from.lines, [from.current], Uncapped(width, maximum, next.words, next.current));
        UncappedIsNonEmpty(width, maximum, next.words, next.current);
        if |next.lines| < cap { RunFollowsUncapped(width, maximum, cap, next); }
      } else {
        var cut := CutWord(width, maximum, word, "");
        var next := Stop(from.lines + cut.lines, cut.last, from.words[1..]);
        ConcatAssociates(from.lines, cut.lines, Uncapped(width, maximum, next.words, next.current));
        CutKeepsCharacters(width, maximum, word, "");
        UncappedIsNonEmpty(width, maximum, next.words, next.current);
        if |next.lines| < cap { RunFollowsUncapped(width, maximum, cap, next); }
      }
    }
  }

  lemma {:induction false} UncappedIsNonEmpty(width: Width, maximum: int, words: seq<string>, current: string)
    requires AllWords(words) && (words != [] || current != "")
    ensures Uncapped(width, maximum, words, current) != []
    decreases Measure(words, current)
  {
    if words != [] {
      var candidate := Strip(current + " " + words[0]);
      if width(candidate) <= maximum {
        CandidateKeepsNonSpace(current, words[0]);
        assert candidate != "";
        UncappedIsNonEmpty(width, maximum, words[1..], candidate);
      } else if current == "" {
        CutKeepsCharacters(width, maximum, words[0], "");
        UncappedIsNonEmpty(width, maximum, words[1..], CutWord(width, maximum, words[0], "").last);
      }
    }
  }

  /** The exact effect of the cap. Within it nothing is lost. Beyond it the first `cap` lines are kept, the
      last of them shortened with " ..." behind it exactly when the loop stopped on a full page and what is
      left differs from the last line. */
  lemma CapKeepsFirstLines(width: Width, maximum: int, cap: nat, value: string)
    requires cap >= 1
    ensures var all := AllLines(width, maximum, value);
      var r := Wrapped(width, maximum, cap, value);
      var stop := Run(width, maximum, cap, Stop([], "", Split(SafeText(value, 1000))));
      if |all| <= cap then r == if all == [] then [""] else all
      else
        && |r| == cap && r[..cap - 1] == all[..cap - 1]
        && r[cap - 1] == if |stop.lines| == cap && (stop.words != [] || stop.current != all[cap - 1])
                         then Ellipsize(width, maximum, all[cap - 1] + " ...") else all[cap - 1]
  {
    var from := Stop([], "", Split(SafeText(value, 1000)));
    var stop := Run(width, maximum, cap, from);
    RunFollowsUncapped(width, maximum, cap, from);
    var all := AllLines(width, maximum, value);
    assert from.lines + all == all;
    if |stop.lines| < cap {
      FinishOpen(width, maximum, cap, stop);
    } else {
      FinishFull(width, maximum, cap, stop);
      FirstOfClosed(stop.lines, Uncapped(width, maximum, stop.words, stop.current), all, cap);
    }
  }

  lemma FirstOfClosed(closed: seq<string>, rest: seq<string>, all: seq<string>, cap: nat)
    requires 1 <= cap <= |closed| && rest != [] && closed + rest == all
    ensures |all| > cap && all[..cap - 1] == closed[..cap - 1] && all[cap - 1] == closed[cap - 1]
  {
  }

  lemma FinishOpen(width: Width, maximum: int, cap: nat, stop: Stop)
    requires |stop.lines| < cap && stop.words == []
    ensures var all := stop.lines + Uncapped(width, maximum, [], stop.current);
      |all| <= cap && Finish(width, maximum, cap, stop) == if all == [] then [""] else all
  {
    assert stop.current == "" ==> stop.lines + [] == stop.lines;
  }

  lemma FinishFull(width: Width, maximum: int, cap: nat, stop: Stop)
    requires 1 <= cap <= |stop.lines| && (stop.words != [] || stop.current != "")
    ensures var r := Finish(width, maximum, cap, stop); var last := stop.lines[cap - 1];
      && |r| == cap && r[..cap - 1] == stop.lines[..cap - 1]
      && r[cap - 1] == if |stop.lines| == cap && (stop.words != [] || stop.current != last)
                       then Ellipsize(width, maximum, last + " ...") else last
  {
  }

  /** Between one and `cap` lines come back. */
  lemma WrappedLineCount(width: Width, maximum: int, cap: nat, value: string)
    requires cap >= 1
    ensures 1 <= |Wrapped(width, maximum, cap, value)| <= cap
  {
    CapKeepsFirstLines(width, maximum, cap, value);
  }

  /** When the text's lines keep to the cap they hold exactly its non-space characters in order, and
      each fits if every single character of the text does. */
  lemma WithinCapNothingIsLost(width: Width, maximum: int, cap: nat, value: string)
    requires cap >= 1 && |AllLines(width, maximum, value)| <= cap
    ensures var text := SafeText(value, 1000);
      var r := Wrapped(width, maximum, cap, value);
      && NonSpace(Flatten(r)) == NonSpace(text)
      && (CharactersFit(width, maximum, text) && text != "" ==>
            forall i :: 0 <= i < |r| ==> width(r[i]) <= maximum)
  {
    var text := SafeText(value, 1000);
    var words := Split(text);
    CapKeepsFirstLines(width, maximum, cap, value);
    UncappedKeepsCharacters(width, maximum, words, "");
    SplitKeepsNonSpace(text);
    if AllLines(width, maximum, value) == [] {
      assert Flatten([""]) == "" by { FlattenCons("", []); assert [""] + [] == [""]; }
    }
    if CharactersFit(width, maximum, text) && text != "" {
      SafeTextHasWord(value, 1000);
      UncappedIsNonEmpty(width, maximum, words, "");
      forall i | 0 <= i < |words| ensures CharactersFit(width, maximum, words[i]) {
        SplitCharacters(text, i);
      }
      UncappedFits(width, maximum, words, "");
    }
  }

  /** The search for a font size is never disturbed by its cap of 1000 lines: a text of at most 1000
      characters has at most 1000 lines. */
  lemma SearchCapIsNeverReached(width: Width, maximum: int, value: string)
    ensures var all := AllLines(width, maximum, value);
      |all| <= 1000 && Wrapped(width, maximum, 1000, value) == if all == [] then [""] else all
  {
    var text := SafeText(value, 1000);
    UncappedLineCount(width, maximum, Split(text), "");
    SplitKeepsNonSpace(text);
    NonSpaceIsNoLonger(text);
    CapKeepsFirstLines(width, maximum, 1000, value);
  }

  /** So a size is passed over exactly if the whole text needs more lines there than the limit, one at least. */
  lemma SizeIsTooLargeIffTextOverflows(widthAt: int -> Width, maximum: int, limit: nat, value: string, size: int)
    ensures var needed := |AllLines(widthAt(size), maximum, value)|;
      !KeepsLimit(widthAt, maximum, limit, value)(size) <==> (needed > limit || limit == 0)
  {
    SearchCapIsNeverReached(widthAt(size), maximum, value);
  }
}
