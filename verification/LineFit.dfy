/** How full and how wide the lines of a wrapping are: words and pieces of words fill a line as far as they fit,
    and shortening stops at the longest start that fits with its dots (scripts/render-digital-product-kit.py). */
module LineFit {
  import opened CharacterMark
  import opened CharacterWrap
  import opened PythonText
  import opened Totals
  import opened TruncationMark

  // ---------------------------------------------------------------- shortening

  predicate EndsInSpace(s: string) {
    s != "" && IsSpace(s[|s| - 1])
  }

  lemma {:induction false} WhatIsDropped(s: string)
    ensures var r := DropTrailingSpace(s);
      !EndsInSpace(r) && forall i :: |r| <= i < |s| ==> IsSpace(s[i])
  {
    if EndsInSpace(s) { WhatIsDropped(s[..|s| - 1]); }
  }

  /** The starts of `text` the shortening looks at: all of it, and those that do not end in whitespace. */
  predicate IsStop(text: string, n: nat)
    requires n <= |text|
  {
    n == |text| || !EndsInSpace(text[..n])
  }

  /** One round of the shortening goes to the next start at which the code may stop. */
  lemma NextStop(text: string)
    requires text != ""
    ensures var next := DropTrailingSpace(text[..|text| - 1]);
      && next <= text && |next| < |text| && !EndsInSpace(next)
      && forall n :: |next| < n < |text| ==> EndsInSpace(text[..n])
  {
    var shorter := text[..|text| - 1];
    var next := DropTrailingSpace(shorter);
    WhatIsDropped(shorter);
    forall n | |next| < n < |text| ensures EndsInSpace(text[..n]) {
      assert text[..n][n - 1] == shorter[n - 1];
    }
  }

  /** The shortening stops at the longest start it looks at that fits with its dots, or at nothing. */
  lemma {:induction false} TrimsToLongestFit(width: Width, maximum: int, text: string)
    ensures var kept := TrimToFit(width, maximum, text);
      && kept <= text && IsStop(text, |kept|)
      && (kept == "" || width(kept + "...") <= maximum)
      && forall n :: |kept| < n <= |text| && IsStop(text, n) ==> width(text[..n] + "...") > maximum
    decreases |text|
  {
    assert text[..|text|] == text;
    if text != "" && width(text + "...") > maximum {
      var next := DropTrailingSpace(text[..|text| - 1]);
      NextStop(text);
      TrimsToLongestFit(width, maximum, next);
      var kept := TrimToFit(width, maximum, next);
      assert text[..|kept|] == next[..|kept|] == kept;
      forall n | |kept| < n <= |next| && IsStop(text, n) ensures width(text[..n] + "...") > maximum {
        assert text[..n] == next[..n];
      }
      if |kept| == |next| { assert next[..|next|] == next; }
    }
  }

  /** A shortened line. A text of at most 500 characters that fits comes back as it is. Otherwise a start of it
      comes back with three dots: it fits, unless nothing but the dots is left, and no longer start that the
      code may stop at fits. */
  lemma ShortenedToLongestFit(width: Width, maximum: int, value: string)
    ensures var text, r := SafeText(value, 500), Ellipsize(width, maximum, value);
      if width(text) <= maximum then r == text
      else
        && |r| >= 3 && r[|r| - 3..] == "..." && r[..|r| - 3] <= text && IsStop(text, |r| - 3)
        && (width(r) <= maximum || r == "...")
        && forall n :: |r| - 3 < n <= |text| && IsStop(text, n) ==> width(text[..n] + "...") > maximum
  {
    var text, r := SafeText(value, 500), Ellipsize(width, maximum, value);
    if width(text) > maximum {
      TrimsToLongestFit(width, maximum, text);
      var kept := TrimToFit(width, maximum, text);
      assert r == kept + "..." && r[..|r| - 3] == kept && r[|r| - 3..] == "...";
      assert kept == "" ==> r == "...";
    }
  }

  lemma AllLinesFit(width: Width, maximum: int, value: string)
    requires CharactersFit(width, maximum, SafeText(value, 1000)) && SafeText(value, 1000) != ""
    ensures var all := AllLines(width, maximum, value);
      all != [] && forall i :: 0 <= i < |all| ==> width(all[i]) <= maximum
  {
    var text := SafeText(value, 1000);
    var words := Split(text);
    forall i | 0 <= i < |words| ensures CharactersFit(width, maximum, words[i]) { SplitCharacters(text, i); }
    UncappedFits(width, maximum, words, "");
    SafeTextHasWord(value, 1000);
    UncappedIsNonEmpty(width, maximum, words, "");
  }

  /** Every line of a capped wrapping fits, if single characters do; the last one may be just the dots. */
  lemma CappedLinesFit(width: Width, maximum: int, cap: nat, value: string)
    requires cap >= 1 && CharactersFit(width, maximum, SafeText(value, 1000)) && SafeText(value, 1000) != ""
    ensures var r := Wrapped(width, maximum, cap, value);
      forall i :: 0 <= i < |r| ==> width(r[i]) <= maximum || (i == |r| - 1 && r[i] == "...")
  {
    var all := AllLines(width, maximum, value);
    AllLinesFit(width, maximum, value);
    ShortenedUnlessCutAcross(width, maximum, cap, value);
    if |all| > cap {
      ShortenedToLongestFit(width, maximum, all[cap - 1] + " ...");
      var r := Wrapped(width, maximum, cap, value);
      forall i | 0 <= i < cap - 1 ensures width(r[i]) <= maximum {
        assert r[i] == r[..cap - 1][i] == all[..cap - 1][i] == all[i];
      }
    }
  }

  // ---------------------------------------------------------------- breaks inside a word

  /** The pieces of a cut word, the open one last. */
  function Pieces(cut: Cut): seq<string> {
    cut.lines + [cut.last]
  }

  /** `before` could not take the first character of `after`. */
  predicate IsFull(width: Width, maximum: int, before: string, after: string) {
    after != "" && width(before + [after[0]]) > maximum
  }

  /** No piece could take the first character of the next. */
  ghost predicate AreFull(width: Width, maximum: int, pieces: seq<string>) {
    forall i, j :: 0 <= i && j == i + 1 < |pieces| ==> IsFull(width, maximum, pieces[i], pieces[j])
  }

  lemma OneMoreFull(width: Width, maximum: int, first: string, rest: seq<string>)
    requires AreFull(width, maximum, rest) && rest != [] && IsFull(width, maximum, first, rest[0])
    ensures AreFull(width, maximum, [first] + rest)
  {
  }

  /** A word is cut only where the piece cannot take the next character. */
  lemma {:induction false} PiecesAreFull(width: Width, maximum: int, word: string, chunk: string)
    requires word != "" || chunk != ""
    ensures var pieces := Pieces(CutWord(width, maximum, word, chunk));
      pieces[0] != "" && pieces[0][0] == (chunk + word)[0] && AreFull(width, maximum, pieces)
  {
    if word != "" {
      if chunk != "" && width(chunk + [word[0]]) > maximum {
        var rest := CutWord(width, maximum, word[1..], [word[0]]);
        PiecesAreFull(width, maximum, word[1..], [word[0]]);
        OneMoreFull(width, maximum, chunk, Pieces(rest));
        assert Pieces(Cut([chunk] + rest.lines, rest.last)) == [chunk] + Pieces(rest);
      } else {
        PiecesAreFull(width, maximum, word[1..], chunk + [word[0]]);
        assert (chunk + [word[0]]) + word[1..] == chunk + word;
      }
    }
  }

  // ---------------------------------------------------------------- breaks between lines

  /** Between two lines there was no room: not for the next character of the word, or not for the next word, which
      the second line starts with or starts. */
  ghost predicate BreakIsForced(width: Width, maximum: int, words: seq<string>, before: string, after: string) {
    || IsFull(width, maximum, before, after)
    || exists w :: w in words && width(before + " " + w) > maximum && (w <= after || after <= w)
  }

  ghost predicate BreaksAreForced(width: Width, maximum: int, words: seq<string>, lines: seq<string>) {
    forall i :: 0 <= i < |lines| - 1 ==> BreakIsForced(width, maximum, words, lines[i], lines[i + 1])
  }

  lemma MoreWordsForce(width: Width, maximum: int, words: seq<string>, w: string, lines: seq<string>)
    requires BreaksAreForced(width, maximum, words, lines)
    ensures BreaksAreForced(width, maximum, words + [w], lines)
  {
    forall i | 0 <= i < |lines| - 1 ensures BreakIsForced(width, maximum, words + [w], lines[i], lines[i + 1]) {
      var before, after := lines[i], lines[i + 1];
      assert BreakIsForced(width, maximum, words, before, after);
      if !IsFull(width, maximum, before, after) {
        var v :| v in words && width(before + " " + v) > maximum && (v <= after || after <= v);
        assert v in words + [w];
      }
    }
  }

  lemma BreaksTogether(width: Width, maximum: int, words: seq<string>, first: seq<string>, second: seq<string>)
    requires BreaksAreForced(width, maximum, words, first) && BreaksAreForced(width, maximum, words, second)
    requires first != [] && second != [] ==>
      BreakIsForced(width, maximum, words, first[|first| - 1], second[0])
    ensures BreaksAreForced(width, maximum, words, first + second)
  {
  }

  /** A word behind an open line stands behind one space. */
  lemma CandidateOfLine(line: string, w: string)
    requires IsLine(line) && IsWord(w)
    ensures Strip(line + " " + w) == line + " " + w
  {
    var ws :| AllWords(ws) && ws != [] && line == Join(ws);
    StripAppendsWord(ws, w);
    JoinSnoc(ws, w);
  }

  /** A forced break before a line that may still grow: the next word stands at its start as a whole. */
  ghost predicate GrowingBreak(width: Width, maximum: int, words: seq<string>, before: string, after: string) {
    || IsFull(width, maximum, before, after)
    || exists w :: w in words && width(before + " " + w) > maximum && w <= after
  }

  lemma GrowingIsForced(width: Width, maximum: int, words: seq<string>, more: seq<string>, before: string,
                        after: string, longer: string)
    requires GrowingBreak(width, maximum, words, before, after) && after != "" && after <= longer && words <= more
    ensures BreakIsForced(width, maximum, more, before, longer) && GrowingBreak(width, maximum, more, before, longer)
  {
    if !IsFull(width, maximum, before, after) {
      var w :| w in words && width(before + " " + w) > maximum && w <= after;
      assert w in more && w <= longer;
    }
  }

  /** All breaks of the page are forced, and the one before the open line lets it grow. */
  ghost predicate PageIsForced(width: Width, maximum: int, words: seq<string>, page: Cut) {
    && AllLinesOf(page) && BreaksAreForced(width, maximum, words, page.lines) && (page.last == "" ==> page.lines == [])
    && (page.last != "" && page.lines != [] ==>
          GrowingBreak(width, maximum, words, page.lines[|page.lines| - 1], page.last))
  }

  lemma ShownIsForced(width: Width, maximum: int, words: seq<string>, page: Cut)
    requires PageIsForced(width, maximum, words, page)
    ensures BreaksAreForced(width, maximum, words, Shown(page))
  {
    if page.last != "" && page.lines != [] {
      GrowingIsForced(width, maximum, words, words, page.lines[|page.lines| - 1], page.last, page.last);
      BreaksTogether(width, maximum, words, page.lines, [page.last]);
    }
  }

  /** Placing one more word keeps every break forced. */
  lemma PlacingIsForced(width: Width, maximum: int, words: seq<string>, page: Cut, w: string)
    requires PageIsForced(width, maximum, words, page) && IsWord(w)
    ensures PageIsForced(width, maximum, words + [w], Placed(width, maximum, page, w))
  {
    var more := words + [w];
    if width(Strip(page.last + " " + w)) <= maximum {
      PlacingBehindIsForced(width, maximum, words, page, w);
    } else {
      ShownIsForced(width, maximum, words, page);
      MoreWordsForce(width, maximum, words, w, Shown(page));
      if page.last != "" && width(w) <= maximum {
        CandidateOfLine(page.last, w);
        WordIsLine(w);
        assert w in more;
      } else {
        CutIsForced(width, maximum, more, page, w);
      }
    }
  }

  lemma PlacingBehindIsForced(width: Width, maximum: int, words: seq<string>, page: Cut, w: string)
    requires PageIsForced(width, maximum, words, page) && IsWord(w) && width(Strip(page.last + " " + w)) <= maximum
    ensures PageIsForced(width, maximum, words + [w], Placed(width, maximum, page, w))
  {
    PlacingKeepsLines(width, maximum, page, w);
    PlacedIsOpen(width, maximum, page, w);
    MoreWordsForce(width, maximum, words, w, page.lines);
    if page.last != "" && page.lines != [] {
      CandidateOfLine(page.last, w);
      assert page.last <= page.last + (" " + w) == page.last + " " + w;
      GrowingIsForced(width, maximum, words, words + [w], page.lines[|page.lines| - 1], page.last,
                      page.last + " " + w);
    }
  }

  /** The pieces of a cut word on new lines. */
  lemma CutIsForced(width: Width, maximum: int, words: seq<string>, page: Cut, w: string)
    requires AllLinesOf(page) && BreaksAreForced(width, maximum, words, Shown(page)) && IsWord(w) && w in words
    requires page.last == "" ==> page.lines == []
    requires width(Strip(page.last + " " + w)) > maximum
    ensures var cut := CutWord(width, maximum, w, "");
      PageIsForced(width, maximum, words, Cut(Shown(page) + cut.lines, cut.last))
  {
    var cut := CutWord(width, maximum, w, "");
    CutsAreLines(width, maximum, w);
    LinesTogether(Shown(page), cut.lines);
    if page.last != "" { CandidateOfLine(page.last, w); }
    PiecesAreFull(width, maximum, w, "");
    PiecesStartTheWord(width, maximum, w);
    if cut.lines == [] {
      assert Shown(page) + cut.lines == Shown(page);
    } else {
      ClosedPiecesAreForced(width, maximum, words, cut);
      if page.last != "" { assert BreakIsForced(width, maximum, words, page.last, cut.lines[0]); }
      BreaksTogether(width, maximum, words, Shown(page), cut.lines);
      assert GrowingBreak(width, maximum, words, cut.lines[|cut.lines| - 1], cut.last);
    }
  }

  lemma PiecesStartTheWord(width: Width, maximum: int, w: string)
    requires IsWord(w)
    ensures var cut := CutWord(width, maximum, w, "");
      cut.last != "" && if cut.lines == [] then cut.last == w else cut.lines[0] <= w
  {
    var cut := CutWord(width, maximum, w, "");
    CutKeepsCharacters(width, maximum, w, "");
    assert "" + w == w;
    if cut.lines != [] {
      var first, rest := cut.lines[0], cut.lines[1..];
      assert cut.lines == [first] + rest;
      FlattenCons(first, rest);
      StartOfThree(first, Flatten(rest), cut.last);
    }
  }

  lemma StartOfThree(a: string, b: string, c: string)
    ensures a <= (a + b) + c
  {
  }

  lemma ClosedPiecesAreForced(width: Width, maximum: int, words: seq<string>, cut: Cut)
    requires AreFull(width, maximum, Pieces(cut)) && cut.lines != []
    ensures BreaksAreForced(width, maximum, words, cut.lines)
    ensures IsFull(width, maximum, cut.lines[|cut.lines| - 1], cut.last)
  {
    var pieces, n := Pieces(cut), |cut.lines|;
    assert pieces[n - 1] == cut.lines[n - 1] && pieces[n] == cut.last;
    forall i | 0 <= i < n - 1 ensures BreakIsForced(width, maximum, words, cut.lines[i], cut.lines[i + 1]) {
      assert pieces[i] == cut.lines[i] && pieces[i + 1] == cut.lines[i + 1];
      assert IsFull(width, maximum, pieces[i], pieces[i + 1]);
    }
  }

  lemma {:induction false} AllBreaksOfPage(width: Width, maximum: int, words: seq<string>)
    requires AllWords(words)
    ensures PageIsForced(width, maximum, words, Page(width, maximum, words))
  {
    if words != [] {
      var n := |words| - 1;
      AllBreaksOfPage(width, maximum, words[..n]);
      PlacingIsForced(width, maximum, words[..n], Page(width, maximum, words[..n]), words[n]);
      assert words == words[..n] + [words[n]];
    }
  }

  /** Lines are filled as far as they go: every break of the uncapped lines is forced. */
  lemma EveryBreakIsForced(width: Width, maximum: int, value: string)
    ensures BreaksAreForced(width, maximum, Split(SafeText(value, 1000)), AllLines(width, maximum, value))
  {
    var words := Split(SafeText(value, 1000));
    AllBreaksOfPage(width, maximum, words);
    ShownIsForced(width, maximum, words, Page(width, maximum, words));
    ShortenedUnlessCutAcross(width, maximum, 1, value);
  }
}
