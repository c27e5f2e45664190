/** When the last line of a capped wrapping shows that text is missing: it ends in three dots
    (scripts/render-digital-product-kit.py). The shortening looks at 500 characters only, so a long line can
    lose the mark it was given. */
module TruncationMark {
  import opened CharacterMark
  import opened CharacterWrap
  import opened PythonText

  predicate EndsInDots(s: string) {
    |s| >= 3 && s[|s| - 3..] == "..."
  }

  // ---------------------------------------------------------------- lines of words

  /** Words with single spaces between them. */
  ghost predicate IsLine(s: string) {
    exists ws :: AllWords(ws) && ws != [] && s == Join(ws)
  }

  lemma WordIsLine(word: string)
    requires IsWord(word)
    ensures IsLine(word)
  {
    assert AllWords([word]) && word == Join([word]);
  }

  lemma OneMoreWordIsLine(line: string, word: string)
    requires (line == "" || IsLine(line)) && IsWord(word)
    ensures IsLine(Strip(line + " " + word))
  {
    ghost var ws: seq<string> := [];
    if line != "" { ws :| AllWords(ws) && ws != [] && line == Join(ws); }
    StripAppendsWord(ws, word);
    assert AllWords(ws + [word]);
  }

  lemma {:induction false} CutsAreWords(width: Width, maximum: int, word: string, chunk: string)
    requires IsWord(chunk + word)
    ensures var cut := CutWord(width, maximum, word, chunk); AllWords(cut.lines) && IsWord(cut.last)
  {
    if word != "" {
      assert chunk + word == (chunk + [word[0]]) + word[1..];
      assert forall c :: c in [word[0]] + word[1..] ==> c in chunk + word;
      if chunk != "" && width(chunk + [word[0]]) > maximum {
        CutsAreWords(width, maximum, word[1..], [word[0]]);
        assert forall c :: c in chunk ==> c in chunk + word;
      } else {
        CutsAreWords(width, maximum, word[1..], chunk + [word[0]]);
      }
    } else {
      assert chunk + word == chunk;
    }
  }

  ghost predicate EachIsLine(lines: seq<string>) {
    forall i :: 0 <= i < |lines| ==> IsLine(lines[i])
  }

  ghost predicate AllLinesOf(page: Cut) {
    EachIsLine(page.lines) && (page.last == "" || IsLine(page.last))
  }

  lemma PlacingKeepsLines(width: Width, maximum: int, page: Cut, word: string)
    requires AllLinesOf(page) && IsWord(word)
    ensures AllLinesOf(Placed(width, maximum, page, word))
  {
    if width(Strip(page.last + " " + word)) <= maximum {
      OneMoreWordIsLine(page.last, word);
    } else {
      WordIsLine(word);
      CutsAreLines(width, maximum, word);
      LinesTogether(Shown(page), CutWord(width, maximum, word, "").lines);
    }
  }

  lemma LinesTogether(first: seq<string>, second: seq<string>)
    requires EachIsLine(first) && EachIsLine(second)
    ensures EachIsLine(first + second)
  {
  }

  lemma CutsAreLines(width: Width, maximum: int, word: string)
    requires IsWord(word)
    ensures AllLinesOf(CutWord(width, maximum, word, ""))
  {
    assert "" + word == word;
    CutsAreWords(width, maximum, word, "");
    var cut := CutWord(width, maximum, word, "");
    forall i | 0 <= i < |cut.lines| ensures IsLine(cut.lines[i]) { WordIsLine(cut.lines[i]); }
    WordIsLine(cut.last);
  }

  lemma {:induction false} PageHasLines(width: Width, maximum: int, words: seq<string>)
    requires AllWords(words)
    ensures AllLinesOf(Page(width, maximum, words))
  {
    if words != [] {
      var n := |words| - 1;
      PageHasLines(width, maximum, words[..n]);
      PlacingKeepsLines(width, maximum, Page(width, maximum, words[..n]), words[n]);
    }
  }

  // ---------------------------------------------------------------- the shortening

  /** What the shortening of a line with its mark starts from. */
  function MarkedText(line: string): string {
    Truncate(line + " ...", 500)
  }

  /** The first 500 characters leave no room for the whole mark, and they fit, so they come back as they are. */
  predicate PushesMarkOff(width: Width, maximum: int, line: string) {
    |line| > 496 && width(MarkedText(line)) <= maximum
  }

  lemma SafeTextOfMarked(line: string)
    requires IsLine(line)
    ensures SafeText(line + " ...", 500) == MarkedText(line)
  {
    var ws :| AllWords(ws) && ws != [] && line == Join(ws);
    var marked := ws + ["..."];
    assert IsWord("...") by { forall c | c in "..." ensures c == '.' {} }
    JoinSnoc(ws, "...");
    SplitOfJoin(marked);
    assert Join(marked) == line + " ...";
  }

  /** A shortened line ends in dots, unless its mark was pushed off; then only if the 500 characters kept end
      in dots of the text's own. */
  lemma ShortenedLineShowsMark(width: Width, maximum: int, line: string)
    requires IsLine(line)
    ensures EndsInDots(Ellipsize(width, maximum, line + " ...")) <==>
              (PushesMarkOff(width, maximum, line) ==> |line| >= 500 && EndsInDots(line[..500]))
  {
    SafeTextOfMarked(line);
    var text, r := MarkedText(line), Ellipsize(width, maximum, line + " ...");
    if width(text) > maximum {
      var kept := TrimToFit(width, maximum, text);
      assert r == kept + "..." && r[|r| - 3..] == "...";
    } else if |line| <= 496 {
      assert text == line + " ..." && text[|text| - 3..] == "...";
    } else {
      LongMarkedText(line);
    }
  }

  lemma LongMarkedText(line: string)
    requires |line| > 496
    ensures |MarkedText(line)| == 500
    ensures EndsInDots(MarkedText(line)) <==> |line| >= 500 && EndsInDots(line[..500])
  {
    var text := MarkedText(line);
    if |line| < 500 {
      assert text[|line|] == ' ' && text[497..][|line| - 497] == ' ';
    } else {
      assert text == line[..500];
    }
  }

  // ---------------------------------------------------------------- when the mark is lost

  /** The exact rule. Of a text with more lines than the cap, the last line shown does not end in dots
      exactly if a word is cut across the end of the page, or the line kept has over 496 characters and the
      first 500 of its marked text fit; in either case, unless the characters kept end in dots of their own. */
  lemma MarkIsLostIff(width: Width, maximum: int, cap: nat, value: string)
    requires cap >= 1 && |AllLines(width, maximum, value)| > cap
    ensures
      var words := Split(SafeText(value, 1000));
      var line := AllLines(width, maximum, value)[cap - 1];
      var r := Wrapped(width, maximum, cap, value);
      && |r| == cap
      && (!EndsInDots(r[cap - 1]) <==>
            if SomeWordCutAcross(width, maximum, cap, words) then !EndsInDots(line)
            else PushesMarkOff(width, maximum, line) && !(|line| >= 500 && EndsInDots(line[..500])))
  {
    var words := Split(SafeText(value, 1000));
    ShortenedUnlessCutAcross(width, maximum, cap, value);
    LineOfText(width, maximum, value, cap - 1);
    ShortenedLineShowsMark(width, maximum, AllLines(width, maximum, value)[cap - 1]);
  }

  lemma LineOfText(width: Width, maximum: int, value: string, i: nat)
    requires i < |AllLines(width, maximum, value)|
    ensures IsLine(AllLines(width, maximum, value)[i])
  {
    var words := Split(SafeText(value, 1000));
    ShortenedUnlessCutAcross(width, maximum, 1, value);
    PageHasLines(width, maximum, words);
    assert AllLines(width, maximum, value) == Shown(Page(width, maximum, words));
  }

  /** A line that holds no three dots in a row. */
  ghost predicate HasNoDots(line: string) {
    forall n :: 3 <= n <= |line| ==> !EndsInDots(line[..n])
  }

  /** For a line without dots of its own: the mark is lost exactly if a word is cut across the end of the
      page, or the line has over 496 characters and the first 500 of its marked text fit. */
  lemma MarkIsLostIffNoOwnDots(width: Width, maximum: int, cap: nat, value: string)
    requires cap >= 1 && |AllLines(width, maximum, value)| > cap
    requires HasNoDots(AllLines(width, maximum, value)[cap - 1])
    ensures
      var line := AllLines(width, maximum, value)[cap - 1];
      var r := Wrapped(width, maximum, cap, value);
      && |r| == cap
      && (!EndsInDots(r[cap - 1]) <==>
            SomeWordCutAcross(width, maximum, cap, Split(SafeText(value, 1000))) || PushesMarkOff(width, maximum, line))
  {
    var line := AllLines(width, maximum, value)[cap - 1];
    MarkIsLostIff(width, maximum, cap, value);
    assert line[..|line|] == line;
  }

  // ---------------------------------------------------------------- a long line without its mark

  function Length(): Width {
    (s: string) => |s|
  }

  /** Two words, the first of 500 characters, that fit one by one but not side by side. */
  lemma TwoLinesOfTwoWords(maximum: int, a: string, b: string)
    requires IsWord(a) && IsWord(b) && |a| == 500 && |b| <= maximum && 500 <= maximum < 501 + |b| <= 1000
    ensures Split(SafeText(a + " " + b, 1000)) == [a, b]
    ensures AllLines(Length(), maximum, a + " " + b) == [a, b]
    ensures !SomeWordCutAcross(Length(), maximum, 1, [a, b])
  {
    var words := [a, b];
    assert words[1..] == [b] && Join(words) == a + " " + b;
    SplitOfJoin(words);
    CandidateOfFirstWord(a);
    CandidateOfFirstWord(b);
    StripAppendsWord([a], b);
    assert [a] + [b] == words && Join([a]) == a;
    assert words[..0] == [] && words[..1] == [a];
    assert [] + [a] == [a];
    assert Uncapped(Length(), maximum, words, "") == Uncapped(Length(), maximum, [b], a);
    assert Uncapped(Length(), maximum, [b], a) == [a] + Uncapped(Length(), maximum, [b], "");
  }

  /** A line of 500 characters that pushes its mark off: the second word is gone without a trace. */
  lemma LongLineLosesItsMark(maximum: int, a: string, b: string)
    requires IsWord(a) && IsWord(b) && |a| == 500 && |b| <= maximum && 500 <= maximum < 501 + |b| <= 1000
    ensures Wrapped(Length(), maximum, 1, a + " " + b) == [a]
    ensures AllLines(Length(), maximum, a + " " + b) == [a, b]
    ensures !SomeWordCutAcross(Length(), maximum, 1, Split(SafeText(a + " " + b, 1000)))
    ensures PushesMarkOff(Length(), maximum, a)
  {
    TwoLinesOfTwoWords(maximum, a, b);
    ShortenedUnlessCutAcross(Length(), maximum, 1, a + " " + b);
    WordIsLine(a);
    SafeTextOfMarked(a);
    assert MarkedText(a) == a;
  }

  /** One such text: five hundred letters, a space and two hundred more, in a column of six hundred. */
  lemma SevenHundredLetters()
    ensures
      var a, b := seq(500, _ => 'a'), seq(200, _ => 'a');
      && |AllLines(Length(), 600, a + " " + b)| == 2 && Wrapped(Length(), 600, 1, a + " " + b) == [a]
      && !EndsInDots(a) && !SomeWordCutAcross(Length(), 600, 1, Split(SafeText(a + " " + b, 1000)))
  {
    var a, b := seq(500, _ => 'a'), seq(200, _ => 'a');
    LongLineLosesItsMark(600, a, b);
    assert a[497..][0] == 'a';
  }
}
