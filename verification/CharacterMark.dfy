/** When a capped wrapping shortens its last line to mark that text is missing, and when it raises, told from
    the text's words alone (scripts/render-digital-product-kit.py). `TruncationMark` says when the shortened
    line does show the mark. */
module CharacterMark {
  import opened CharacterWrap
  import opened PythonText
  import opened Totals

  // ---------------------------------------------------------------- the page word by word

  /** The page with one more word: behind the open line if it fits there, else on a line of its own, else
      cut into chunks. */
  function Placed(width: Width, maximum: int, page: Cut, word: string): Cut {
    if width(Strip(page.last + " " + word)) <= maximum then Cut(page.lines, Strip(page.last + " " + word))
    else if page.last != "" && width(word) <= maximum then Cut(page.lines + [page.last], word)
    else
      var cut := CutWord(width, maximum, word, "");
      Cut(Shown(page) + cut.lines, cut.last)
  }

  /** The closed lines and the open one. */
  function Shown(page: Cut): seq<string> {
    if page.last == "" then page.lines else page.lines + [page.last]
  }

  function Page(width: Width, maximum: int, words: seq<string>): Cut {
    if words == [] then Cut([], "")
    else Placed(width, maximum, Page(width, maximum, words[..|words| - 1]), words[|words| - 1])
  }

  /** Word `k` fits neither behind the open line nor on a line of its own. */
  predicate IsCut(width: Width, maximum: int, words: seq<string>, k: nat)
    requires k < |words|
  {
    var before := Page(width, maximum, words[..k]);
    width(Strip(before.last + " " + words[k])) > maximum && width(words[k]) > maximum
  }

  /** Word `k` is cut across the last line of the page: it starts on the page and closes more lines than
      the page has room for; or it is the last word, closes just the last line, and what is left of it reads
      the same as that line. */
  predicate CutsAcross(width: Width, maximum: int, cap: nat, words: seq<string>, k: nat)
    requires k < |words|
  {
    var used := |Shown(Page(width, maximum, words[..k]))|;
    var cut := CutWord(width, maximum, words[k], "");
    && IsCut(width, maximum, words, k) && used < cap
    && (used + |cut.lines| > cap
        || (used + |cut.lines| == cap && k == |words| - 1 && cut.last == cut.lines[|cut.lines| - 1]))
  }

  // ---------------------------------------------------------------- the loop follows the page

  /** The last line is not marked although the page is full. */
  predicate SkipsMark(cap: nat, stop: Stop) {
    && |stop.lines| >= cap >= 1
    && (|stop.lines| > cap || (stop.words == [] && stop.current == stop.lines[cap - 1]))
  }

  lemma CandidateOfFirstWord(word: string)
    requires IsWord(word)
    ensures Strip("" + " " + word) == word
  {
    StripAppendsWord([], word);
    assert [] + [word] == [word];
  }

  lemma PlacedIsOpen(width: Width, maximum: int, page: Cut, word: string)
    requires IsWord(word)
    ensures Placed(width, maximum, page, word).last != ""
    ensures |Shown(page)| <= |Shown(Placed(width, maximum, page, word))|
  {
    CandidateKeepsNonSpace(page.last, word);
    CutKeepsCharacters(width, maximum, word, "");
  }

  lemma PageGrows(width: Width, maximum: int, words: seq<string>, k: nat)
    requires AllWords(words) && k < |words|
    ensures Page(width, maximum, words[..k + 1]) == Placed(width, maximum, Page(width, maximum, words[..k]), words[k])
    ensures |Shown(Page(width, maximum, words[..k]))| <= |Shown(Page(width, maximum, words[..k + 1]))|
    ensures Page(width, maximum, words[..k + 1]).last != ""
  {
    assert words[..k + 1][..k] == words[..k];
    PlacedIsOpen(width, maximum, Page(width, maximum, words[..k]), words[k]);
  }

  lemma {:induction false} PageOnlyGrows(width: Width, maximum: int, words: seq<string>, j: nat, k: nat)
    requires AllWords(words) && j <= k <= |words|
    ensures |Shown(Page(width, maximum, words[..j]))| <= |Shown(Page(width, maximum, words[..k]))|
  {
    if j < k {
      PageGrows(width, maximum, words, k - 1);
      PageOnlyGrows(width, maximum, words, j, k - 1);
    }
  }

  /** One word of the capped loop, put-back included. */
  lemma RunOneWord(width: Width, maximum: int, cap: nat, page: Cut, words: seq<string>)
    requires AllWords(words) && words != [] && |page.lines| < cap
    ensures
      var to := Run(width, maximum, cap, Stop(page.lines, page.last, words));
      var next := Placed(width, maximum, page, words[0]);
      if width(Strip(page.last + " " + words[0])) > maximum && |Shown(page)| >= cap
        then to == Stop(Shown(page), "", words)
      else if |next.lines| >= cap then to == Stop(next.lines, next.last, words[1..])
      else to == Run(width, maximum, cap, Stop(next.lines, next.last, words[1..]))
  {
    CandidateOfFirstWord(words[0]);
    if width(Strip(page.last + " " + words[0])) > maximum && page.last != "" && |Shown(page)| < cap {
      var put := Stop(Shown(page), "", words);
      assert Run(width, maximum, cap, Stop(page.lines, page.last, words)) == Run(width, maximum, cap, put);
    }
  }

  /** The loop stops with word `k`. */
  lemma StopsInside(width: Width, maximum: int, cap: nat, words: seq<string>, k: nat)
    requires AllWords(words) && k < |words| && |Page(width, maximum, words[..k]).lines| < cap
    requires |Page(width, maximum, words[..k + 1]).lines| >= cap
    requires width(Strip(Page(width, maximum, words[..k]).last + " " + words[k])) > maximum ==>
      |Shown(Page(width, maximum, words[..k]))| < cap
    ensures var next := Page(width, maximum, words[..k + 1]);
      CutsAcross(width, maximum, cap, words, k) <==> SkipsMark(cap, Stop(next.lines, next.last, words[k + 1..]))
  {
    CandidateOfFirstWord(words[k]);
    PageGrows(width, maximum, words, k);
  }

  /** The capped loop, started after the first `k` words, stops where no mark is put exactly if a later word
      is cut across the end of the page. */
  lemma {:induction false} SkipsMarkIffCutAcross(width: Width, maximum: int, cap: nat, words: seq<string>, k: nat)
    requires AllWords(words) && k <= |words| && |Page(width, maximum, words[..k]).lines| < cap
    ensures
      var page := Page(width, maximum, words[..k]);
      SkipsMark(cap, Run(width, maximum, cap, Stop(page.lines, page.last, words[k..]))) <==>
        exists j :: k <= j < |words| && CutsAcross(width, maximum, cap, words, j)
    decreases |words| - k
  {
    if k < |words| {
      var page := Page(width, maximum, words[..k]);
      RunOneWord(width, maximum, cap, page, words[k..]);
      assert words[k..][0] == words[k] && words[k..][1..] == words[k + 1..];
      PageGrows(width, maximum, words, k);
      var next := Page(width, maximum, words[..k + 1]);
      if width(Strip(page.last + " " + words[k])) > maximum && |Shown(page)| >= cap {
        NoCutPastTheEnd(width, maximum, cap, words, k);
      } else if |next.lines| >= cap {
        NoCutPastTheEnd(width, maximum, cap, words, k + 1);
        StopsInside(width, maximum, cap, words, k);
      } else {
        assert !CutsAcross(width, maximum, cap, words, k);
        SkipsMarkIffCutAcross(width, maximum, cap, words, k + 1);
      }
    }
  }

  lemma NoCutPastTheEnd(width: Width, maximum: int, cap: nat, words: seq<string>, k: nat)
    requires AllWords(words) && k <= |words| && |Shown(Page(width, maximum, words[..k]))| >= cap
    ensures forall j :: k <= j < |words| ==> !CutsAcross(width, maximum, cap, words, j)
  {
    forall j | k <= j < |words| ensures !CutsAcross(width, maximum, cap, words, j) {
      PageOnlyGrows(width, maximum, words, k, j);
    }
  }

  // ---------------------------------------------------------------- the page is the uncapped wrapping

  lemma UncappedOneWord(width: Width, maximum: int, page: Cut, words: seq<string>)
    requires AllWords(words) && words != []
    ensures var next := Placed(width, maximum, page, words[0]);
      page.lines + Uncapped(width, maximum, words, page.last)
        == next.lines + Uncapped(width, maximum, words[1..], next.last)
  {
    CandidateOfFirstWord(words[0]);
    var next := Placed(width, maximum, page, words[0]);
    var rest := Uncapped(width, maximum, words[1..], next.last);
    if width(Strip(page.last + " " + words[0])) > maximum {
      if page.last != "" {
        assert Uncapped(width, maximum, words, page.last) == [page.last] + Uncapped(width, maximum, words, "");
        ConcatAssociates(page.lines, [page.last], Uncapped(width, maximum, words, ""));
      }
      if width(words[0]) > maximum {
        ConcatAssociates(Shown(page), CutWord(width, maximum, words[0], "").lines, rest);
      }
    }
  }

  /** The lines of the page are the uncapped lines of the text. */
  lemma {:induction false} PageIsUncapped(width: Width, maximum: int, words: seq<string>, k: nat)
    requires AllWords(words) && k <= |words|
    ensures var page := Page(width, maximum, words[..k]);
      page.lines + Uncapped(width, maximum, words[k..], page.last) == Shown(Page(width, maximum, words))
    decreases |words| - k
  {
    if k < |words| {
      UncappedOneWord(width, maximum, Page(width, maximum, words[..k]), words[k..]);
      assert words[k..][0] == words[k] && words[k..][1..] == words[k + 1..];
      PageGrows(width, maximum, words, k);
      PageIsUncapped(width, maximum, words, k + 1);
    } else {
      assert words[..k] == words;
    }
  }

  // ---------------------------------------------------------------- the results

  /** Some word is cut across the end of the page. */
  ghost predicate SomeWordCutAcross(width: Width, maximum: int, cap: nat, words: seq<string>) {
    exists k :: 0 <= k < |words| && CutsAcross(width, maximum, cap, words, k)
  }

  /** The exact effect of the cap, told from the words. Within the cap nothing is lost. Beyond it the first
      `cap` lines are kept, the last of them shortened with " ..." behind it unless a word is cut across the
      end of the page. */
  lemma ShortenedUnlessCutAcross(width: Width, maximum: int, cap: nat, value: string)
    requires cap >= 1
    ensures
      var words := Split(SafeText(value, 1000));
      var all := Shown(Page(width, maximum, words));
      var r := Wrapped(width, maximum, cap, value);
      && all == AllLines(width, maximum, value)
      && if |all| <= cap then r == if all == [] then [""] else all
         else
           && |r| == cap && r[..cap - 1] == all[..cap - 1]
           && r[cap - 1] == if SomeWordCutAcross(width, maximum, cap, words) then all[cap - 1]
                            else Ellipsize(width, maximum, all[cap - 1] + " ...")
  {
    var words := Split(SafeText(value, 1000));
    PageIsUncapped(width, maximum, words, 0);
    assert words[0..] == words && words[..0] == [];
    assert [] + Uncapped(width, maximum, words, "") == Uncapped(width, maximum, words, "");
    CapKeepsFirstLines(width, maximum, cap, value);
    SkipsMarkIffCutAcross(width, maximum, cap, words, 0);
    var stop := Run(width, maximum, cap, Stop([], "", words));
    RunFollowsUncapped(width, maximum, cap, Stop([], "", words));
    if |AllLines(width, maximum, value)| > cap {
      StopIsFull(width, maximum, cap, stop, AllLines(width, maximum, value));
    }
  }

  lemma StopIsFull(width: Width, maximum: int, cap: nat, stop: Stop, all: seq<string>)
    requires AllWords(stop.words) && |all| > cap >= 1
    requires stop.lines + Uncapped(width, maximum, stop.words, stop.current) == [] + all
    requires |stop.lines| < cap ==> stop.words == []
    ensures |stop.lines| >= cap && stop.lines[cap - 1] == all[cap - 1]
    ensures SkipsMark(cap, stop) <==> !(|stop.lines| == cap && (stop.words != [] || stop.current != all[cap - 1]))
  {
    assert all == stop.lines + Uncapped(width, maximum, stop.words, stop.current);
  }

  lemma LongFirstWord(width: Width, maximum: int, cap: nat, words: seq<string>)
    requires cap >= 1 && AllWords(words) && words != []
    requires width(words[0]) > maximum && |CutWord(width, maximum, words[0], "").lines| > cap
    ensures CutsAcross(width, maximum, cap, words, 0)
    ensures var closed := CutWord(width, maximum, words[0], "").lines; closed <= Shown(Page(width, maximum, words))
  {
    var closed := CutWord(width, maximum, words[0], "").lines;
    CandidateOfFirstWord(words[0]);
    assert words[..0] == [];
    PageGrows(width, maximum, words, 0);
    PageIsUncapped(width, maximum, words, 1);
    assert [] + closed == closed;
  }

  /** A text that starts with a word cut into more closed lines than the cap comes back unmarked, whatever
      follows. */
  lemma LongFirstWordIsUnmarked(width: Width, maximum: int, cap: nat, value: string)
    requires cap >= 1
    requires var words := Split(SafeText(value, 1000));
      words != [] && width(words[0]) > maximum && |CutWord(width, maximum, words[0], "").lines| > cap
    ensures Wrapped(width, maximum, cap, value) ==
              CutWord(width, maximum, Split(SafeText(value, 1000))[0], "").lines[..cap]
  {
    var words := Split(SafeText(value, 1000));
    LongFirstWord(width, maximum, cap, words);
    ShortenedUnlessCutAcross(width, maximum, cap, value);
    FirstLines(Wrapped(width, maximum, cap, value), Shown(Page(width, maximum, words)), cap,
               CutWord(width, maximum, words[0], "").lines);
  }

  lemma FirstLines(r: seq<string>, all: seq<string>, cap: nat, closed: seq<string>)
    requires 1 <= cap < |closed| && closed <= all
    requires |r| == cap && r[..cap - 1] == all[..cap - 1] && r[cap - 1] == all[cap - 1]
    ensures r == closed[..cap]
  {
    assert r == r[..cap - 1] + [r[cap - 1]];
  }

  /** A word alone, cut into more closed lines than the cap: the first `cap` pieces come back and nothing
      shows that the rest is missing. */
  lemma TruncationCanGoUnmarked(width: Width, maximum: int, cap: nat, word: string)
    requires cap >= 1 && IsWord(word) && |word| <= 1000 && width(word) > maximum
    requires |CutWord(width, maximum, word, "").lines| > cap
    ensures Wrapped(width, maximum, cap, word) == CutWord(width, maximum, word, "").lines[..cap]
  {
    SplitOneWord(word, 1000);
    LongFirstWordIsUnmarked(width, maximum, cap, word);
  }

  function Singles(s: string): seq<string> {
    seq(|s|, i requires 0 <= i < |s| => [s[i]])
  }

  /** In a column too narrow for two characters every character but the last closes a line. */
  lemma {:induction false} NarrowColumnCutsEveryCharacter(width: Width, maximum: int, word: string, chunk: string)
    requires |chunk| == 1 && forall s :: |s| >= 2 ==> width(s) > maximum
    ensures CutWord(width, maximum, word, chunk).lines == Singles(chunk + word)[..|word|]
  {
    if word != "" {
      assert |chunk + [word[0]]| == 2;
      NarrowColumnCutsEveryCharacter(width, maximum, word[1..], [word[0]]);
      assert [word[0]] + word[1..] == word;
      assert chunk == [(chunk + word)[0]];
      assert Singles(chunk + word) == [chunk] + Singles(word);
    }
  }

  /** Such a column shows the first characters of a word, one to a line, and no mark. */
  lemma NarrowColumnIsUnmarked(width: Width, maximum: int, cap: nat, word: string)
    requires cap >= 1 && IsWord(word) && cap + 2 <= |word| <= 1000
    requires forall s :: |s| >= 2 ==> width(s) > maximum
    ensures Wrapped(width, maximum, cap, word) == Singles(word[..cap])
  {
    var first, rest := [word[0]], word[1..];
    assert first + rest == word;
    NarrowColumnCutsEveryCharacter(width, maximum, rest, first);
    assert CutWord(width, maximum, word, "") == CutWord(width, maximum, rest, "" + first) && "" + first == first;
    TruncationCanGoUnmarked(width, maximum, cap, word);
    assert Singles(word)[..|rest|][..cap] == Singles(word[..cap]);
  }

  // ---------------------------------------------------------------- a cap of zero

  lemma {:induction false} OpenLineStaysAlone(width: Width, maximum: int, words: seq<string>, current: string)
    requires AllWords(words) && current != ""
    ensures var to := Run(width, maximum, 0, Stop([], current, words));
      to.lines == [] && to.words == [] <==> |Uncapped(width, maximum, words, current)| == 1
    ensures var to := Run(width, maximum, 0, Stop([], current, words)); to.lines == [] ==> to.current != ""
  {
    if words != [] {
      var candidate := Strip(current + " " + words[0]);
      if width(candidate) <= maximum {
        CandidateKeepsNonSpace(current, words[0]);
        OpenLineStaysAlone(width, maximum, words[1..], candidate);
      } else {
        UncappedIsNonEmpty(width, maximum, words, "");
      }
    }
  }

  /** The index error: a cap of zero and a text whose words all stand on one line, the first of them fitting
      there unless it is the only one. */
  lemma IndexErrorIffOneLine(width: Width, maximum: int, cap: nat, value: string)
    ensures
      var words := Split(SafeText(value, 1000));
      RaisesIndexError(width, maximum, cap, value) <==>
        && cap == 0 && |AllLines(width, maximum, value)| == 1
        && (|words| == 1 || width(words[0]) <= maximum)
  {
    var words := Split(SafeText(value, 1000));
    if words != [] {
      CandidateOfFirstWord(words[0]);
      if width(words[0]) <= maximum {
        OpenLineStaysAlone(width, maximum, words[1..], words[0]);
      } else {
        CutKeepsCharacters(width, maximum, words[0], "");
        UncappedIsNonEmpty(width, maximum, words[1..], CutWord(width, maximum, words[0], "").last);
      }
    }
  }
}
