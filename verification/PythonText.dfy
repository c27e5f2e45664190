/** The Python string operations the renderers build on: `split`, `strip` and `join`, over the
    characters `str.isspace` accepts. */
module PythonText {
  import opened Totals

  predicate IsSpace(c: char) {
    var n := c as int;
    || 9 <= n <= 13 || 28 <= n <= 32 || n == 0x85 || n == 0xA0 || n == 0x1680 || 0x2000 <= n <= 0x200A
    || n == 0x2028 || n == 0x2029 || n == 0x202F || n == 0x205F || n == 0x3000
  }

  predicate IsWord(w: string) {
    w != "" && forall c :: c in w ==> !IsSpace(c)
  }

  predicate AllWords(words: seq<string>) {
    forall i :: 0 <= i < |words| ==> IsWord(words[i])
  }

  /** Length of the leading run without whitespace. */
  function WordEnd(s: string): (n: nat)
    ensures n <= |s|
    ensures forall i :: 0 <= i < n ==> !IsSpace(s[i])
    ensures n < |s| ==> IsSpace(s[n])
  {
    if s == "" || IsSpace(s[0]) then 0 else 1 + WordEnd(s[1..])
  }

  /** `s.split()`. */
  function Split(s: string): (words: seq<string>)
    ensures AllWords(words)
    decreases |s|
  {
    if s == "" then []
    else if IsSpace(s[0]) then Split(s[1..])
    else [s[..WordEnd(s)]] + Split(s[WordEnd(s)..])
  }

  /** `" ".join(words)`. */
  function Join(words: seq<string>): string {
    if words == [] then ""
    else if |words| == 1 then words[0]
    else words[0] + " " + Join(words[1..])
  }

  function DropLeadingSpace(s: string): string {
    if s != "" && IsSpace(s[0]) then DropLeadingSpace(s[1..]) else s
  }

  function DropTrailingSpace(s: string): (r: string)
    ensures |r| <= |s| && r == s[..|r|]
  {
    if s != "" && IsSpace(s[|s| - 1]) then DropTrailingSpace(s[..|s| - 1]) else s
  }

  /** `s.strip()`. */
  function Strip(s: string): string {
    DropTrailingSpace(DropLeadingSpace(s))
  }

  /** The characters of `s` that are not whitespace, in order. */
  function NonSpace(s: string): string {
    if s == "" then "" else (if IsSpace(s[0]) then "" else [s[0]]) + NonSpace(s[1..])
  }

  function Truncate(s: string, maximum: nat): (r: string)
    ensures |r| <= maximum && r <= s
  {
    if |s| <= maximum then s else s[..maximum]
  }

  /** `safe_text(s, maximum)`: runs of whitespace become one space, the ends are stripped and the
      rest is cut off. */
  function SafeText(s: string, maximum: nat): (r: string)
    ensures |r| <= maximum
  {
    Truncate(Join(Split(s)), maximum)
  }

  // ---------------------------------------------------------------- facts

  lemma {:induction false} NonSpaceConcat(a: string, b: string)
    ensures NonSpace(a + b) == NonSpace(a) + NonSpace(b)
  {
    if a == "" {
      assert a + b == b;
    } else {
      assert (a + b)[1..] == a[1..] + b;
      NonSpaceConcat(a[1..], b);
    }
  }

  lemma {:induction false} NonSpaceOfWord(w: string)
    requires forall i :: 0 <= i < |w| ==> !IsSpace(w[i])
    ensures NonSpace(w) == w
  {
    if w != "" { NonSpaceOfWord(w[1..]); }
  }

  /** Splitting loses whitespace only. */
  lemma {:induction false} SplitKeepsNonSpace(s: string)
    ensures Flatten(Split(s)) == NonSpace(s)
    decreases |s|
  {
    if s == "" {
    } else if IsSpace(s[0]) {
      SplitKeepsNonSpace(s[1..]);
    } else {
      var n := WordEnd(s);
      SplitKeepsNonSpace(s[n..]);
      FlattenCons(s[..n], Split(s[n..]));
      assert s == s[..n] + s[n..];
      NonSpaceConcat(s[..n], s[n..]);
      NonSpaceOfWord(s[..n]);
    }
  }

  lemma {:induction false} JoinNonEmpty(words: seq<string>)
    requires words != [] && AllWords(words)
    ensures Join(words) != "" && !IsSpace(Join(words)[0]) && !IsSpace(Join(words)[|Join(words)| - 1])
  {
    if |words| > 1 {
      assert AllWords(words[1..]);
      JoinNonEmpty(words[1..]);
    }
  }

  lemma {:induction false} JoinSnoc(words: seq<string>, w: string)
    ensures Join(words + [w]) == if words == [] then w else Join(words) + " " + w
  {
    if |words| > 1 {
      assert (words + [w])[1..] == words[1..] + [w];
      JoinSnoc(words[1..], w);
    } else if |words| == 1 {
      assert (words + [w])[1..] == [w];
    }
  }

  lemma {:induction false} JoinConcat(a: seq<string>, b: seq<string>)
    requires a != [] && b != []
    ensures Join(a + b) == Join(a) + " " + Join(b)
  {
    if |a| == 1 {
      assert (a + b)[1..] == b;
    } else {
      assert (a + b)[1..] == a[1..] + b;
      JoinConcat(a[1..], b);
    }
  }

  lemma NonSpaceAroundSpace(a: string, b: string)
    ensures NonSpace(a + " " + b) == NonSpace(a) + NonSpace(b)
  {
    var gap: string := [' '];
    assert gap[1..] == "";
    assert NonSpace(gap) == "";
    NonSpaceConcat(a + gap, b);
    NonSpaceConcat(a, gap);
    assert a + " " + b == a + gap + b;
  }

  /** `f"{current} {word}".strip()` is one more word on a line of words. */
  lemma StripAppendsWord(line: seq<string>, word: string)
    requires AllWords(line) && IsWord(word)
    ensures Strip(Join(line) + " " + word) == Join(line + [word])
  {
    JoinSnoc(line, word);
    var s := Join(line) + " " + word;
    assert s[|s| - 1] == word[|word| - 1];
    if line == [] {
      assert s[1..] == word;
      assert DropLeadingSpace(s) == DropLeadingSpace(word) == word;
      assert DropTrailingSpace(word) == word;
    } else {
      JoinNonEmpty(line);
      assert s[0] == Join(line)[0];
    }
  }

  lemma {:induction false} DropLeadingKeepsNonSpace(s: string)
    ensures NonSpace(DropLeadingSpace(s)) == NonSpace(s)
  {
    if s != "" && IsSpace(s[0]) { DropLeadingKeepsNonSpace(s[1..]); }
  }

  lemma {:induction false} DropTrailingKeepsNonSpace(s: string)
    ensures NonSpace(DropTrailingSpace(s)) == NonSpace(s)
  {
    if s != "" && IsSpace(s[|s| - 1]) {
      DropTrailingKeepsNonSpace(s[..|s| - 1]);
      var last := [s[|s| - 1]];
      assert s == s[..|s| - 1] + last && last[1..] == "";
      NonSpaceConcat(s[..|s| - 1], last);
    }
  }

  lemma StripKeepsNonSpace(s: string)
    ensures NonSpace(Strip(s)) == NonSpace(s)
  {
    DropLeadingKeepsNonSpace(s);
    DropTrailingKeepsNonSpace(DropLeadingSpace(s));
  }

  lemma {:induction false} NonSpaceIsNoLonger(s: string)
    ensures |NonSpace(s)| <= |s|
  {
    if s != "" { NonSpaceIsNoLonger(s[1..]); }
  }

  /** The characters of every word are characters of the text. */
  lemma {:induction false} SplitCharacters(s: string, i: nat)
    requires i < |Split(s)|
    ensures forall c :: c in Split(s)[i] ==> c in s
    decreases |s|
  {
    if IsSpace(s[0]) {
      SplitCharacters(s[1..], i);
    } else if i > 0 {
      SplitCharacters(s[WordEnd(s)..], i - 1);
    }
  }

  /** Normalised text is empty or starts with a word. */
  lemma SafeTextHasWord(s: string, maximum: nat)
    requires SafeText(s, maximum) != ""
    ensures Split(SafeText(s, maximum)) != []
  {
    JoinNonEmpty(Split(s));
  }

  lemma {:induction false} WordEndOfWord(w: string)
    requires forall i :: 0 <= i < |w| ==> !IsSpace(w[i])
    ensures WordEnd(w) == |w|
  {
    if w != "" { WordEndOfWord(w[1..]); }
  }

  lemma {:induction false} WordEndBeforeSpace(w: string, rest: string)
    requires forall i :: 0 <= i < |w| ==> !IsSpace(w[i])
    requires rest != "" ==> IsSpace(rest[0])
    ensures WordEnd(w + rest) == |w|
  {
    if w == "" {
      assert w + rest == rest;
    } else {
      assert (w + rest)[1..] == w[1..] + rest;
      WordEndBeforeSpace(w[1..], rest);
    }
  }

  lemma SplitFirstWord(w: string, rest: string)
    requires IsWord(w) && (rest != "" ==> IsSpace(rest[0]))
    ensures Split(w + rest) == [w] + Split(rest)
  {
    WordEndBeforeSpace(w, rest);
    assert (w + rest)[..|w|] == w && (w + rest)[|w|..] == rest;
  }

  /** Splitting undoes joining. */
  lemma {:induction false} SplitOfJoin(words: seq<string>)
    requires AllWords(words)
    ensures Split(Join(words)) == words
  {
    if words != [] {
      var w, rest := words[0], words[1..];
      assert words == [w] + rest;
      SplitOfJoin(rest);
      if rest == [] {
        SplitFirstWord(w, "");
        assert w + "" == w;
      } else {
        var tail := " " + Join(rest);
        SplitFirstWord(w, tail);
        assert tail[1..] == Join(rest);
        assert w + " " + Join(rest) == w + tail;
      }
    }
  }

  lemma SplitOneWord(w: string, maximum: nat)
    requires IsWord(w) && |w| <= maximum
    ensures Split(w) == [w] && SafeText(w, maximum) == w
  {
    WordEndOfWord(w);
    assert w[..|w|] == w && w[|w|..] == "";
  }

  /** Normalised text: the same words, up to the cut, and not a character more than the limit. */
  lemma SafeTextKeepsWords(s: string, maximum: nat)
    ensures var t := SafeText(s, maximum);
      && |t| <= maximum && NonSpace(t) <= NonSpace(s)
      && (|t| < maximum ==> Split(t) == Split(s) && NonSpace(t) == NonSpace(s))
  {
    var whole := Join(Split(s));
    SplitOfJoin(Split(s));
    SplitKeepsNonSpace(whole);
    SplitKeepsNonSpace(s);
    if |whole| > maximum {
      NonSpaceConcat(whole[..maximum], whole[maximum..]);
      assert whole == whole[..maximum] + whole[maximum..];
    }
  }
}
