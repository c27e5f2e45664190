/** What compaction leaves of a provider text (src/adapters/openai-egress-policy.js): the same words with one
    space between them, cut off at an exact length. */
module CompactionWords {
  import opened CodeUnits
  import opened ProviderCompaction

  predicate IsGap(u: CodeUnit) {
    IsSpace(u) || u < 32 || u == 127
  }

  /** The stretches without whitespace or control characters, `open` being the start of the first. */
  function WordsFrom(open: Text, t: Text): seq<Text>
    decreases |t|
  {
    if t == [] then (if open == [] then [] else [open])
    else if IsGap(t[0]) then (if open == [] then [] else [open]) + WordsFrom([], t[1..])
    else WordsFrom(open + [t[0]], t[1..])
  }

  function Words(t: Text): seq<Text> {
    WordsFrom([], t)
  }

  lemma {:induction false} PrintableKeepsWords(open: Text, t: Text)
    ensures WordsFrom(open, Printable(t)) == WordsFrom(open, t)
    decreases |t|
  {
    if t != [] {
      assert Printable(t)[1..] == Printable(t[1..]);
      PrintableKeepsWords([], t[1..]);
      if !IsGap(t[0]) { PrintableKeepsWords(open + [t[0]], t[1..]); }
    }
  }

  /** One gap before a text is as good as any. */
  lemma GapOpensNothing(u: CodeUnit, t: Text)
    requires IsGap(u)
    ensures WordsFrom([], [u] + t) == WordsFrom([], t)
  {
    assert ([u] + t)[1..] == t;
    assert [] + WordsFrom([], t) == WordsFrom([], t);
  }

  lemma {:induction false} CollapseKeepsWords(open: Text, t: Text)
    ensures WordsFrom(open, Collapse(t)) == WordsFrom(open, t)
    decreases |t|
  {
    if t != [] {
      var rest := Collapse(t[1..]);
      if !IsSpace(t[0]) {
        assert ([t[0]] + rest)[1..] == rest;
        CollapseKeepsWords([], t[1..]);
        if !IsGap(t[0]) { CollapseKeepsWords(open + [t[0]], t[1..]); }
      } else if |t| > 1 && IsSpace(t[1]) {
        CollapseKeepsWords(open, t[1..]);
        assert t == [t[0]] + t[1..];
        GapBeforeGap(open, t[1..]);
      } else {
        assert ([SPACE] + rest)[1..] == rest;
        CollapseKeepsWords([], t[1..]);
      }
    }
  }

  lemma GapBeforeGap(open: Text, t: Text)
    requires t != [] && IsSpace(t[0])
    ensures WordsFrom(open, t) == (if open == [] then [] else [open]) + WordsFrom([], t)
  {
    assert [] + WordsFrom([], t[1..]) == WordsFrom([], t[1..]);
  }

  lemma {:induction false} TrimStartKeepsWords(t: Text)
    ensures Words(TrimStart(t)) == Words(t)
  {
    if t != [] && IsSpace(t[0]) {
      TrimStartKeepsWords(t[1..]);
      assert t == [t[0]] + t[1..];
      GapOpensNothing(t[0], t[1..]);
    }
  }

  lemma {:induction false} FinalGap(open: Text, t: Text, u: CodeUnit)
    requires IsGap(u)
    ensures WordsFrom(open, t + [u]) == WordsFrom(open, t)
    decreases |t|
  {
    if t == [] {
      assert t + [u] == [u] && [u][1..] == [];
      assert (if open == [] then [] else [open]) + [] == (if open == [] then [] else [open]);
    } else {
      assert (t + [u])[1..] == t[1..] + [u];
      FinalGap([], t[1..], u);
      if !IsGap(t[0]) { FinalGap(open + [t[0]], t[1..], u); }
    }
  }

  lemma {:induction false} TrimEndKeepsWords(t: Text)
    ensures Words(TrimEnd(t)) == Words(t)
  {
    if t != [] && IsSpace(t[|t| - 1]) {
      TrimEndKeepsWords(t[..|t| - 1]);
      assert t == t[..|t| - 1] + [t[|t| - 1]];
      FinalGap([], t[..|t| - 1], t[|t| - 1]);
    }
  }

  /** Words stay apart and whole: compaction changes only what stands between them, to one space each. */
  lemma CompactionKeepsWords(t: Text)
    ensures Words(Compacted(t)) == Words(t) && Normal(Compacted(t))
  {
    PrintableKeepsWords([], t);
    CollapseKeepsWords([], Printable(t));
    TrimStartKeepsWords(Collapse(Printable(t)));
    TrimEndKeepsWords(TrimStart(Collapse(Printable(t))));
    CompactedIsNormal(t);
  }

  /** The exact outcome: a text whose compact form keeps to the limit comes back in that form; of any other, as
      much of the start as leaves room for three dots within the limit, or nothing if there is no room. */
  lemma CompactIsExact(t: Text, max: int)
    ensures var form, r := Compacted(t), Compact(t, max);
      if |form| <= max then r == form
      else
        && r[|r| - 3..] == [46, 46, 46] && r[..|r| - 3] <= form
        && |r| == if max >= 3 then max else 3
  {
    var form, r := Compacted(t), Compact(t, max);
    if |form| > max {
      var cut := CutLength(max);
      assert cut <= |form| && r[..cut] == form[..cut] && r[cut..] == DOTS;
    }
  }
}
