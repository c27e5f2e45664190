/** Compacting provider text for storage (src/adapters/openai-egress-policy.js): control characters and
    runs of whitespace become single spaces, and long text is cut off. */
module ProviderCompaction {
  import opened CodeUnits

  const SPACE: CodeUnit := 32
  const DOTS: Text := [46, 46, 46]

  /** What `\s` matches and `trim` removes. */
  predicate IsSpace(u: CodeUnit) {
    || 9 <= u <= 13 || u == 32 || u == 0xA0 || u == 0x1680 || 0x2000 <= u <= 0x200A
    || u == 0x2028 || u == 0x2029 || u == 0x202F || u == 0x205F || u == 0x3000 || u == 0xFEFF
  }

  predicate IsControl(u: CodeUnit) {
    u < 32 || u == 127
  }

  /** Every control character as a space. The mapping touches no surrogate, so it is the same unit by unit. */
  function Printable(t: Text): (r: Text)
    ensures |r| == |t| && forall i :: 0 <= i < |t| ==> r[i] == (if IsControl(t[i]) then SPACE else t[i])
  {
    seq(|t|, i requires 0 <= i < |t| => if IsControl(t[i]) then SPACE else t[i])
  }

  /** `t.replace(/\s+/g, " ")`: the last unit of each run stands for the run. */
  function Collapse(t: Text): Text {
    if t == [] then []
    else if !IsSpace(t[0]) then [t[0]] + Collapse(t[1..])
    else if |t| > 1 && IsSpace(t[1]) then Collapse(t[1..])
    else [SPACE] + Collapse(t[1..])
  }

  function TrimStart(t: Text): Text {
    if t != [] && IsSpace(t[0]) then TrimStart(t[1..]) else t
  }

  function TrimEnd(t: Text): Text {
    if t != [] && IsSpace(t[|t| - 1]) then TrimEnd(t[..|t| - 1]) else t
  }

  function Compacted(t: Text): Text {
    TrimEnd(TrimStart(Collapse(Printable(t))))
  }

  function CutLength(max: int): nat {
    if max > 3 then max - 3 else 0
  }

  /** `compactProviderText`. */
  function Compact(t: Text, max: int): Text {
    var compact := Compacted(t);
    if |compact| <= max then compact
    else compact[..CutLength(max)] + DOTS
  }

  // ---------------------------------------------------------------- the compact form

  /** Single spaces are the only whitespace, and there is no control character. */
  predicate SingleSpaced(t: Text) {
    && (forall i :: 0 <= i < |t| ==> t[i] >= 32 && t[i] != 127 && (IsSpace(t[i]) ==> t[i] == 32))
    && forall i :: 0 < i < |t| ==> !(IsSpace(t[i - 1]) && IsSpace(t[i]))
  }

  /** Single-spaced and trimmed. */
  predicate Normal(t: Text) {
    SingleSpaced(t) && (t != [] ==> !IsSpace(t[0]) && !IsSpace(t[|t| - 1]))
  }

  predicate NoControl(t: Text) {
    forall i :: 0 <= i < |t| ==> !IsControl(t[i])
  }

  lemma {:induction false} CollapseSingleSpaces(t: Text)
    requires NoControl(t)
    ensures SingleSpaced(Collapse(t))
    ensures (t == [] <==> Collapse(t) == []) && (t != [] ==> (IsSpace(Collapse(t)[0]) <==> IsSpace(t[0])))
  {
    if t != [] {
      CollapseSingleSpaces(t[1..]);
      var rest := Collapse(t[1..]);
      if !IsSpace(t[0]) {
        SpacingOfCons(t[0], rest);
      } else if |t| == 1 || !IsSpace(t[1]) {
        SpacingOfCons(SPACE, rest);
      }
    }
  }

  lemma SpacingOfCons(u: CodeUnit, rest: Text)
    requires SingleSpaced(rest) && !IsControl(u) && (IsSpace(u) ==> u == SPACE && (rest == [] || !IsSpace(rest[0])))
    ensures SingleSpaced([u] + rest)
  {
    var t := [u] + rest;
    forall i | 0 < i < |t| ensures !(IsSpace(t[i - 1]) && IsSpace(t[i])) {
      if i > 1 { assert t[i - 1] == rest[i - 2] && t[i] == rest[i - 1]; }
    }
  }

  lemma {:induction false} CollapseKeepsSingleSpaced(t: Text)
    requires SingleSpaced(t)
    ensures Collapse(t) == t
  {
    if t != [] {
      SingleSpacedParts(t, 1, |t|);
      CollapseKeepsSingleSpaced(t[1..]);
      assert |t| > 1 ==> !(IsSpace(t[1 - 1]) && IsSpace(t[1]));
      assert t == [t[0]] + t[1..];
    }
  }

  lemma SingleSpacedParts(t: Text, i: nat, j: nat)
    requires SingleSpaced(t) && i <= j <= |t|
    ensures SingleSpaced(t[i..j])
  {
    var part := t[i..j];
    forall k | 0 < k < |part| ensures !(IsSpace(part[k - 1]) && IsSpace(part[k])) {
      assert part[k - 1] == t[i + k - 1] && part[k] == t[i + k];
    }
  }

  lemma {:induction false} TrimStartTrims(t: Text)
    requires SingleSpaced(t)
    ensures SingleSpaced(TrimStart(t)) && (TrimStart(t) != [] ==> !IsSpace(TrimStart(t)[0]))
  {
    if t != [] && IsSpace(t[0]) {
      SingleSpacedParts(t, 1, |t|);
      TrimStartTrims(t[1..]);
    }
  }

  lemma {:induction false} TrimEndTrims(t: Text)
    requires SingleSpaced(t) && (t != [] ==> !IsSpace(t[0]))
    ensures Normal(TrimEnd(t))
  {
    if t != [] && IsSpace(t[|t| - 1]) {
      SingleSpacedParts(t, 0, |t| - 1);
      TrimEndTrims(t[..|t| - 1]);
    }
  }

  lemma CompactedIsNormal(t: Text)
    ensures Normal(Compacted(t))
  {
    CollapseSingleSpaces(Printable(t));
    TrimStartTrims(Collapse(Printable(t)));
    TrimEndTrims(TrimStart(Collapse(Printable(t))));
  }

  lemma NormalIsCompacted(t: Text)
    requires Normal(t)
    ensures Compacted(t) == t
  {
    assert Printable(t) == t;
    CollapseKeepsSingleSpaced(t);
  }

  // ---------------------------------------------------------------- what is kept

  /** The visible units, in order. */
  function Visible(t: Text): Text {
    if t == [] then [] else (if IsSpace(t[0]) || IsControl(t[0]) then [] else [t[0]]) + Visible(t[1..])
  }

  lemma {:induction false} VisibleConcat(a: Text, b: Text)
    ensures Visible(a + b) == Visible(a) + Visible(b)
  {
    if a == [] {
      assert a + b == b;
    } else {
      assert (a + b)[1..] == a[1..] + b;
      VisibleConcat(a[1..], b);
    }
  }

  lemma {:induction false} PrintableKeepsVisible(t: Text)
    ensures Visible(Printable(t)) == Visible(t)
  {
    if t != [] {
      assert Printable(t)[1..] == Printable(t[1..]);
      PrintableKeepsVisible(t[1..]);
    }
  }

  lemma {:induction false} CollapseKeepsVisible(t: Text)
    ensures Visible(Collapse(t)) == Visible(t)
  {
    if t != [] {
      CollapseKeepsVisible(t[1..]);
      VisibleConcat([if IsSpace(t[0]) then SPACE else t[0]], Collapse(t[1..]));
    }
  }

  lemma {:induction false} TrimStartKeepsVisible(t: Text)
    ensures Visible(TrimStart(t)) == Visible(t)
  {
    if t != [] && IsSpace(t[0]) { TrimStartKeepsVisible(t[1..]); }
  }

  lemma {:induction false} TrimEndKeepsVisible(t: Text)
    ensures Visible(TrimEnd(t)) == Visible(t)
  {
    if t != [] && IsSpace(t[|t| - 1]) {
      TrimEndKeepsVisible(t[..|t| - 1]);
      VisibleConcat(t[..|t| - 1], [t[|t| - 1]]);
      assert t == t[..|t| - 1] + [t[|t| - 1]];
    }
  }

  /** Compacting loses no visible character and reorders none; a cut keeps a leading part of them. */
  lemma CompactKeepsVisible(t: Text, max: int)
    ensures Visible(Compacted(t)) == Visible(t)
    ensures |Compacted(t)| <= max ==> Visible(Compact(t, max)) == Visible(t)
    ensures |Compacted(t)| > max ==> exists kept: Text :: kept <= Visible(t) && Visible(Compact(t, max)) == kept + DOTS
  {
    PrintableKeepsVisible(t);
    CollapseKeepsVisible(Printable(t));
    TrimStartKeepsVisible(Collapse(Printable(t)));
    TrimEndKeepsVisible(TrimStart(Collapse(Printable(t))));
    var compact := Compacted(t);
    if |compact| > max {
      var cut := CutLength(max);
      assert compact == compact[..cut] + compact[cut..];
      VisibleConcat(compact[..cut], compact[cut..]);
      VisibleConcat(compact[..cut], DOTS);
      DotsAreVisible();
      assert Visible(compact[..cut]) <= Visible(t);
    }
  }

  lemma DotsAreVisible()
    ensures Visible(DOTS) == DOTS
  {
    assert DOTS[1..] == [46, 46] && DOTS[1..][1..] == [46] && DOTS[1..][1..][1..] == [];
  }

  // ---------------------------------------------------------------- idempotence and the limit

  lemma CutIsNormal(compact: Text, cut: nat)
    requires Normal(compact) && cut <= |compact|
    ensures Normal(compact[..cut] + DOTS)
  {
    var t := compact[..cut] + DOTS;
    SingleSpacedParts(compact, 0, cut);
    forall i | 0 <= i < |t| ensures !IsControl(t[i]) && (IsSpace(t[i]) ==> t[i] == SPACE) {
      if i < cut { assert t[i] == compact[i]; }
    }
    forall i | 0 < i < |t| ensures !(IsSpace(t[i - 1]) && IsSpace(t[i])) {
      if i < cut { assert t[i - 1] == compact[i - 1] && t[i] == compact[i]; }
    }
  }

  lemma CompactIsNormal(t: Text, max: int)
    ensures Normal(Compact(t, max))
  {
    CompactedIsNormal(t);
    var compact := Compacted(t);
    if |compact| > max {
      CutIsNormal(compact, CutLength(max));
    }
  }

  /** Compacting twice is compacting once, for every limit, even one too small for the dots; and the result
      is within the limit exactly if the limit leaves room for the dots or nothing is cut. */
  lemma CompactIsIdempotentAndBounded(t: Text, max: int)
    ensures Compact(Compact(t, max), max) == Compact(t, max)
    ensures |Compact(t, max)| <= max <==> max >= 3 || |Compacted(t)| <= max
  {
    CompactIsNormal(t, max);
    NormalIsCompacted(Compact(t, max));
  }
}
