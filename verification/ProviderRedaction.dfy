/** Replacing secrets in provider text (src/adapters/openai-egress-policy.js): one pass per secret, each
    over the text the earlier passes left. */
module ProviderRedaction {
  import opened CodeUnits
  import opened Options
  import opened TextSearch

  /** "[REDACTED]" in UTF-16 code units. */
  const MARK: Text := [91, 82, 69, 68, 65, 67, 84, 69, 68, 93]
  const OPEN_BRACKET: CodeUnit := 91
  const CLOSE_BRACKET: CodeUnit := 93

  // ---------------------------------------------------------------- split and join

  /** The first occurrence at or after `p`. */
  function FirstFrom(t: Text, x: Text, p: nat): (r: Option<nat>)
    requires p <= |t|
    ensures r.Some? ==> p <= r.value <= |t| && OccursAt(t, x, r.value)
    ensures forall q :: p <= q <= |t| && (r.None? || q < r.value) ==> !OccursAt(t, x, q)
    decreases |t| - p
  {
    if OccursAt(t, x, p) then Some(p)
    else if p == |t| then None
    else FirstFrom(t, x, p + 1)
  }

  function First(t: Text, x: Text): Option<nat> {
    FirstFrom(t, x, 0)
  }

  /** `t.split(x)`. */
  function Pieces(t: Text, x: Text): (r: seq<Text>)
    requires x != []
    ensures r != []
    decreases |t|
  {
    var f := First(t, x);
    if f.None? then [t] else [t[..f.value]] + Pieces(t[f.value + |x|..], x)
  }

  /** `pieces.join(mark)`. */
  function Join(pieces: seq<Text>, mark: Text): Text {
    if pieces == [] then []
    else if |pieces| == 1 then pieces[0]
    else pieces[0] + (mark + Join(pieces[1..], mark))
  }

  /** Splitting and joining in one: every occurrence found from the left gives way to `mark`. */
  function Replace(t: Text, x: Text, mark: Text): Text
    requires x != []
    decreases |t|
  {
    var f := First(t, x);
    if f.None? then t else t[..f.value] + (mark + Replace(t[f.value + |x|..], x, mark))
  }

  /** One pass: `text.split(secret).join("[REDACTED]")`, skipped for an empty secret. */
  function Redact(t: Text, secret: Text): Text {
    if secret == [] then t else Replace(t, secret, MARK)
  }

  function RedactAll(t: Text, secrets: seq<Text>): Text {
    if secrets == [] then t else Redact(RedactAll(t, secrets[..|secrets| - 1]), secrets[|secrets| - 1])
  }

  /** The secret loop of `redactProviderText`. */
  method RedactSecrets(value: Text, secrets: seq<Text>) returns (redacted: Text)
    ensures redacted == RedactAll(value, secrets)
    ensures forall s :: s in secrets && s != [] && Unmarked(s) ==> !Contains(redacted, s)
  {
    redacted := value;
    for i := 0 to |secrets|
      invariant redacted == RedactAll(value, secrets[..i])
    {
      var exact := secrets[i];
      assert secrets[..i + 1][..i] == secrets[..i];
      if exact != [] {
        JoinOfPieces(redacted, exact, MARK);
        redacted := Join(Pieces(redacted, exact), MARK);
      }
    }
    assert secrets[..|secrets|] == secrets;
    forall s | s in secrets && s != [] && Unmarked(s) ensures !Contains(redacted, s) {
      NoSecretRemains(value, secrets, s);
    }
  }

  // ---------------------------------------------------------------- one pass

  lemma JoinOfMore(first: Text, rest: seq<Text>, mark: Text, joined: Text)
    requires rest != [] && Join(rest, mark) == joined
    ensures Join([first] + rest, mark) == first + (mark + joined)
  {
    assert ([first] + rest)[1..] == rest;
  }

  /** `t.split(x).join(mark)` replaces the occurrences. */
  lemma {:induction false} JoinOfPieces(t: Text, x: Text, mark: Text)
    requires x != []
    ensures Join(Pieces(t, x), mark) == Replace(t, x, mark)
    decreases |t|
  {
    var f := First(t, x);
    if f.Some? {
      var rest := t[f.value + |x|..];
      JoinOfPieces(rest, x, mark);
      JoinOfMore(t[..f.value], Pieces(rest, x), mark, Replace(rest, x, mark));
    }
  }

  lemma {:induction false} ReplacingByItselfKeeps(t: Text, x: Text)
    requires x != []
    ensures Replace(t, x, x) == t
    decreases |t|
  {
    var f := First(t, x);
    if f.Some? {
      var rest := t[f.value + |x|..];
      ReplacingByItselfKeeps(rest, x);
      AroundOccurrence(t, x, f.value, rest);
    }
  }

  /** Nothing but the occurrences is lost: putting the separator back gives the text back. */
  lemma JoinUndoesSplit(t: Text, x: Text)
    requires x != []
    ensures Join(Pieces(t, x), x) == t
  {
    JoinOfPieces(t, x, x);
    ReplacingByItselfKeeps(t, x);
  }

  lemma AroundOccurrence(t: Text, x: Text, p: nat, rest: Text)
    requires OccursAt(t, x, p) && rest == t[p + |x|..]
    ensures t[..p] + (x + rest) == t
  {
    assert t[p..p + |x|] == x by {
      forall i | 0 <= i < |x| ensures t[p..p + |x|][i] == x[i] { assert t[p + i] == x[i]; }
    }
  }

  lemma OccursInStart(t: Text, k: nat, s: Text, p: nat)
    requires k <= |t| && OccursAt(t[..k], s, p)
    ensures OccursAt(t, s, p)
  {
    forall i | 0 <= i < |s| ensures t[p + i] == s[i] { assert t[..k][p + i] == s[i]; }
  }

  lemma OccursInRest(t: Text, k: nat, s: Text, q: nat)
    requires k <= |t| && OccursAt(t[k..], s, q)
    ensures OccursAt(t, s, q + k)
  {
    forall i | 0 <= i < |s| ensures t[q + k + i] == s[i] { assert t[k..][q + i] == s[i]; }
  }

  /** `s`, laid over `mark` so that it starts `d` units after the mark does, agrees with it wherever the
      two meet. */
  ghost predicate Fits(s: Text, mark: Text, d: int) {
    forall i :: 0 <= i < |s| && 0 <= d + i < |mark| ==> s[i] == mark[d + i]
  }

  /** No way of laying `s` over `mark`, in part or in whole, fits. */
  ghost predicate KeepsOff(s: Text, mark: Text) {
    forall d :: -|s| < d < |mark| ==> !Fits(s, mark, d)
  }

  ghost predicate Unmarked(s: Text) {
    KeepsOff(s, MARK)
  }

  lemma OccursInFront(left: Text, right: Text, s: Text, p: nat)
    requires OccursAt(left + right, s, p) && p + |s| <= |left|
    ensures OccursAt(left, s, p)
  {
    forall i | 0 <= i < |s| ensures left[p + i] == s[i] { assert (left + right)[p + i] == left[p + i]; }
  }

  /** An occurrence of `s` that reaches into the mark lays `s` over it. */
  lemma ReachingTheMarkFits(left: Text, mark: Text, right: Text, s: Text, p: nat)
    requires OccursAt(left + (mark + right), s, p)
    ensures Fits(s, mark, p - |left|)
  {
    var t, d := left + (mark + right), p - |left|;
    forall i | 0 <= i < |s| && 0 <= d + i < |mark| ensures s[i] == mark[d + i] {
      assert t[p + i] == mark[d + i];
    }
  }

  /** A text that keeps off the mark occurs before it or after it. */
  lemma OccursBesideTheMark(left: Text, mark: Text, right: Text, s: Text, p: nat)
    requires s != [] && KeepsOff(s, mark) && OccursAt(left + (mark + right), s, p)
    ensures OccursAt(left, s, p) || (p >= |left| + |mark| && OccursAt(right, s, p - |left| - |mark|))
  {
    ReachingTheMarkFits(left, mark, right, s, p);
    if p + |s| <= |left| {
      OccursInFront(left, mark + right, s, p);
    } else {
      OccursInTail(left, mark + right, s, p);
      OccursInTail(mark, right, s, p - |left|);
    }
  }

  /** A pass creates no occurrence of a text that keeps off the mark, and leaves none of what it replaces. */
  lemma {:induction false} PassAddsNothing(t: Text, x: Text, mark: Text, s: Text, p: nat)
    requires x != [] && s != [] && KeepsOff(s, mark) && OccursAt(Replace(t, x, mark), s, p)
    ensures s != x && Contains(t, s)
    decreases |t|
  {
    var f := First(t, x);
    if f.Some? {
      var k := f.value + |x|;
      OccursBesideTheMark(t[..f.value], mark, Replace(t[k..], x, mark), s, p);
      if OccursAt(t[..f.value], s, p) {
        OccursInStart(t, f.value, s, p);
      } else {
        PassAddsNothing(t[k..], x, mark, s, p - f.value - |mark|);
        ContainsInRest(t, k, s);
      }
    }
  }

  lemma ContainsInRest(t: Text, k: nat, s: Text)
    requires k <= |t| && Contains(t[k..], s)
    ensures Contains(t, s)
  {
    var q :| 0 <= q <= |t[k..]| && OccursAt(t[k..], s, q);
    OccursInRest(t, k, s, q);
  }

  // ---------------------------------------------------------------- all passes

  /** An unmarked secret is gone once its own pass is over, and no later pass brings it back. */
  lemma {:induction false} NoSecretRemains(t: Text, secrets: seq<Text>, s: Text)
    requires s in secrets && s != [] && Unmarked(s)
    ensures !Contains(RedactAll(t, secrets), s)
  {
    var n := |secrets| - 1;
    var before, last := RedactAll(t, secrets[..n]), secrets[n];
    forall p: nat | OccursAt(RedactAll(t, secrets), s, p) ensures s != last && Contains(before, s) {
      if last != [] { PassAddsNothing(before, last, MARK, s, p); }
    }
    if s != last {
      assert s in secrets[..n];
      NoSecretRemains(t, secrets[..n], s);
    }
  }

  lemma BracketsDoNotFit(s: Text, d: int)
    requires OPEN_BRACKET !in s && CLOSE_BRACKET !in s && -|s| < d < |MARK|
    ensures d <= 0 || d + |s| >= |MARK| ==> !Fits(s, MARK, d)
  {
    if d <= 0 {
      assert s[-d] != MARK[d + -d];
    } else if d + |s| >= |MARK| {
      var i := |MARK| - 1 - d;
      assert s[i] != MARK[d + i];
    }
  }

  /** A secret without square brackets is unmarked exactly if it does not occur inside the word REDACTED. */
  lemma BracketFreeSecrets(s: Text)
    requires s != [] && OPEN_BRACKET !in s && CLOSE_BRACKET !in s
    ensures Unmarked(s) <==> !Contains(MARK[1..9], s)
  {
    var word := MARK[1..9];
    forall d | -|s| < d < |MARK| && Fits(s, MARK, d) ensures d >= 1 && OccursAt(word, s, d - 1) {
      BracketsDoNotFit(s, d);
      forall i | 0 <= i < |s| ensures word[d - 1 + i] == s[i] { assert s[i] == MARK[d + i]; }
    }
    if Contains(word, s) {
      var p :| 0 <= p <= |word| && OccursAt(word, s, p);
      forall i | 0 <= i < |s| && 0 <= p + 1 + i < |MARK| ensures s[i] == MARK[p + 1 + i] { assert word[p + i] == s[i]; }
      assert Fits(s, MARK, p + 1);
    }
  }

  // ---------------------------------------------------------------- the condition is exact

  /** `n` copies of one unit. */
  function Copies(c: CodeUnit, n: nat): (r: Text)
    ensures |r| == n && forall i :: 0 <= i < n ==> r[i] == c
  {
    seq(n, _ => c)
  }

  /** A unit that differs from three given ones. */
  function OtherUnit(a: CodeUnit, b: CodeUnit, c: CodeUnit): (r: CodeUnit)
    ensures r != a && r != b && r != c
  {
    if 0 !in {a, b, c} then 0 else if 1 !in {a, b, c} then 1 else if 2 !in {a, b, c} then 2 else 3
  }

  /** What stands before and after the mark when `s` is laid over it at `d`. */
  function Before(s: Text, d: int): Text
    requires -|s| < d
  {
    if d < 0 then s[..-d] else []
  }

  function After(s: Text, mark: Text, d: int): Text
    requires -|s| < d < |mark|
  {
    if d + |s| > |mark| then s[|mark| - d..] else []
  }

  lemma LaidOverTheMark(s: Text, mark: Text, d: int)
    requires -|s| < d < |mark| && Fits(s, mark, d)
    ensures Contains(Before(s, d) + (mark + After(s, mark, d)), s)
  {
    var t, p := Before(s, d) + (mark + After(s, mark, d)), if d < 0 then 0 else d;
    forall i | 0 <= i < |s| ensures t[p + i] == s[i] {
      if 0 <= d + i < |mark| { assert t[p + i] == mark[d + i]; }
    }
    assert OccursAt(t, s, p);
  }

  /** A companion secret that is longer than `s` and shares neither its ends nor the end of `u`. */
  function Companion(s: Text, u: Text): Text
    requires s != []
  {
    Copies(OtherUnit(s[0], s[|s| - 1], if u == [] then s[0] else u[|u| - 1]), |s| + 1)
  }

  lemma CompanionHidesTheSecret(s: Text, u: Text, v: Text)
    requires s != [] && |u| < |s| && |v| < |s|
    ensures !Contains(u + (Companion(s, u) + v), s)
  {
    var z, t := Companion(s, u), u + (Companion(s, u) + v);
    forall p | 0 <= p <= |t| ensures !OccursAt(t, s, p) {
      if p + |s| <= |t| {
        var last := p + |s| - 1;
        if |u| <= p < |u| + |z| {
          assert t[p + 0] == z[p - |u|] != s[0];
        } else if |u| <= last < |u| + |z| {
          assert t[p + (|s| - 1)] == z[last - |u|] != s[|s| - 1];
        }
      }
    }
  }

  lemma CompanionIsFoundWhole(s: Text, u: Text, v: Text)
    requires s != [] && |u| < |s| && |v| < |s|
    ensures First(u + (Companion(s, u) + v), Companion(s, u)) == Some(|u|)
    ensures First(v, Companion(s, u)) == None
  {
    var z, t := Companion(s, u), u + (Companion(s, u) + v);
    assert OccursAt(t, z, |u|);
    forall q | 0 <= q < |u| ensures !OccursAt(t, z, q) {
      assert t[q + (|u| - 1 - q)] == u[|u| - 1] != z[|u| - 1 - q];
    }
  }

  lemma CompanionBecomesTheMark(s: Text, u: Text, v: Text, mark: Text)
    requires s != [] && |u| < |s| && |v| < |s|
    ensures Replace(u + (Companion(s, u) + v), Companion(s, u), mark) == u + (mark + v)
  {
    CompanionIsFoundWhole(s, u, v);
    Parts(u, Companion(s, u), v);
    assert Replace(v, Companion(s, u), mark) == v;
  }

  lemma Parts(u: Text, z: Text, v: Text)
    ensures (u + (z + v))[..|u|] == u && (u + (z + v))[|u| + |z|..] == v
  {
  }

  lemma PassWithoutOccurrence(t: Text, s: Text)
    requires !Contains(t, s)
    ensures Redact(t, s) == t
  {
  }

  lemma TwoPasses(t: Text, s: Text, z: Text)
    ensures RedactAll(t, [s, z]) == Redact(Redact(t, s), z)
  {
    assert [s, z][..1] == [s] && [s][..0] == [];
    assert RedactAll(t, []) == t && RedactAll(t, [s]) == Redact(t, s);
  }

  /** A secret that can be laid over the mark is rebuilt by the pass of a companion secret. */
  lemma MarkedSecretCanRemain(s: Text, d: int)
    requires s != [] && -|s| < d < |MARK| && Fits(s, MARK, d)
    ensures var u, v := Before(s, d), After(s, MARK, d); var z := Companion(s, u);
      Contains(RedactAll(u + (z + v), [s, z]), s)
  {
    var u, v := Before(s, d), After(s, MARK, d);
    var z := Companion(s, u);
    CompanionHidesTheSecret(s, u, v);
    PassWithoutOccurrence(u + (z + v), s);
    CompanionBecomesTheMark(s, u, v, MARK);
    LaidOverTheMark(s, MARK, d);
    TwoPasses(u + (z + v), s, z);
  }

  ghost predicate AlwaysGone(s: Text) {
    forall t, secrets :: s in secrets ==> !Contains(RedactAll(t, secrets), s)
  }

  /** A secret is gone from every text, whatever else is listed and in whatever order, exactly if it cannot
      be laid over the mark. */
  lemma SecretsAreAlwaysGoneIffUnmarked(s: Text)
    requires s != []
    ensures AlwaysGone(s) <==> Unmarked(s)
  {
    if Unmarked(s) {
      forall t, secrets | s in secrets ensures !Contains(RedactAll(t, secrets), s) {
        NoSecretRemains(t, secrets, s);
      }
    } else {
      var d :| -|s| < d < |MARK| && Fits(s, MARK, d);
      MarkedSecretCanRemain(s, d);
      assert s in [s, Companion(s, Before(s, d))];
    }
  }
}
