/** The supervisor's metadata file (scripts/windows/PantheonSupervisor.cs): a JSON printer, and the text
    search that decides whether the file on disk is this supervisor's own. */
module SupervisorMetadata {
  import opened CodeUnits
  import opened Options
  import opened TextSearch
  import opened Totals

  const QUOTE: CodeUnit := 34
  const BACKSLASH: CodeUnit := 92
  const COLON: CodeUnit := 58
  const COMMA: CodeUnit := 44
  const OPEN: CodeUnit := 123
  const CLOSE: CodeUnit := 125
  const LOWER_N: CodeUnit := 110
  const LOWER_R: CodeUnit := 114
  const LOWER_T: CodeUnit := 116
  const LOWER_U: CodeUnit := 117
  const ZERO: CodeUnit := 48
  const NULL_TEXT: Text := [LOWER_N, LOWER_U, 108, 108]

  // ---------------------------------------------------------------- the printer

  /** A lower-case hexadecimal digit. */
  function HexDigit(n: nat): CodeUnit
    requires n < 16
  {
    if n < 10 then 48 + n else 87 + n
  }

  function EscapeUnit(u: CodeUnit): (r: Text)
    ensures r != []
  {
    if u == BACKSLASH then [BACKSLASH, BACKSLASH]
    else if u == QUOTE then [BACKSLASH, QUOTE]
    else if u == 13 then [BACKSLASH, LOWER_R]
    else if u == 10 then [BACKSLASH, LOWER_N]
    else if u == 9 then [BACKSLASH, LOWER_T]
    else if u < 32 then [BACKSLASH, LOWER_U, ZERO, ZERO, HexDigit(u / 16), HexDigit(u % 16)]
    else [u]
  }

  function Escaped(s: Text): Text {
    if s == [] then [] else EscapeUnit(s[0]) + Escaped(s[1..])
  }

  function JsonString(value: Option<Text>): Text {
    if value.None? then NULL_TEXT else [QUOTE] + Escaped(value.value) + [QUOTE]
  }

  function UnitOf(c: char): CodeUnit {
    if c as int < 0x1_0000 then c as int else 0
  }

  function Ascii(s: string): (r: Text)
    ensures |r| == |s| && forall i :: 0 <= i < |s| ==> r[i] == UnitOf(s[i])
  {
    seq(|s|, i requires 0 <= i < |s| => UnitOf(s[i]))
  }

  /** `JsonString`. */
  method PrintJsonString(value: Option<Text>) returns (text: Text)
    ensures text == JsonString(value)
    ensures value.Some? ==> forall rest :: Decode(text + rest) == Parsed(value.value, rest)
  {
    if value.None? { return NULL_TEXT; }
    var s := value.value;
    var escaped: Text := [QUOTE];
    for i := 0 to |s|
      invariant escaped + Escaped(s[i..]) == [QUOTE] + Escaped(s)
    {
      assert s[i..][0] == s[i] && s[i..][1..] == s[i + 1..];
      ConcatAssociates(escaped, EscapeUnit(s[i]), Escaped(s[i + 1..]));
      escaped := escaped + EscapeUnit(s[i]);
    }
    assert Escaped(s[|s|..]) == [] && escaped + [] == escaped;
    text := escaped + [QUOTE];
    forall rest ensures Decode(text + rest) == Parsed(s, rest) {
      DecodingUndoesPrinting(s, rest);
    }
  }

  // ---------------------------------------------------------------- RFC 8259, section 7

  datatype Decoded = Malformed | Parsed(value: Text, rest: Text)

  function HexValue(u: CodeUnit): Option<nat> {
    if 48 <= u <= 57 then Some(u - 48)
    else if 65 <= u <= 70 then Some(u - 55)
    else if 97 <= u <= 102 then Some(u - 87)
    else None
  }

  /** The code unit of a `\uXXXX` escape. */
  function HexEscape(t: Text): Option<CodeUnit>
    requires |t| >= 4
  {
    var a, b, c, d := HexValue(t[0]), HexValue(t[1]), HexValue(t[2]), HexValue(t[3]);
    if a.None? || b.None? || c.None? || d.None? then None
    else
      var n := ((a.value * 16 + b.value) * 16 + c.value) * 16 + d.value;
      if n < 0x1_0000 then Some(n) else None
  }

  /** The two-character escapes. */
  function SimpleEscape(u: CodeUnit): Option<CodeUnit> {
    if u in {34, 92, 47} then Some(u)
    else if u == 98 then Some(8)
    else if u == 102 then Some(12)
    else if u == 110 then Some(10)
    else if u == 114 then Some(13)
    else if u == 116 then Some(9)
    else None
  }

  function Prepend(u: CodeUnit, d: Decoded): Decoded {
    if d.Malformed? then Malformed else Parsed([u] + d.value, d.rest)
  }

  /** The characters of a string up to its closing quotation mark. */
  function DecodeChars(t: Text): Decoded {
    if t == [] then Malformed
    else if t[0] == QUOTE then Parsed([], t[1..])
    else if t[0] == BACKSLASH then
      if |t| >= 2 && SimpleEscape(t[1]).Some? then Prepend(SimpleEscape(t[1]).value, DecodeChars(t[2..]))
      else if |t| >= 6 && t[1] == LOWER_U && HexEscape(t[2..]).Some?
        then Prepend(HexEscape(t[2..]).value, DecodeChars(t[6..]))
      else Malformed
    else if t[0] < 32 then Malformed
    else Prepend(t[0], DecodeChars(t[1..]))
  }

  function Decode(t: Text): Decoded {
    if t == [] || t[0] != QUOTE then Malformed else DecodeChars(t[1..])
  }

  lemma DecodeOneUnit(u: CodeUnit, t: Text)
    ensures DecodeChars(EscapeUnit(u) + t) == Prepend(u, DecodeChars(t))
  {
    var whole := EscapeUnit(u) + t;
    if u in {BACKSLASH, QUOTE, 13, 10, 9} {
      assert whole[2..] == t;
    } else if u < 32 {
      assert whole[6..] == t;
      assert whole[2..][..4] == [ZERO, ZERO, HexDigit(u / 16), HexDigit(u % 16)];
      assert HexEscape(whole[2..]) == Some(u);
    } else {
      assert whole[1..] == t;
    }
  }

  lemma {:induction false} DecodeEscaped(s: Text, rest: Text)
    ensures DecodeChars(Escaped(s) + ([QUOTE] + rest)) == Parsed(s, rest)
  {
    if s == [] {
      assert Escaped(s) + ([QUOTE] + rest) == [QUOTE] + rest;
      assert ([QUOTE] + rest)[1..] == rest;
    } else {
      DecodeEscaped(s[1..], rest);
      DecodeOneUnit(s[0], Escaped(s[1..]) + ([QUOTE] + rest));
      ConcatAssociates(EscapeUnit(s[0]), Escaped(s[1..]), [QUOTE] + rest);
      assert [s[0]] + s[1..] == s;
    }
  }

  /** Decoding a printed string gives the string back, whatever text follows it. */
  lemma DecodingUndoesPrinting(s: Text, rest: Text)
    ensures Decode(JsonString(Some(s)) + rest) == Parsed(s, rest)
  {
    DecodeEscaped(s, rest);
    Unquote(Escaped(s), rest);
  }

  lemma Unquote(inner: Text, rest: Text)
    ensures var whole := [QUOTE] + inner + [QUOTE] + rest; whole[0] == QUOTE && whole[1..] == inner + ([QUOTE] + rest)
  {
  }

  // ---------------------------------------------------------------- the document

  datatype Value = Number(digits: Text) | String(text: Option<Text>)

  datatype Member = Member(key: Text, value: Value)

  predicate Plain(t: Text) {
    forall i :: 0 <= i < |t| ==> 48 <= t[i] <= 57 || 65 <= t[i] <= 90 || 97 <= t[i] <= 122
  }

  predicate Printable(m: Member) {
    Plain(m.key) && m.key != [] && (m.value.Number? ==> Plain(m.value.digits))
  }

  function ValueText(v: Value): Text {
    match v
    case Number(digits) => digits
    case String(text) => JsonString(text)
  }

  /** The text from a member on, with the separators and the closing brace. */
  function MembersText(ms: seq<Member>): Text {
    if ms == [] then [CLOSE]
    else MemberText(ms[0], if |ms| == 1 then MembersText(ms[1..]) else [COMMA] + MembersText(ms[1..]))
  }

  function MemberText(m: Member, rest: Text): Text {
    KeyText(m.key) + (ValueText(m.value) + rest)
  }

  function KeyText(key: Text): Text {
    [QUOTE] + key + [QUOTE, COLON]
  }

  function Document(ms: seq<Member>): Text {
    [OPEN] + MembersText(ms)
  }

  // ---------------------------------------------------------------- the search

  /** What `DeleteOwnedMetadata` looks for. */
  function Identity(key: Text, start: Text): Text {
    KeyText(key) + JsonString(Some(start))
  }

  /** Inside a printed string every quotation mark follows a backslash. */
  lemma {:induction false} InnerQuotesAreEscaped(s: Text, j: nat)
    requires j < |Escaped(s)| && Escaped(s)[j] == QUOTE
    ensures j > 0 && Escaped(s)[j - 1] == BACKSLASH
  {
    var n := |EscapeUnit(s[0])|;
    if j >= n { InnerQuotesAreEscaped(s[1..], j - n); }
  }

  /** A value with a quotation mark is a string: the mark opens it, closes it or follows a backslash. */
  lemma QuotesOfValue(value: Value, i: nat)
    requires (value.Number? ==> Plain(value.digits)) && i < |ValueText(value)| && ValueText(value)[i] == QUOTE
    ensures ValueText(value)[|ValueText(value)| - 1] == QUOTE
    ensures 0 < i < |ValueText(value)| - 1 ==> ValueText(value)[i - 1] == BACKSLASH
  {
    if value.String? && value.text.Some? && 0 < i < |ValueText(value)| - 1 {
      var s := value.text.value;
      var v := [QUOTE] + Escaped(s) + [QUOTE];
      assert v[i] == Escaped(s)[i - 1];
      InnerQuotesAreEscaped(s, i - 1);
      assert v[i - 1] == Escaped(s)[i - 2];
    }
  }

  /** `"key":` stands at position `p`. */
  ghost predicate KeyAt(t: Text, key: Text, p: nat) {
    && p + |key| + 2 < |t| && t[p] == QUOTE && t[p + |key| + 1] == QUOTE && t[p + |key| + 2] == COLON
    && forall i :: 0 <= i < |key| ==> t[p + 1 + i] == key[i]
  }

  lemma KeyChar(t: Text, key: Text, p: nat, i: nat)
    requires KeyAt(t, key, p) && Plain(key) && i < |key|
    ensures t[p + 1 + i] == key[i] && t[p + 1 + i] != QUOTE && t[p + 1 + i] != COLON && t[p + 1 + i] != BACKSLASH
    ensures t[p + 1 + i] != COMMA && t[p + 1 + i] != CLOSE
  {
  }

  lemma OccurrenceHasKey(t: Text, key: Text, start: Text, p: nat)
    requires OccursAt(t, Identity(key, start), p)
    ensures KeyAt(t, key, p)
    ensures OccursAt(t, JsonString(Some(start)), p + |key| + 3)
  {
    var pattern := Identity(key, start);
    var printed := JsonString(Some(start));
    assert pattern[0] == QUOTE && pattern[|key| + 1] == QUOTE && pattern[|key| + 2] == COLON;
    assert t[p + 0] == QUOTE && t[p + (|key| + 1)] == QUOTE && t[p + (|key| + 2)] == COLON;
    forall i | 0 <= i < |key| ensures t[p + 1 + i] == key[i] {
      assert pattern[1 + i] == key[i] && t[p + (1 + i)] == pattern[1 + i];
    }
    forall i | 0 <= i < |printed| ensures t[p + |key| + 3 + i] == printed[i] {
      assert pattern[|key| + 3 + i] == printed[i] && t[p + (|key| + 3 + i)] == pattern[|key| + 3 + i];
    }
  }

  /** The characters of a member and of the separator after it. */
  lemma MemberChars(m: Member, sep: CodeUnit, rest: Text, i: nat)
    requires i < |m.key| + 3 + |ValueText(m.value)| + 1
    ensures var t := MemberText(m, [sep] + rest); var k := |m.key|; var v := ValueText(m.value);
      && i < |t|
      && t[i] == if i == 0 then QUOTE
                 else if i <= k then m.key[i - 1]
                 else if i == k + 1 then QUOTE
                 else if i == k + 2 then COLON
                 else if i < k + 3 + |v| then v[i - k - 3]
                 else sep
  {
  }

  /** `"key":` cannot reach the closing quotation mark of a value. */
  lemma KeyEndsBeforeValueDoes(m: Member, sep: CodeUnit, rest: Text, key: Text, p: nat)
    requires Printable(m) && Plain(key) && key != [] && sep in {COMMA, CLOSE}
    requires |m.key| + 3 <= p < |m.key| + 3 + |ValueText(m.value)| && KeyAt(MemberText(m, [sep] + rest), key, p)
    ensures p + |key| + 1 < |m.key| + 2 + |ValueText(m.value)|
  {
    var t, base := MemberText(m, [sep] + rest), |m.key| + 3;
    var last := base + |ValueText(m.value)| - 1;
    MemberChars(m, sep, rest, p);
    QuotesOfValue(m.value, p - base);
    MemberChars(m, sep, rest, last);
    MemberChars(m, sep, rest, last + 1);
    KeyChar(t, key, p, 0);
    if p < last < p + |key| + 1 {
      KeyChar(t, key, p, last - p - 1);
    }
  }

  lemma QuoteInsideValue(m: Member, sep: CodeUnit, rest: Text, q: nat)
    requires Printable(m) && |m.key| + 3 < q < |m.key| + 2 + |ValueText(m.value)| <= |MemberText(m, [sep] + rest)|
    requires MemberText(m, [sep] + rest)[q] == QUOTE
    ensures MemberText(m, [sep] + rest)[q - 1] == BACKSLASH
  {
    MemberChars(m, sep, rest, q);
    MemberChars(m, sep, rest, q - 1);
    QuotesOfValue(m.value, q - (|m.key| + 3));
  }

  /** `"key":` stands nowhere in a value or across its end. */
  lemma NoKeyInsideValue(m: Member, sep: CodeUnit, rest: Text, key: Text, p: nat)
    requires Printable(m) && Plain(key) && key != [] && sep in {COMMA, CLOSE}
    requires |m.key| + 3 <= p < |m.key| + 3 + |ValueText(m.value)|
    ensures !KeyAt(MemberText(m, [sep] + rest), key, p)
  {
    var t := MemberText(m, [sep] + rest);
    if KeyAt(t, key, p) {
      KeyEndsBeforeValueDoes(m, sep, rest, key, p);
      KeyChar(t, key, p, |key| - 1);
      QuoteInsideValue(m, sep, rest, p + |key| + 1);
    }
  }

  /** Within a member, `"key":` can only stand at its start, and then it is the member's key. */
  lemma KeyStandsAtMember(m: Member, sep: CodeUnit, rest: Text, key: Text, p: nat)
    requires Printable(m) && Plain(key) && key != [] && sep in {COMMA, CLOSE}
    requires p <= |m.key| + 3 + |ValueText(m.value)| && KeyAt(MemberText(m, [sep] + rest), key, p)
    ensures p == 0 && key == m.key
  {
    var t, k := MemberText(m, [sep] + rest), |m.key|;
    MemberChars(m, sep, rest, p);
    MemberChars(m, sep, rest, k + 2);
    KeyChar(t, key, p, 0);
    if k + 3 <= p < k + 3 + |ValueText(m.value)| {
      NoKeyInsideValue(m, sep, rest, key, p);
    } else if p == 0 {
      SameKey(m, sep, rest, key);
    }
  }

  lemma SameKey(m: Member, sep: CodeUnit, rest: Text, key: Text)
    requires Printable(m) && Plain(key) && key != [] && KeyAt(MemberText(m, [sep] + rest), key, 0)
    ensures key == m.key
  {
    var t, k := MemberText(m, [sep] + rest), |m.key|;
    MemberChars(m, sep, rest, k + 1);
    if |key| < k {
      MemberChars(m, sep, rest, |key| + 1);
    } else if |key| > k {
      KeyChar(t, key, 0, k);
    }
    forall i | 0 <= i < |key| && i < k ensures key[i] == m.key[i] {
      MemberChars(m, sep, rest, i + 1);
      KeyChar(t, key, 0, i);
    }
  }

  /** A value's text starts with a printed string exactly if it is that string. */
  lemma PrintedStringIsValue(value: Value, sep: CodeUnit, rest: Text, start: Text)
    requires (value.Number? ==> Plain(value.digits)) && sep in {COMMA, CLOSE}
    ensures OccursAt(ValueText(value) + ([sep] + rest), JsonString(Some(start)), 0) <==> value == String(Some(start))
  {
    var text, printed := ValueText(value) + ([sep] + rest), JsonString(Some(start));
    if value == String(Some(start)) {
      assert text[..|printed|] == printed;
    }
    if OccursAt(text, printed, 0) {
      assert text[0 + 0] == printed[0] == QUOTE;
      StartsWith(text, printed);
      DecodingUndoesPrinting(start, text[|printed|..]);
      if value.String? && value.text.Some? {
        DecodingUndoesPrinting(value.text.value, [sep] + rest);
      }
    }
  }

  lemma StartsWith(text: Text, printed: Text)
    requires OccursAt(text, printed, 0)
    ensures text == printed + text[|printed|..]
  {
    assert forall i :: 0 <= i < |printed| ==> text[0 + i] == printed[i];
  }

  /** The text after a member starts with its separator. */
  lemma MembersSplit(ms: seq<Member>) returns (sep: CodeUnit, rest: Text)
    requires ms != []
    ensures sep in {COMMA, CLOSE} && MembersText(ms) == MemberText(ms[0], [sep] + rest)
    ensures |ms| == 1 ==> sep == CLOSE && rest == []
    ensures |ms| > 1 ==> sep == COMMA && rest == MembersText(ms[1..])
  {
    if |ms| == 1 {
      assert ms[1..] == [];
      sep, rest := CLOSE, [];
      assert [sep] + rest == [CLOSE];
    } else {
      sep, rest := COMMA, MembersText(ms[1..]);
    }
  }

  ghost predicate HasMember(ms: seq<Member>, m: Member) {
    exists i :: 0 <= i < |ms| && ms[i] == m
  }

  ghost predicate AllPrintable(ms: seq<Member>) {
    forall i :: 0 <= i < |ms| ==> Printable(ms[i])
  }

  lemma HasMemberSplits(ms: seq<Member>, m: Member)
    requires ms != []
    ensures HasMember(ms, m) <==> ms[0] == m || HasMember(ms[1..], m)
  {
    if HasMember(ms[1..], m) {
      var i :| 0 <= i < |ms[1..]| && ms[1..][i] == m;
      assert ms[i + 1] == m;
    }
    if HasMember(ms, m) && ms[0] != m {
      var i :| 0 <= i < |ms| && ms[i] == m;
      assert ms[1..][i - 1] == m;
    }
  }

  /** The search at the member itself. */
  lemma OccursAtMember(m: Member, sep: CodeUnit, rest: Text, key: Text, start: Text)
    requires Printable(m) && Plain(key) && key != [] && sep in {COMMA, CLOSE}
    ensures OccursAt(MemberText(m, [sep] + rest), Identity(key, start), 0) <==> m == Member(key, String(Some(start)))
  {
    var t, pattern := MemberText(m, [sep] + rest), Identity(key, start);
    PrintedStringIsValue(m.value, sep, rest, start);
    if OccursAt(t, pattern, 0) {
      OccurrenceHasKey(t, key, start, 0);
      KeyStandsAtMember(m, sep, rest, key, 0);
      OccursInTail(KeyText(m.key), ValueText(m.value) + ([sep] + rest), JsonString(Some(start)), |key| + 3);
    }
    if m == Member(key, String(Some(start))) {
      ConcatAssociates(KeyText(key), JsonString(Some(start)), [sep] + rest);
      assert t == pattern + ([sep] + rest);
    }
  }

  lemma OccursNowhereElse(m: Member, sep: CodeUnit, rest: Text, key: Text, start: Text, p: nat)
    requires Printable(m) && Plain(key) && key != [] && sep in {COMMA, CLOSE}
    requires 0 < p <= |m.key| + 3 + |ValueText(m.value)|
    ensures !OccursAt(MemberText(m, [sep] + rest), Identity(key, start), p)
  {
    if OccursAt(MemberText(m, [sep] + rest), Identity(key, start), p) {
      OccurrenceHasKey(MemberText(m, [sep] + rest), key, start, p);
      KeyStandsAtMember(m, sep, rest, key, p);
    }
  }

  lemma SearchSkipsMember(m: Member, sep: CodeUnit, rest: Text, key: Text, start: Text)
    requires Printable(m) && Plain(key) && key != [] && sep in {COMMA, CLOSE}
    ensures Contains(MemberText(m, [sep] + rest), Identity(key, start)) <==>
              m == Member(key, String(Some(start))) || Contains(rest, Identity(key, start))
  {
    var left, pattern := KeyText(m.key) + (ValueText(m.value) + [sep]), Identity(key, start);
    ConcatAssociates(KeyText(m.key), ValueText(m.value) + [sep], rest);
    ConcatAssociates(ValueText(m.value), [sep], rest);
    assert MemberText(m, [sep] + rest) == left + rest;
    forall p: nat | 0 < p < |left| ensures !OccursAt(left + rest, pattern, p) {
      OccursNowhereElse(m, sep, rest, key, start, p);
    }
    ContainsSplits(left, rest, pattern);
    OccursAtMember(m, sep, rest, key, start);
  }

  lemma {:induction false} SearchFindsMembers(ms: seq<Member>, key: Text, start: Text)
    requires AllPrintable(ms) && Plain(key) && key != []
    ensures Contains(MembersText(ms), Identity(key, start)) <==> HasMember(ms, Member(key, String(Some(start))))
  {
    if ms != [] {
      var sep, rest := MembersSplit(ms);
      SearchSkipsMember(ms[0], sep, rest, key, start);
      HasMemberSplits(ms, Member(key, String(Some(start))));
      if |ms| > 1 { SearchFindsMembers(ms[1..], key, start); }
    }
  }

  /** The text search finds `"key":"start"` in a document exactly if the document has a member with that key
      whose value is that string: no other member, and nothing inside a string, can be mistaken for it. */
  lemma SearchIsExact(ms: seq<Member>, key: Text, start: Text)
    requires AllPrintable(ms) && Plain(key) && key != []
    ensures Contains(Document(ms), Identity(key, start)) <==> HasMember(ms, Member(key, String(Some(start))))
  {
    SearchFindsMembers(ms, key, start);
    ContainsSplits([OPEN], MembersText(ms), Identity(key, start));
    assert Document(ms)[0 + 0] == OPEN && Identity(key, start)[0] == QUOTE;
  }
}
