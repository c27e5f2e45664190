/** A reader for the flat JSON objects the supervisor writes, as the meaning its text search is measured
    against. */
module MetadataParser {
  import opened CodeUnits
  import opened Options
  import opened SupervisorMetadata

  datatype Token<+T> = Bad | Good(value: T, rest: Text)

  predicate IsDigit(u: CodeUnit) {
    48 <= u <= 57
  }

  function DigitRun(t: Text): (n: nat)
    ensures n <= |t| && (n < |t| ==> !IsDigit(t[n]))
  {
    if t == [] || !IsDigit(t[0]) then 0 else 1 + DigitRun(t[1..])
  }

  function ReadString(t: Text): Token<Text> {
    var d := Decode(t);
    if d.Malformed? then Bad else Good(d.value, d.rest)
  }

  /** A string, `null`, or a run of digits. */
  function ReadValue(t: Text): Token<Value> {
    if t != [] && t[0] == QUOTE then
      var s := ReadString(t);
      if s.Bad? then Bad else Good(String(Some(s.value)), s.rest)
    else if NULL_TEXT <= t then Good(String(None), t[4..])
    else if DigitRun(t) > 0 then Good(Number(t[..DigitRun(t)]), t[DigitRun(t)..])
    else Bad
  }

  function ReadMember(t: Text): Token<Member> {
    var key := ReadString(t);
    if key.Bad? || key.rest == [] || key.rest[0] != COLON then Bad
    else
      var value := ReadValue(key.rest[1..]);
      if value.Bad? then Bad else Good(Member(key.value, value.value), value.rest)
  }

  /** Items up to the closing brace, each read by `read`; `fuel` bounds their number. */
  function ReadItems<T>(read: Text -> Token<T>, t: Text, fuel: nat): Option<seq<T>>
    decreases fuel
  {
    var m := read(t);
    if fuel == 0 || m.Bad? || m.rest == [] then None
    else if m.rest == [CLOSE] then Some([m.value])
    else if m.rest[0] != COMMA then None
    else
      var more := ReadItems(read, m.rest[1..], fuel - 1);
      if more.None? then None else Some([m.value] + more.value)
  }

  /** No object has more members than characters. */
  function ReadDocument(t: Text): Option<seq<Member>> {
    if t == [OPEN, CLOSE] then Some([])
    else if t == [] || t[0] != OPEN then None
    else ReadItems(ReadMember, t[1..], |t|)
  }

  // ---------------------------------------------------------------- reading what was written

  predicate Readable(m: Member) {
    && Printable(m)
    && (m.value.Number? ==> m.value.digits != [] && forall i :: 0 <= i < |m.value.digits| ==>
        IsDigit(m.value.digits[i]))
  }

  ghost predicate AllReadable(ms: seq<Member>) {
    forall i :: 0 <= i < |ms| ==> Readable(ms[i])
  }

  lemma {:induction false} PlainIsUnescaped(t: Text)
    requires Plain(t)
    ensures Escaped(t) == t
  {
    if t != [] {
      assert Plain(t[1..]) by { forall i | 0 <= i < |t[1..]| ensures t[1..][i] == t[i + 1] {} }
      PlainIsUnescaped(t[1..]);
      assert EscapeUnit(t[0]) == [t[0]];
      assert t == [t[0]] + t[1..];
    }
  }

  lemma {:induction false} DigitRunStops(digits: Text, sep: CodeUnit, rest: Text)
    requires forall i :: 0 <= i < |digits| ==> IsDigit(digits[i])
    requires !IsDigit(sep)
    ensures DigitRun(digits + ([sep] + rest)) == |digits|
  {
    var t := digits + ([sep] + rest);
    if digits == [] {
      assert t[0] == sep;
    } else {
      DigitRunStops(digits[1..], sep, rest);
      assert t[1..] == digits[1..] + ([sep] + rest);
    }
  }

  lemma ReadWrittenValue(m: Member, sep: CodeUnit, rest: Text)
    requires Readable(m) && sep in {COMMA, CLOSE}
    ensures ReadValue(ValueText(m.value) + ([sep] + rest)) == Good(m.value, [sep] + rest)
  {
    var tail := [sep] + rest;
    match m.value {
      case String(Some(s)) => DecodingUndoesPrinting(s, tail);
      case String(None) => assert (NULL_TEXT + tail)[4..] == tail;
      case Number(digits) =>
        DigitRunStops(digits, sep, rest);
        var t := digits + tail;
        assert IsDigit(t[0]) by { assert IsDigit(digits[0]); }
        assert t[..|digits|] == digits && t[|digits|..] == tail;
    }
  }

  lemma ReadWrittenMember(m: Member, sep: CodeUnit, rest: Text)
    requires Readable(m) && sep in {COMMA, CLOSE}
    ensures ReadMember(MemberText(m, [sep] + rest)) == Good(m, [sep] + rest)
  {
    var after := ValueText(m.value) + ([sep] + rest);
    PlainIsUnescaped(m.key);
    DecodingUndoesPrinting(m.key, [COLON] + after);
    assert KeyText(m.key) + after == JsonString(Some(m.key)) + ([COLON] + after);
    assert ([COLON] + after)[1..] == after;
    ReadWrittenValue(m, sep, rest);
  }

  lemma {:induction false} MembersAreNonEmpty(ms: seq<Member>)
    ensures |MembersText(ms)| > |ms|
  {
    if ms != [] {
      var sep, rest := MembersSplit(ms);
      if |ms| > 1 { MembersAreNonEmpty(ms[1..]); }
    }
  }

  /** The first member of a written list, and what follows it. */
  lemma FirstMember(ms: seq<Member>)
    requires ms != [] && AllReadable(ms)
    ensures ReadMember(MembersText(ms)) == Good(ms[0], Remainder(ms)) && (|ms| > 1 ==> MembersText(ms[1..]) != [])
  {
    var sep, rest := MembersSplit(ms);
    ReadWrittenMember(ms[0], sep, rest);
    if |ms| > 1 {
      MembersAreNonEmpty(ms[1..]);
    } else {
      assert [sep] + rest == [CLOSE];
    }
  }

  function Remainder(ms: seq<Member>): Text
    requires ms != []
  {
    if |ms| == 1 then [CLOSE] else [COMMA] + MembersText(ms[1..])
  }

  /** `t` reads item by item as `items`, up to the closing brace. */
  ghost predicate Reads<T>(read: Text -> Token<T>, t: Text, items: seq<T>)
    decreases |items|
  {
    && items != [] && read(t).Good? && read(t).value == items[0]
    && var rest := read(t).rest;
       if |items| == 1 then rest == [CLOSE]
       else |rest| > 1 && rest[0] == COMMA && Reads(read, rest[1..], items[1..])
  }

  lemma {:induction false} WrittenMembersRead(ms: seq<Member>)
    requires ms != [] && AllReadable(ms)
    ensures Reads(ReadMember, MembersText(ms), ms)
  {
    FirstMember(ms);
    if |ms| > 1 {
      WrittenMembersRead(ms[1..]);
      assert ([COMMA] + MembersText(ms[1..]))[1..] == MembersText(ms[1..]);
    }
  }

  lemma {:induction false} ReadingFollows<T>(read: Text -> Token<T>, t: Text, items: seq<T>, fuel: nat)
    requires Reads(read, t, items) && fuel >= |items|
    ensures ReadItems(read, t, fuel) == Some(items)
    decreases |items|
  {
    if |items| == 1 {
      assert items == [items[0]];
    } else {
      ReadingFollows(read, read(t).rest[1..], items[1..], fuel - 1);
      assert items == [items[0]] + items[1..];
    }
  }

  /** Reading a written document gives back exactly its members, in order. */
  lemma ReadingUndoesWriting(ms: seq<Member>)
    requires AllReadable(ms)
    ensures ReadDocument(Document(ms)) == Some(ms)
  {
    var t := Document(ms);
    if ms == [] {
      assert t == [OPEN, CLOSE];
    } else {
      MembersAreNonEmpty(ms);
      assert t[1..] == MembersText(ms);
      WrittenMembersRead(ms);
      ReadingFollows(ReadMember, MembersText(ms), ms, |t|);
    }
  }
}
