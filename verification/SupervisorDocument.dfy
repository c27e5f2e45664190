/** The metadata document of scripts/windows/PantheonSupervisor.cs, field by field and character by character. */
module SupervisorDocument {
  import opened CodeUnits
  import opened MetadataParser
  import opened Options
  import opened SupervisorMetadata
  import opened SupervisorOwnership

  /** The number a run of decimal digits stands for. */
  function Decimal(digits: Text): int {
    if digits == [] then 0 else Decimal(digits[..|digits| - 1]) * 10 + (digits[|digits| - 1] as int - 48)
  }

  lemma {:induction false} DigitsSayTheNumber(n: nat)
    ensures Decimal(Digits(n)) == n && (n > 0 ==> Digits(n)[0] != 48)
  {
    if n >= 10 {
      DigitsSayTheNumber(n / 10);
      DigitsAreDigits(n / 10);
      assert Digits(n)[..|Digits(n)| - 1] == Digits(n / 10);
    } else {
      assert Digits(n)[..0] == [];
    }
  }

  /** The member called `name` holds that number, written in decimal without leading zeros. */
  ghost predicate HoldsNumber(m: Member, name: string, n: nat) {
    && m.key == Ascii(name) && m.value.Number? && m.value.digits != [] && Decimal(m.value.digits) == n
    && (n > 0 ==> m.value.digits[0] != 48)
    && forall i :: 0 <= i < |m.value.digits| ==> 48 <= m.value.digits[i] <= 57
  }

  lemma WrittenNumber(n: nat)
    ensures Digits(n) != [] && Decimal(Digits(n)) == n && (n > 0 ==> Digits(n)[0] != 48)
    ensures forall i :: 0 <= i < |Digits(n)| ==> 48 <= Digits(n)[i] <= 57
  {
    DigitsSayTheNumber(n);
    DigitsAreDigits(n);
    forall i | 0 <= i < |Digits(n)| ensures 48 <= Digits(n)[i] <= 57 { assert IsDigit(Digits(n)[i]); }
  }

  ghost predicate HoldsText(m: Member, name: string, text: Option<Text>) {
    m == Member(Ascii(name), String(text))
  }

  /** Read as JSON, the document has fifteen members, and member `i` is the one called `name`. */
  lemma DocumentMember(r: Record, i: nat, name: string)
    requires i < 15 && SupervisorOwnership.KeyAt(i) == name
    ensures ReadDocument(MetadataText(r)).Some? && |ReadDocument(MetadataText(r)).value| == 15
    ensures ReadDocument(MetadataText(r)).value[i] == Member(Ascii(name), ValueAt(r, i))
  {
    MetadataReadsBack(r);
  }

  /** The first five members describe the supervisor's process. */
  lemma DocumentNamesOwnProcess(r: Record)
    ensures ReadDocument(MetadataText(r)).Some? && |ReadDocument(MetadataText(r)).value| == 15
    ensures var d := ReadDocument(MetadataText(r)).value;
      && HoldsNumber(d[0], "metadataVersion", 1) && HoldsNumber(d[1], "pid", r.pid)
      && HoldsText(d[2], "executablePath", r.executablePath)
      && HoldsText(d[3], "processStartFileTimeUtc", r.startFileTime)
      && HoldsText(d[4], "processStartTimeUtc", r.startTime)
  {
    WrittenNumber(1);
    WrittenNumber(r.pid);
    DocumentMember(r, 0, "metadataVersion");
    DocumentMember(r, 1, "pid");
    DocumentMember(r, 2, "executablePath");
    DocumentMember(r, 3, "processStartFileTimeUtc");
    DocumentMember(r, 4, "processStartTimeUtc");
  }

  /** The next four describe the child process. */
  lemma DocumentNamesChildProcess(r: Record)
    ensures ReadDocument(MetadataText(r)).Some? && |ReadDocument(MetadataText(r)).value| == 15
    ensures var d := ReadDocument(MetadataText(r)).value;
      && HoldsNumber(d[5], "childPid", r.childPid)
      && HoldsText(d[6], "childExecutablePath", r.childExecutablePath)
      && HoldsText(d[7], "childStartFileTimeUtc", r.childStartFileTime)
      && HoldsText(d[8], "childStartTimeUtc", r.childStartTime)
  {
    WrittenNumber(r.childPid);
    DocumentMember(r, 5, "childPid");
    DocumentMember(r, 6, "childExecutablePath");
    DocumentMember(r, 7, "childStartFileTimeUtc");
    DocumentMember(r, 8, "childStartTimeUtc");
  }

  /** Then come the ports. */
  lemma DocumentNamesPorts(r: Record)
    ensures ReadDocument(MetadataText(r)).Some? && |ReadDocument(MetadataText(r)).value| == 15
    ensures var d := ReadDocument(MetadataText(r)).value;
      HoldsNumber(d[9], "controlPort", r.controlPort) && HoldsNumber(d[10], "workingPort", r.workingPort)
  {
    WrittenNumber(r.controlPort);
    WrittenNumber(r.workingPort);
    DocumentMember(r, 9, "controlPort");
    DocumentMember(r, 10, "workingPort");
  }

  /** The last four name the places, the owner and the time. */
  lemma DocumentNamesOwner(r: Record)
    ensures ReadDocument(MetadataText(r)).Some? && |ReadDocument(MetadataText(r)).value| == 15
    ensures var d := ReadDocument(MetadataText(r)).value;
      && HoldsText(d[11], "workspaceRoot", r.workspaceRoot) && HoldsText(d[12], "jobName", r.jobName)
      && HoldsText(d[13], "ownerSid", r.ownerSid) && HoldsText(d[14], "startedAt", r.startedAt)
  {
    DocumentMember(r, 11, "workspaceRoot");
    DocumentMember(r, 12, "jobName");
    DocumentMember(r, 13, "ownerSid");
    DocumentMember(r, 14, "startedAt");
  }

  // ---------------------------------------------------------------- the printed characters

  /** What stands for one code unit in a printed string. */
  ghost predicate Prints(u: CodeUnit, t: Text) {
    if u == 34 then t == Ascii("\\\"")
    else if u == 92 then t == Ascii("\\\\")
    else if u == 9 then t == Ascii("\\t")
    else if u == 10 then t == Ascii("\\n")
    else if u == 13 then t == Ascii("\\r")
    else if u < 32 then
      |t| == 6 && t[..4] == Ascii("\\u00") && t[4] == 48 + u / 16 && t[5] == UnitOf("0123456789abcdef"[u % 16])
    else t == [u]
  }

  lemma UnitPrints(u: CodeUnit)
    ensures Prints(u, EscapeUnit(u))
  {
    if u == 34 {
      assert EscapeUnit(u) == Ascii("\\\"");
    } else if u == 92 {
      assert EscapeUnit(u) == Ascii("\\\\");
    } else if u == 9 {
      assert EscapeUnit(u) == Ascii("\\t");
    } else if u == 10 {
      assert EscapeUnit(u) == Ascii("\\n");
    } else if u == 13 {
      assert EscapeUnit(u) == Ascii("\\r");
    } else if u < 32 {
      assert EscapeUnit(u)[..4] == Ascii("\\u00");
    }
  }

  /** The inside of a printed string is made of the pieces of its units, in order. */
  ghost predicate PrintsAll(s: Text, t: Text)
    decreases |s|
  {
    if s == [] then t == []
    else exists k :: 0 <= k <= |t| && Prints(s[0], t[..k]) && PrintsAll(s[1..], t[k..])
  }

  lemma {:induction false} UnitsPrint(s: Text)
    ensures PrintsAll(s, Escaped(s))
  {
    if s != [] {
      UnitPrints(s[0]);
      UnitsPrint(s[1..]);
      var k := |EscapeUnit(s[0])|;
      assert Escaped(s)[..k] == EscapeUnit(s[0]) && Escaped(s)[k..] == Escaped(s[1..]);
    }
  }

  /** A printed value is `null`, or quotes around the short escapes, the four-digit escapes of the other
      control characters, and every other unit as it is. */
  lemma PrintedStringIsExact(value: Option<Text>)
    ensures value.None? ==> JsonString(value) == Ascii("null")
    ensures value.Some? ==>
      var t := JsonString(value);
      |t| >= 2 && t[0] == 34 && t[|t| - 1] == 34 && PrintsAll(value.value, t[1..|t| - 1])
  {
    if value.None? {
      assert JsonString(value) == Ascii("null");
    } else {
      UnitsPrint(value.value);
      var t := JsonString(value);
      assert t[1..|t| - 1] == Escaped(value.value);
    }
  }

  // ---------------------------------------------------------------- start times as they are written

  /** A start time in decimal is never blank: the file at a visible path is owned exactly if its document has it. */
  lemma DecimalStartTimeOwns(r: Record, path: Text, n: nat, files: map<Text, Text>)
    requires path != [] && 33 <= path[0] <= 126 && path in files && files[path] == MetadataText(r)
    ensures Owns(Some(path), Some(Digits(n)), files) <==> r.startFileTime == Some(Digits(n))
  {
    WrittenNumber(n);
    assert !IsWhiteSpace(Digits(n)[0]) && !IsWhiteSpace(path[0]);
    SearchMatchesOwnStartTime(r, Digits(n));
  }

  /** Without a path or a start time, or with one of spaces and line ends only, nothing is owned. */
  lemma BlankOwnsNothing(blank: Option<Text>, other: Option<Text>, files: map<Text, Text>)
    requires blank.Some? ==> forall u :: u in blank.value ==> u == 32 || 9 <= u <= 13
    ensures !Owns(blank, other, files) && !Owns(other, blank, files)
  {
    assert blank.Some? ==> forall i :: 0 <= i < |blank.value| ==> blank.value[i] in blank.value;
  }
}
