/** The metadata document a supervisor writes, and its removal at exit by its owner only
    (scripts/windows/PantheonSupervisor.cs). */
module SupervisorOwnership {
  import opened CodeUnits
  import opened MetadataParser
  import opened Options
  import opened TextSearch
  import opened Totals
  import opened SupervisorMetadata

  datatype Record = Record(
    pid: nat, executablePath: Option<Text>, startFileTime: Option<Text>, startTime: Option<Text>,
    childPid: nat, childExecutablePath: Option<Text>, childStartFileTime: Option<Text>, childStartTime: Option<Text>,
    controlPort: nat, workingPort: nat, workspaceRoot: Option<Text>, jobName: Option<Text>,
    ownerSid: Option<Text>, startedAt: Option<Text>)

  const START_KEY := "processStartFileTimeUtc"

  /** The name of member `i`. */
  function KeyAt(i: nat): string {
    match i
    case 0 => "metadataVersion"
    case 1 => "pid"
    case 2 => "executablePath"
    case 3 => START_KEY
    case 4 => "processStartTimeUtc"
    case 5 => "childPid"
    case 6 => "childExecutablePath"
    case 7 => "childStartFileTimeUtc"
    case 8 => "childStartTimeUtc"
    case 9 => "controlPort"
    case 10 => "workingPort"
    case 11 => "workspaceRoot"
    case 12 => "jobName"
    case 13 => "ownerSid"
    case _ => "startedAt"
  }

  function StartKey(): Text {
    Ascii(START_KEY)
  }

  function Digits(n: nat): Text {
    if n < 10 then [48 + n] else Digits(n / 10) + [48 + n % 10]
  }

  function ValueAt(r: Record, i: nat): Value {
    match i
    case 0 => Number(Digits(1))
    case 1 => Number(Digits(r.pid))
    case 2 => String(r.executablePath)
    case 3 => String(r.startFileTime)
    case 4 => String(r.startTime)
    case 5 => Number(Digits(r.childPid))
    case 6 => String(r.childExecutablePath)
    case 7 => String(r.childStartFileTime)
    case 8 => String(r.childStartTime)
    case 9 => Number(Digits(r.controlPort))
    case 10 => Number(Digits(r.workingPort))
    case 11 => String(r.workspaceRoot)
    case 12 => String(r.jobName)
    case 13 => String(r.ownerSid)
    case _ => String(r.startedAt)
  }

  function Members(r: Record): seq<Member> {
    seq(15, i requires 0 <= i < 15 => Member(Ascii(KeyAt(i)), ValueAt(r, i)))
  }

  /** The text `WriteSupervisorMetadata` puts into the file. */
  function MetadataText(r: Record): Text {
    Document(Members(r))
  }

  /** `String.IsNullOrWhiteSpace`. */
  predicate Blank(t: Option<Text>) {
    t.None? || forall i :: 0 <= i < |t.value| ==> IsWhiteSpace(t.value[i])
  }

  predicate IsWhiteSpace(u: CodeUnit) {
    || 9 <= u <= 13 || u == 32 || u == 0x85 || u == 0xA0 || u == 0x1680 || 0x2000 <= u <= 0x200A
    || u == 0x2028 || u == 0x2029 || u == 0x202F || u == 0x205F || u == 0x3000
  }

  /** The file at `path` is taken for the metadata of the supervisor started at `start`. */
  predicate Owns(path: Option<Text>, start: Option<Text>, files: map<Text, Text>) {
    && !Blank(path) && !Blank(start) && path.value in files
    && Contains(files[path.value], Identity(StartKey(), start.value))
  }

  /** The static fields of a supervisor process, and the files it shares with others. */
  class Supervisor {
    var metadataPath: Option<Text>
    var startFileTime: Option<Text>
    var files: map<Text, Text>

    constructor (metadataPath: Option<Text>, startFileTime: Option<Text>, files: map<Text, Text>)
      ensures this.metadataPath == metadataPath && this.startFileTime == startFileTime && this.files == files
    {
      this.metadataPath, this.startFileTime, this.files := metadataPath, startFileTime, files;
    }

    /** `WriteSupervisorMetadata`: the record names this supervisor's own start time. The file reads back as
        the record, and it is this supervisor's own whenever path and start time are not blank. */
    method WriteMetadata(r: Record)
      requires metadataPath.Some?
      modifies `files
      ensures files.Keys == old(files).Keys + {metadataPath.value}
      ensures forall path :: path in old(files) && Some(path) != metadataPath ==> files[path] == old(files)[path]
      ensures ReadDocument(files[metadataPath.value]) == Some(Members(r.(startFileTime := startFileTime)))
      ensures Owns(metadataPath, startFileTime, files) <==> !Blank(metadataPath) && !Blank(startFileTime)
    {
      var text := BuildMetadata(r.(startFileTime := startFileTime));
      files := files[metadataPath.value := text];
      MetadataReadsBack(r.(startFileTime := startFileTime));
      if !Blank(metadataPath) {
        OnlyTheWriterOwnsTheFile(metadataPath.value, startFileTime, startFileTime, r, files);
      }
    }

    /** `DeleteOwnedMetadata`; `readable` and `deletable` say whether those file-system calls work, and a
        failure is swallowed. */
    method DeleteOwnedMetadata(readable: bool, deletable: bool)
      modifies `files
      ensures files ==
          if old(Owns(metadataPath, startFileTime, files)) && readable && deletable
            then old(files) - {metadataPath.value} else old(files)
    {
      if Blank(metadataPath) || Blank(startFileTime) || metadataPath.value !in files { return; }
      if !readable { return; }
      var content := files[metadataPath.value];
      var printed := PrintJsonString(startFileTime);
      var identity := KeyText(StartKey()) + printed;
      if Contains(content, identity) {
        if deletable { files := files - {metadataPath.value}; }
      }
    }
  }

  // ---------------------------------------------------------------- building the text

  /** `json` holds the document up to member `i`: the text of the remaining members completes it. */
  ghost predicate BuiltUpTo(json: Text, ms: seq<Member>, i: nat)
    requires i <= |ms|
  {
    if i == |ms| then json == Document(ms)
    else forall rest :: rest == ms[i..] ==> json + MembersText(rest) == Document(ms)
  }

  /** One member with the comma or brace that follows it. */
  method AppendMember(json: Text, name: string, value: Text, ghost ms: seq<Member>, ghost v: Value, i: nat)
    returns (longer: Text)
    requires i < 15 == |ms| && BuiltUpTo(json, ms, i)
    requires ms[i] == Member(Ascii(name), v) && value == ValueText(v)
    ensures BuiltUpTo(longer, ms, i + 1)
  {
    longer := json + KeyText(Ascii(name));
    longer := longer + value;
    longer := longer + [if i < 14 then COMMA else CLOSE];
    OneMoreBuilt(json, ms, i);
    AppendsTogether(json, KeyText(Ascii(name)), value, [if i < 14 then COMMA else CLOSE]);
  }

  method AppendString(json: Text, name: string, value: Option<Text>, ghost ms: seq<Member>, i: nat)
    returns (longer: Text)
    requires i < 15 == |ms| && BuiltUpTo(json, ms, i) && ms[i] == Member(Ascii(name), String(value))
    ensures BuiltUpTo(longer, ms, i + 1)
  {
    var printed := PrintJsonString(value);
    longer := AppendMember(json, name, printed, ms, String(value), i);
  }

  method AppendNumber(json: Text, name: string, value: nat, ghost ms: seq<Member>, i: nat) returns (longer: Text)
    requires i < 15 == |ms| && BuiltUpTo(json, ms, i) && ms[i] == Member(Ascii(name), Number(Digits(value)))
    ensures BuiltUpTo(longer, ms, i + 1)
  {
    longer := AppendMember(json, name, Digits(value), ms, Number(Digits(value)), i);
  }

  lemma AppendsTogether(json: Text, key: Text, value: Text, separator: Text)
    ensures ((json + key) + value) + separator == json + (key + (value + separator))
  {
  }

  lemma OneMoreBuilt(json: Text, ms: seq<Member>, i: nat)
    requires i < |ms| && BuiltUpTo(json, ms, i)
    ensures var separator := if i < |ms| - 1 then COMMA else CLOSE;
      BuiltUpTo(json + (KeyText(ms[i].key) + (ValueText(ms[i].value) + [separator])), ms, i + 1)
  {
    var tail := ms[i..];
    var sep, rest := MembersSplit(tail);
    var value := ValueText(ms[i].value);
    assert json + MembersText(tail) == Document(ms);
    assert tail[1..] == ms[i + 1..];
    assert KeyText(ms[i].key) + (value + ([sep] + rest)) == (KeyText(ms[i].key) + (value + [sep])) + rest;
    ConcatAssociates(json, KeyText(ms[i].key) + (value + [sep]), rest);
  }

  /** The appends of `WriteSupervisorMetadata` that describe the supervisor's own process. */
  method AppendOwnProcess(r: Record, ghost ms: seq<Member>) returns (json: Text)
    requires ms == Members(r)
    ensures BuiltUpTo(json, ms, 5)
  {
    json := [OPEN];
    StartOfDocument(ms);
    json := AppendNumber(json, "metadataVersion", 1, ms, 0);
    json := AppendNumber(json, "pid", r.pid, ms, 1);
    json := AppendString(json, "executablePath", r.executablePath, ms, 2);
    json := AppendString(json, START_KEY, r.startFileTime, ms, 3);
    json := AppendString(json, "processStartTimeUtc", r.startTime, ms, 4);
  }

  /** Those that describe the child process. */
  method AppendChildProcess(start: Text, r: Record, ghost ms: seq<Member>) returns (json: Text)
    requires ms == Members(r) && BuiltUpTo(start, ms, 5)
    ensures BuiltUpTo(json, ms, 7)
  {
    json := AppendNumber(start, "childPid", r.childPid, ms, 5);
    json := AppendString(json, "childExecutablePath", r.childExecutablePath, ms, 6);
  }

  method AppendChildTimes(start: Text, r: Record, ghost ms: seq<Member>) returns (json: Text)
    requires ms == Members(r) && BuiltUpTo(start, ms, 7)
    ensures BuiltUpTo(json, ms, 9)
  {
    json := AppendString(start, "childStartFileTimeUtc", r.childStartFileTime, ms, 7);
    json := AppendString(json, "childStartTimeUtc", r.childStartTime, ms, 8);
  }

  /** The ports. */
  method AppendPorts(start: Text, r: Record, ghost ms: seq<Member>) returns (json: Text)
    requires ms == Members(r) && BuiltUpTo(start, ms, 9)
    ensures BuiltUpTo(json, ms, 11)
  {
    json := AppendNumber(start, "controlPort", r.controlPort, ms, 9);
    json := AppendNumber(json, "workingPort", r.workingPort, ms, 10);
  }

  /** The names. */
  method AppendPlaces(start: Text, r: Record, ghost ms: seq<Member>) returns (json: Text)
    requires ms == Members(r) && BuiltUpTo(start, ms, 11)
    ensures BuiltUpTo(json, ms, 13)
  {
    json := AppendString(start, "workspaceRoot", r.workspaceRoot, ms, 11);
    json := AppendString(json, "jobName", r.jobName, ms, 12);
  }

  /** The owner and the time. */
  method AppendOwner(start: Text, r: Record, ghost ms: seq<Member>) returns (json: Text)
    requires ms == Members(r) && BuiltUpTo(start, ms, 13)
    ensures BuiltUpTo(json, ms, 15)
  {
    json := AppendString(start, "ownerSid", r.ownerSid, ms, 13);
    json := AppendString(json, "startedAt", r.startedAt, ms, 14);
  }

  /** All appends of `WriteSupervisorMetadata`, in order. */
  method BuildMetadata(r: Record) returns (json: Text)
    ensures json == MetadataText(r)
  {
    ghost var ms := Members(r);
    json := AppendOwnProcess(r, ms);
    json := AppendChildProcess(json, r, ms);
    json := AppendChildTimes(json, r, ms);
    json := AppendPorts(json, r, ms);
    json := AppendPlaces(json, r, ms);
    json := AppendOwner(json, r, ms);
  }

  lemma StartOfDocument(ms: seq<Member>)
    requires ms != []
    ensures BuiltUpTo([OPEN], ms, 0)
  {
    assert ms[0..] == ms;
  }

  // ---------------------------------------------------------------- ownership

  lemma {:induction false} DigitsAreDigits(n: nat)
    ensures Digits(n) != [] && forall i :: 0 <= i < |Digits(n)| ==> IsDigit(Digits(n)[i])
  {
    if n >= 10 { DigitsAreDigits(n / 10); }
  }

  predicate Alphabetic(s: string) {
    forall i :: 0 <= i < |s| ==> 'A' <= s[i] <= 'Z' || 'a' <= s[i] <= 'z'
  }

  lemma KeysAreAlphabetic(i: nat)
    requires i < 15
    ensures Alphabetic(KeyAt(i))
  {
    if i < 5 {
      EarlyKeysAreAlphabetic(i);
    } else if i < 9 {
      MiddleKeysAreAlphabetic(i);
    } else {
      LateKeysAreAlphabetic(i);
    }
  }

  lemma EarlyKeysAreAlphabetic(i: nat)
    requires i < 5
    ensures Alphabetic(KeyAt(i))
  {
  }

  lemma MiddleKeysAreAlphabetic(i: nat)
    requires 5 <= i < 9
    ensures Alphabetic(KeyAt(i))
  {
  }

  lemma LateKeysAreAlphabetic(i: nat)
    requires 9 <= i < 15
    ensures Alphabetic(KeyAt(i))
  {
  }

  lemma StartKeyHasItsOwnLength(i: nat)
    requires i < 15
    ensures |KeyAt(i)| > 0 && (|KeyAt(i)| == |START_KEY| <==> i == 3)
  {
  }

  lemma AlphabeticIsPlain(s: string)
    requires Alphabetic(s)
    ensures Plain(Ascii(s))
  {
    forall i | 0 <= i < |s| ensures 65 <= Ascii(s)[i] <= 90 || 97 <= Ascii(s)[i] <= 122 {
      assert Ascii(s)[i] == UnitOf(s[i]);
    }
  }

  ghost predicate ReadableValue(v: Value) {
    v.Number? ==> v.digits != [] && forall i :: 0 <= i < |v.digits| ==> IsDigit(v.digits[i])
  }

  lemma ValuesAreReadable(r: Record, i: nat)
    requires i < 15
    ensures ReadableValue(ValueAt(r, i))
  {
    DigitsAreDigits(1);
    DigitsAreDigits(r.pid);
    DigitsAreDigits(r.childPid);
    DigitsAreDigits(r.controlPort);
    DigitsAreDigits(r.workingPort);
  }

  lemma MembersAreReadable(r: Record)
    ensures AllReadable(Members(r)) && AllPrintable(Members(r))
  {
    forall i | 0 <= i < 15 ensures Readable(Members(r)[i]) {
      KeysAreAlphabetic(i);
      StartKeyHasItsOwnLength(i);
      AlphabeticIsPlain(KeyAt(i));
      ValuesAreReadable(r, i);
    }
  }

  /** Reading the written document as JSON gives its fifteen members back. */
  lemma MetadataReadsBack(r: Record)
    ensures ReadDocument(MetadataText(r)) == Some(Members(r))
  {
    MembersAreReadable(r);
    ReadingUndoesWriting(Members(r));
  }

  lemma SearchMatchesMember(r: Record, start: Text)
    ensures Contains(MetadataText(r), Identity(StartKey(), start)) <==>
              HasMember(Members(r), Member(StartKey(), String(Some(start))))
  {
    MembersAreReadable(r);
    KeysAreAlphabetic(3);
    AlphabeticIsPlain(START_KEY);
    SearchIsExact(Members(r), StartKey(), start);
  }

  /** The ownership search matches a written document exactly if that document, read as JSON, has the start
      time searched for in its own field, whatever its paths and names contain. */
  lemma SearchMatchesOwnStartTime(r: Record, start: Text)
    ensures Contains(MetadataText(r), Identity(StartKey(), start)) <==> r.startFileTime == Some(start)
    ensures Contains(MetadataText(r), Identity(StartKey(), start)) <==>
              var document := ReadDocument(MetadataText(r));
              document.Some? && HasMember(document.value, Member(StartKey(), String(Some(start))))
  {
    MetadataReadsBack(r);
    SearchMatchesMember(r, start);
    OnlyOneStartKey(r, Member(StartKey(), String(Some(start))));
  }

  lemma OnlyOneStartKey(r: Record, m: Member)
    requires m.key == StartKey()
    ensures HasMember(Members(r), m) <==> m.value == String(r.startFileTime)
  {
    var ms := Members(r);
    assert ms[3] == Member(StartKey(), String(r.startFileTime));
    if HasMember(ms, m) {
      var i :| 0 <= i < |ms| && ms[i] == m;
      StartKeyHasItsOwnLength(i);
      assert |ms[i].key| == |KeyAt(i)|;
    }
  }

  /** When several supervisors share a path, the one whose start time the document records is the only one
      that takes the file for its own, and the record it wrote itself is always its own. */
  lemma OnlyTheWriterOwnsTheFile(path: Text, writer: Option<Text>, other: Option<Text>, r: Record,
                                 files: map<Text, Text>)
    requires !Blank(Some(path)) && path in files && files[path] == MetadataText(r.(startFileTime := writer))
    ensures Owns(Some(path), other, files) <==> !Blank(other) && other == writer
  {
    if !Blank(other) { SearchMatchesOwnStartTime(r.(startFileTime := writer), other.value); }
  }
}
