/** What clients say to the daemon, what the daemon says to the firmware, and how answers are worded. */
module Commands {
  import opened Wrappers
  import opened CommandQueue

  /** The bytes up to the first '\0', as the C string functions see them. */
  function CString(s: seq<char>): seq<char>
    decreases s
  {
    if s == [] || s[0] == '\0' then [] else [s[0]] + CString(s[1..])
  }

  /** strncmp(s, prefix, strlen(prefix)) == 0. */
  predicate StartsWith(s: string, prefix: string) {
    prefix <= s
  }

  /** The string after the first blank. */
  function AfterBlank(s: string): Option<string>
    decreases s
  {
    if s == [] then None else if s[0] == ' ' then Some(s[1..]) else AfterBlank(s[1..])
  }

  /** A configuration file's names and the codes they stand for, in file order. */
  type Storage = seq<(string, string)>

  datatype Options = Options(powerIds: Storage, sampleDevs: Storage)

  /** The first value stored under key. */
  function Find(s: Storage, key: string): Option<string>
    decreases s
  {
    if s == [] then None else if s[0].0 == key then Some(s[0].1) else Find(s[1..], key)
  }

  /** The first key that value is stored under. */
  function FindKey(s: Storage, value: string): Option<string>
    decreases s
  {
    if s == [] then None else if s[0].1 == value then Some(s[0].0) else FindKey(s[1..], value)
  }

  function FindParam(s: Storage, param: Option<string>): Option<string> {
    if param.None? then None else Find(s, param.value)
  }

  function IdOf(line: string): Option<CmdId> {
    if StartsWith(line, "power on") then Some(PowerOn)
    else if StartsWith(line, "power off") then Some(PowerOff)
    else if StartsWith(line, "sample") then Some(Sample)
    else if StartsWith(line, "log") then Some(Log)
    else if StartsWith(line, "listen") then Some(Listen)
    else None
  }

  /** A line with a command in it: the command, the line as it is echoed, and what follows its first blank. */
  datatype Parsed = Parsed(cmd: CmdId, text: string, param: Option<string>)

  function Parse(line: string): (r: Option<Parsed>)
    ensures r.None? <==> IdOf(line).None?
  {
    match IdOf(line)
    case None => None
    case Some(id) =>
      var text := if id == PowerOn || id == PowerOff then line[5 := '_'] else line;
      Some(Parsed(id, text, AfterBlank(text)))
  }

  /** The code queued for a command that goes to the firmware; None when the name is not configured. */
  function Code(opt: Options, p: Parsed): Option<string> {
    if p.cmd == Sample then FindParam(opt.sampleDevs, p.param) else FindParam(opt.powerIds, p.param)
  }

  predicate ForFirmware(id: CmdId) {
    id == PowerOn || id == PowerOff || id == Sample
  }

  function ToUpper(c: char): char {
    if 'a' <= c <= 'z' then c - 'a' + 'A' else c
  }

  function ToLower(c: char): char {
    if 'A' <= c <= 'Z' then c - 'A' + 'a' else c
  }

  function MapChars(f: char -> char, s: string): (r: string)
    ensures |r| == |s| && forall i | 0 <= i < |s| :: r[i] == f(s[i])
  {
    if s == [] then [] else [f(s[0])] + MapChars(f, s[1..])
  }

  const MAX_PARAM := 60

  /** The bytes written to the firmware; None where send_command writes nothing. */
  function Encode(c: Command): Option<string> {
    match c.param
    case None => None
    case Some(param) =>
      var s := if |param| <= MAX_PARAM then param else param[..MAX_PARAM];
      match c.cmd
      case PowerOn => Some(MapChars(ToUpper, s))
      case PowerOff => Some(MapChars(ToLower, s))
      case Sample => Some(s)
      case Log => None
      case Listen => None
  }

  /** What is passed on of a firmware line: a sensor's code is replaced by its configured name. */
  function Answer(opt: Options, line: string): string {
    if StartsWith(line, "Sensor ") && |line| > 7 then
      match FindKey(opt.sampleDevs, line[7..8])
      case Some(name) => name + line[8..]
      case None => line
    else line
  }

  /** The firmware's line as a C string: one carriage return before the newline is dropped. */
  function FirmwareLine(raw: seq<char>): string {
    CString(if raw != [] && raw[|raw| - 1] == '\r' then raw[..|raw| - 1] else raw)
  }

  // ------------------------------------------------------------------ properties

  lemma {:induction false} AfterBlankIs(head: string, name: string)
    requires ' ' !in head
    ensures AfterBlank(head + " " + name) == Some(name)
    decreases head
  {
    var s := head + " " + name;
    if head != [] {
      assert s[1..] == head[1..] + " " + name;
      AfterBlankIs(head[1..], name);
    } else {
      assert s[1..] == name;
    }
  }

  /** The documented forms are understood, whatever the name. */
  lemma {:induction false} PowerOnUnderstood(name: string)
    ensures Parse("power on " + name) == Some(Parsed(PowerOn, "power_on " + name, Some(name)))
  {
    var line := "power on " + name;
    AfterBlankIs("power_on", name);
    assert line[..8] == "power on" && line[5 := '_'] == "power_on " + name;
    assert "power_on" + " " + name == "power_on " + name;
  }

  lemma {:induction false} PowerOffUnderstood(name: string)
    ensures Parse("power off " + name) == Some(Parsed(PowerOff, "power_off " + name, Some(name)))
  {
    var line := "power off " + name;
    AfterBlankIs("power_off", name);
    assert line[..9] == "power off" && line[7] == 'f' && line[5 := '_'] == "power_off " + name;
    assert "power_off" + " " + name == "power_off " + name;
  }

  lemma {:induction false} SampleUnderstood(name: string)
    ensures Parse("sample " + name) == Some(Parsed(Sample, "sample " + name, Some(name)))
  {
    AfterBlankIs("sample", name);
    assert "sample" + " " + name == "sample " + name;
  }

  predicate Letter(c: char) {
    'a' <= c <= 'z' || 'A' <= c <= 'Z'
  }

  /** On and off are the same word in two cases: the firmware can tell them apart if and only if
      there is a letter among the 60 characters sent. */
  lemma {:induction false} OnAndOffDiffer(fd: int, code: string, start: TimeVal)
    ensures Encode(Command(fd, PowerOn, Some(code), false, start)) != Encode(Command(fd, PowerOff, Some(code), false, start))
       <==> exists i :: 0 <= i < |code| && i < MAX_PARAM && Letter(code[i])
  {
    var s := if |code| <= MAX_PARAM then code else code[..MAX_PARAM];
    var up, low := MapChars(ToUpper, s), MapChars(ToLower, s);
    if i :| 0 <= i < |code| && i < MAX_PARAM && Letter(code[i]) {
      assert up[i] != low[i];
    } else {
      forall i | 0 <= i < |s| ensures up[i] == low[i] { assert s[i] == code[i] && !Letter(code[i]); }
      assert up == low;
    }
  }

  ghost predicate DistinctNames(s: Storage) {
    forall i, j | 0 <= i < j < |s| :: s[i].0 != s[j].0
  }

  ghost predicate DistinctCodes(s: Storage) {
    forall i, j | 0 <= i < j < |s| :: s[i].1 != s[j].1
  }

  lemma {:induction false} FindStored(s: Storage, i: nat)
    requires i < |s|
    ensures DistinctNames(s) ==> Find(s, s[i].0) == Some(s[i].1)
    ensures DistinctCodes(s) ==> FindKey(s, s[i].1) == Some(s[i].0)
    decreases s
  {
    if i > 0 {
      assert DistinctNames(s) ==> DistinctNames(s[1..]);
      assert DistinctCodes(s) ==> DistinctCodes(s[1..]);
      FindStored(s[1..], i - 1);
      assert s[1..][i - 1] == s[i];
    }
  }

  /** What is found is what is stored first under the name, and nothing if and only if nothing is, ... */
  lemma {:induction false} FindsFirst(s: Storage, key: string) returns (i: nat)
    ensures i <= |s| && forall j | 0 <= j < i :: s[j].0 != key
    ensures Find(s, key) == (if i < |s| then Some(s[i].1) else None) && (i < |s| ==> s[i].0 == key)
    decreases s
  {
    if s == [] || s[0].0 == key {
      i := 0;
    } else {
      i := FindsFirst(s[1..], key);
      i := i + 1;
      forall j | 0 <= j < i ensures s[j].0 != key { if j > 0 { assert s[j] == s[1..][j - 1]; } }
    }
  }

  /** ... and the same the other way round. */
  lemma {:induction false} FindsFirstKey(s: Storage, value: string) returns (i: nat)
    ensures i <= |s| && forall j | 0 <= j < i :: s[j].1 != value
    ensures FindKey(s, value) == (if i < |s| then Some(s[i].0) else None) && (i < |s| ==> s[i].1 == value)
    decreases s
  {
    if s == [] || s[0].1 == value {
      i := 0;
    } else {
      i := FindsFirstKey(s[1..], value);
      i := i + 1;
      forall j | 0 <= j < i ensures s[j].1 != value { if j > 0 { assert s[j] == s[1..][j - 1]; } }
    }
  }

  lemma {:induction false} FoundIsStored(s: Storage, key: string)
    requires Find(s, key).Some?
    ensures exists i :: 0 <= i < |s| && s[i] == (key, Find(s, key).value)
    decreases s
  {
    if s[0].0 != key {
      FoundIsStored(s[1..], key);
      var i :| 0 <= i < |s[1..]| && s[1..][i] == (key, Find(s, key).value);
      assert s[i + 1] == (key, Find(s, key).value);
    } else {
      assert s[0] == (key, Find(s, key).value);
    }
  }

  lemma {:induction false} FindKeyStored(s: Storage, i: nat)
    requires i < |s|
    ensures FindKey(s, s[i].1).Some?
    decreases s
  {
    if i > 0 {
      FindKeyStored(s[1..], i - 1);
      assert s[1..][i - 1] == s[i];
    }
  }

  lemma {:induction false} SameSuffix(x: string, y: string, tail: string)
    ensures x + tail == y + tail <==> x == y
  {
    if x + tail == y + tail {
      assert |x| == |y|;
      assert x == (x + tail)[..|x|] && y == (y + tail)[..|y|];
    }
  }

  /** EXACTLY WHEN A READING COMES BACK UNDER THE NAME the client used: the device found under the first character of
      the code is that one, what follows that character being left as it is; for a code of one character, if and only
      if no other device stands before it with the same code. */
  lemma {:induction false} ReadingBearsNameIff(opt: Options, name: string, reading: string)
    requires Find(opt.sampleDevs, name).Some? && Find(opt.sampleDevs, name).value != []
    ensures var code := Find(opt.sampleDevs, name).value;
            Answer(opt, "Sensor " + code + reading) == name + reading
            <==> match FindKey(opt.sampleDevs, code[..1]) case Some(key) => key + code[1..] == name case None => "Sensor " + code == name
    ensures var code := Find(opt.sampleDevs, name).value;
            |code| == 1 ==>
              (Answer(opt, "Sensor " + code + reading) == name + reading <==> FindKey(opt.sampleDevs, code) == Some(name))
  {
    var code := Find(opt.sampleDevs, name).value;
    var line := "Sensor " + code + reading;
    assert line[..7] == "Sensor " && line[7..8] == code[..1] && line[8..] == code[1..] + reading;
    match FindKey(opt.sampleDevs, code[..1]) {
      case Some(key) =>
        assert key + (code[1..] + reading) == key + code[1..] + reading;
        SameSuffix(key + code[1..], name, reading);
      case None => SameSuffix("Sensor " + code, name, reading);
    }
    if |code| == 1 {
      assert code[..1] == code && code[1..] == [];
      FoundIsStored(opt.sampleDevs, name);
      var i :| 0 <= i < |opt.sampleDevs| && opt.sampleDevs[i] == (name, code);
      FindKeyStored(opt.sampleDevs, i);
      var key := FindKey(opt.sampleDevs, code).value;
      assert key + code[1..] == key;
    }
  }

  /** So it does whenever no two devices share a code and the code is a single character. */
  lemma {:induction false} ReadingBearsName(opt: Options, name: string, reading: string)
    requires DistinctCodes(opt.sampleDevs)
    requires Find(opt.sampleDevs, name).Some? && |Find(opt.sampleDevs, name).value| == 1
    ensures Answer(opt, "Sensor " + Find(opt.sampleDevs, name).value + reading) == name + reading
  {
    FoundIsStored(opt.sampleDevs, name);
    var i :| 0 <= i < |opt.sampleDevs| && opt.sampleDevs[i] == (name, Find(opt.sampleDevs, name).value);
    FindStored(opt.sampleDevs, i);
    ReadingBearsNameIff(opt, name, reading);
  }
}
