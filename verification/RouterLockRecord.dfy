// The identity record a router daemon leaves in its lock file, as the router
// writes it and as the gateway reads it back before it trusts or kills a pid.
module RouterLockRecord {
  import opened Wrappers
  import opened Text
  import opened Json

  datatype LockRecord = LockRecord(
    pid: Option<nat>,
    start: Option<nat>,
    kind: Option<string>,
    buildKind: Option<string>,
    home: Option<string>
  )

  const EMPTY_RECORD := LockRecord(None, None, None, None, None)

  datatype Key = Pid | Start | Kind | BuildKind | Home | Unknown

  function KeyOf(name: string): Key {
    if name == "pid" then Pid
    else if name == "process_start_time" then Start
    else if name == "kind" then Kind
    else if name == "build_kind" then BuildKind
    else if name == "home" then Home
    else Unknown
  }

  // A line's key and value; a line without '=' is skipped.
  function ParseLine(line: string): (Key, string) {
    match SplitOnce(line, '=')
    case None => (Unknown, "")
    case Some((key, value)) => (KeyOf(Trim(key)), Trim(value))
  }

  // What one parsed line does to the record read so far.
  function Update(r: LockRecord, line: (Key, string)): LockRecord {
    match line.0
    case Pid => r.(pid := ParseUnsigned(line.1, MAX_U32))
    case Start => r.(start := ParseUnsigned(line.1, MAX_U64))
    case Kind => r.(kind := Some(line.1))
    case BuildKind => r.(buildKind := Some(line.1))
    case Home => r.(home := Some(line.1))
    case Unknown => r
  }

  function RecordOfPairs(pairs: seq<(Key, string)>): LockRecord {
    if pairs == [] then EMPTY_RECORD
    else Update(RecordOfPairs(pairs[..|pairs| - 1]), pairs[|pairs| - 1])
  }

  function ParseLines(lines: seq<string>): (pairs: seq<(Key, string)>)
    ensures |pairs| == |lines|
  {
    seq(|lines|, i requires 0 <= i < |lines| => ParseLine(lines[i]))
  }

  // The record a lock file's text stands for.
  function RecordOf(raw: string): LockRecord {
    RecordOfPairs(ParseLines(Lines(raw)))
  }

  method ReadLockRecord(raw: string) returns (record: LockRecord)
    ensures record == RecordOf(raw)
  {
    record := EMPTY_RECORD;
    var lines := Lines(raw);
    ghost var pairs := ParseLines(lines);
    for i := 0 to |lines|
      invariant record == RecordOfPairs(pairs[..i])
    {
      record := Update(record, ParseLine(lines[i]));
      assert pairs[..i + 1][..i] == pairs[..i];
    }
    assert pairs[..|lines|] == pairs;
  }

  predicate SingleLine(s: string) { '\n' !in s }

  lemma LinesCons(line: string, rest: string)
    requires SingleLine(line)
    ensures Lines(line + "\n" + rest) == [StripReturn(line)] + Lines(rest)
  {
    var s := line + "\n" + rest;
    assert s[..|line|] == line;
    FindAt(s, '\n', |line|);
    assert s[|line| + 1..] == rest;
  }

  // A `key=value` line without surrounding blanks reads as exactly that.
  lemma FieldLine(key: string, value: string)
    requires key != [] && '=' !in key && Trimmed(key) && SingleLine(key) && Trimmed(value) && SingleLine(value)
    ensures PlainLine(key + "=" + value)
    ensures ParseLine(key + "=" + value) == (KeyOf(key), value)
  {
    var s := key + "=" + value;
    if value != [] {
      assert s[|s| - 1] == value[|value| - 1];
    }
    assert StripReturn(s) == s;
    assert s[..|key|] == key;
    FindAt(s, '=', |key|);
    assert s[|key| + 1..] == value;
    TrimProperty(key);
    TrimProperty(value);
  }

  lemma DecimalIsPlain(n: nat)
    ensures Trimmed(Decimal(n)) && SingleLine(Decimal(n))
  {
    var s := Decimal(n);
    assert IsDigit(s[0]) && IsDigit(s[|s| - 1]);
    assert forall c :: c in s ==> IsDigit(c);
  }

  // One line that the gateway reads without losing or gaining a character.
  predicate PlainLine(s: string) { SingleLine(s) && StripReturn(s) == s }

  function Unlines(lines: seq<string>): string {
    if lines == [] then "" else lines[0] + "\n" + Unlines(lines[1..])
  }

  lemma UnlinesCons(line: string, lines: seq<string>, rest: string)
    ensures Unlines([line] + lines) + rest == line + "\n" + (Unlines(lines) + rest)
  {
    assert ([line] + lines)[1..] == lines;
  }

  lemma PlainLineFirst(line: string, lines: seq<string>, text: string, tail: string, more: seq<string>)
    requires PlainLine(line) && text == line + "\n" + tail && Lines(tail) == lines + more
    ensures Lines(text) == ([line] + lines) + more
  {
    LinesCons(line, tail);
  }

  lemma UnlinesStep(line: string, lines: seq<string>, rest: string)
    requires PlainLine(line) && Lines(Unlines(lines) + rest) == lines + Lines(rest)
    ensures Lines(Unlines([line] + lines) + rest) == ([line] + lines) + Lines(rest)
  {
    UnlinesCons(line, lines, rest);
    PlainLineFirst(line, lines, Unlines([line] + lines) + rest, Unlines(lines) + rest, Lines(rest));
  }

  // Plain lines written one after another are read back one by one.
  lemma {:induction false} LinesUnlines(lines: seq<string>, rest: string)
    requires forall i :: 0 <= i < |lines| ==> PlainLine(lines[i])
    ensures Lines(Unlines(lines) + rest) == lines + Lines(rest)
  {
    if lines == [] {
      assert Unlines(lines) + rest == rest;
    } else {
      LinesUnlines(lines[1..], rest);
      UnlinesStep(lines[0], lines[1..], rest);
      assert [lines[0]] + lines[1..] == lines;
    }
  }

  function PidLine(pid: nat): string { "pid" + "=" + Decimal(pid) }

  function StartLine(start: nat): string { "process_start_time" + "=" + Decimal(start) }

  function KindLine(): string { "kind" + "=" + "router" }

  function BuildLine(buildKind: string): string { "build_kind" + "=" + buildKind }

  function HomeLine(home: string): string { "home" + "=" + home }

  // What a router daemon writes into its lock file.
  function Header(pid: nat, start: nat, buildKind: string): seq<string> {
    [PidLine(pid), StartLine(start), KindLine(), BuildLine(buildKind)]
  }

  function Written(pid: nat, start: nat, buildKind: string, home: string): string {
    Unlines(Header(pid, start, buildKind)) + (HomeLine(home) + "\n")
  }

  lemma PidLineReads(pid: nat)
    ensures PlainLine(PidLine(pid)) && ParseLine(PidLine(pid)) == (Pid, Decimal(pid))
  {
    DecimalIsPlain(pid);
    FieldLine("pid", Decimal(pid));
  }

  lemma StartLineReads(start: nat)
    ensures PlainLine(StartLine(start)) && ParseLine(StartLine(start)) == (Start, Decimal(start))
  {
    DecimalIsPlain(start);
    FieldLine("process_start_time", Decimal(start));
  }

  lemma KindLineReads()
    ensures PlainLine(KindLine()) && ParseLine(KindLine()) == (Kind, "router")
  {
    FieldLine("kind", "router");
  }

  lemma BuildLineReads(buildKind: string)
    requires SingleLine(buildKind) && Trimmed(buildKind)
    ensures PlainLine(BuildLine(buildKind)) && ParseLine(BuildLine(buildKind)) == (BuildKind, buildKind)
  {
    FieldLine("build_kind", buildKind);
  }

  lemma HomeLineReads(home: string)
    requires SingleLine(home) && Trimmed(home)
    ensures PlainLine(HomeLine(home)) && ParseLine(HomeLine(home)) == (Home, home)
  {
    FieldLine("home", home);
  }

  // The header lines as the gateway parses them, and the record they make.
  function HeaderPairs(pid: nat, start: nat, buildKind: string): seq<(Key, string)> {
    [(Pid, Decimal(pid)), (Start, Decimal(start)), (Kind, "router"), (BuildKind, buildKind)]
  }

  lemma HeaderRecord(pid: nat, start: nat, buildKind: string)
    requires pid <= MAX_U32 && start <= MAX_U64
    ensures RecordOfPairs(HeaderPairs(pid, start, buildKind))
            == LockRecord(Some(pid), Some(start), Some("router"), Some(buildKind), None)
  {
    ParseDecimal(pid, MAX_U32);
    ParseDecimal(start, MAX_U64);
    var p := HeaderPairs(pid, start, buildKind);
    assert p[..3][..2] == p[..2] && p[..2][..1] == p[..1] && p[..1][..0] == [];
    assert RecordOfPairs(p[..1]) == Update(EMPTY_RECORD, p[0]);
    assert RecordOfPairs(p[..2]) == Update(RecordOfPairs(p[..1]), p[1]);
    assert RecordOfPairs(p[..3]) == Update(RecordOfPairs(p[..2]), p[2]);
  }

  lemma ParseFour(a: string, b: string, c: string, d: string, pairs: seq<(Key, string)>)
    requires |pairs| == 4
    requires ParseLine(a) == pairs[0] && ParseLine(b) == pairs[1] && ParseLine(c) == pairs[2] && ParseLine(d) == pairs[3]
    ensures ParseLines([a, b, c, d]) == pairs
  {
  }

  lemma ParseHeader(pid: nat, start: nat, buildKind: string)
    requires SingleLine(buildKind) && Trimmed(buildKind)
    ensures ParseLines(Header(pid, start, buildKind)) == HeaderPairs(pid, start, buildKind)
  {
    PidLineReads(pid);
    StartLineReads(start);
    KindLineReads();
    BuildLineReads(buildKind);
    ParseFour(PidLine(pid), StartLine(start), KindLine(), BuildLine(buildKind), HeaderPairs(pid, start, buildKind));
  }

  lemma FourLines(a: string, b: string, c: string, d: string, rest: string)
    requires PlainLine(a) && PlainLine(b) && PlainLine(c) && PlainLine(d)
    ensures Lines(Unlines([a, b, c, d]) + rest) == [a, b, c, d] + Lines(rest)
  {
    LinesUnlines([a, b, c, d], rest);
  }

  lemma WrittenReads(pid: nat, start: nat, buildKind: string, home: string)
    requires SingleLine(buildKind) && Trimmed(buildKind)
    ensures Lines(Written(pid, start, buildKind, home))
            == Header(pid, start, buildKind) + Lines(HomeLine(home) + "\n")
  {
    PidLineReads(pid);
    StartLineReads(start);
    KindLineReads();
    BuildLineReads(buildKind);
    FourLines(PidLine(pid), StartLine(start), KindLine(), BuildLine(buildKind), HomeLine(home) + "\n");
  }

  lemma ValueIsShort(line: string)
    ensures ParseLine(line).0.Unknown? || |ParseLine(line).1| < |line|
    ensures ParseLine(line).0.Unknown? || Trimmed(ParseLine(line).1)
  {
    match SplitOnce(line, '=')
    case None =>
    case Some((key, value)) => TrimProperty(value);
  }

  // No home, or one shorter than a bound.
  predicate HomeBelow(r: LockRecord, bound: nat) { r.home.Some? ==> |r.home.value| < bound }

  // Pairs whose home values are short only ever give short homes.
  lemma {:induction false} HomeIsShort(before: seq<(Key, string)>, pairs: seq<(Key, string)>, bound: nat)
    requires HomeBelow(RecordOfPairs(before), bound)
    requires forall i :: 0 <= i < |pairs| && pairs[i].0.Home? ==> |pairs[i].1| < bound
    ensures HomeBelow(RecordOfPairs(before + pairs), bound)
  {
    if pairs == [] {
      assert before + pairs == before;
    } else {
      var n := |pairs| - 1;
      HomeIsShort(before, pairs[..n], bound);
      assert (before + pairs)[..|before + pairs| - 1] == before + pairs[..n];
    }
  }

  lemma {:induction false} LinesAreShort(s: string)
    ensures forall i :: 0 <= i < |Lines(s)| ==> |Lines(s)[i]| <= |s|
    decreases |s|
  {
    if s != [] {
      var i := Find(s, '\n');
      if i < |s| { LinesAreShort(s[i + 1..]); }
    }
  }

  lemma LastLine(line: string)
    requires SingleLine(line)
    ensures Lines(line + "\n") == [StripReturn(line)]
  {
    LinesCons(line, "");
    assert line + "\n" + "" == line + "\n";
    assert [StripReturn(line)] + Lines("") == [StripReturn(line)];
  }

  // The pairs read from the text after the header.
  function Tail(home: string): seq<(Key, string)> { ParseLines(Lines(HomeLine(home) + "\n")) }

  // A home on one line is read back without its surrounding blanks.
  lemma SingleLineHome(home: string)
    requires SingleLine(home)
    ensures |Tail(home)| == 1
    ensures Tail(home)[0] == (Home, home) <==> Trimmed(home)
    ensures Tail(home)[0].0.Unknown? || Trimmed(Tail(home)[0].1)
  {
    LastLine(HomeLine(home));
    ValueIsShort(StripReturn(HomeLine(home)));
    if Trimmed(home) {
      HomeLineReads(home);
    }
  }

  lemma HeadIsShort(part: string)
    ensures |ParseLine(StripReturn(HomeLine(part))).1| <= |part|
  {
    var head := StripReturn(HomeLine(part));
    assert head[4] == '=' && '=' !in head[..4];
    FindAt(head, '=', 4);
    TrimProperty(head[5..]);
  }

  lemma CutHome(first: string, rest: string, home: string)
    requires home == first + "\n" + rest && SingleLine(first)
    ensures Lines(HomeLine(home) + "\n") == [StripReturn(HomeLine(first))] + Lines(rest + "\n")
  {
    assert HomeLine(home) + "\n" == HomeLine(first) + "\n" + (rest + "\n");
    LinesCons(HomeLine(first), rest + "\n");
  }

  lemma RestIsShort(text: string)
    ensures forall i :: 0 <= i < |Lines(text)| && ParseLine(Lines(text)[i]).0.Home? ==> |ParseLine(Lines(text)[i]).1| < |text|
  {
    LinesAreShort(text);
    forall i | 0 <= i < |Lines(text)| && ParseLine(Lines(text)[i]).0.Home?
      ensures |ParseLine(Lines(text)[i]).1| < |text|
    {
      ValueIsShort(Lines(text)[i]);
    }
  }

  // A line break cuts the home: every home value read back is shorter.
  lemma MultilineHome(home: string)
    requires !SingleLine(home)
    ensures forall i :: 0 <= i < |Tail(home)| && Tail(home)[i].0.Home? ==> |Tail(home)[i].1| < |home|
  {
    FindProperty(home, '\n');
    var i := Find(home, '\n');
    CutHome(home[..i], home[i + 1..], home);
    HeadIsShort(home[..i]);
    RestIsShort(home[i + 1..] + "\n");
  }

  lemma ParseLinesConcat(a: seq<string>, b: seq<string>)
    ensures ParseLines(a + b) == ParseLines(a) + ParseLines(b)
  {
  }

  lemma RecordOfWritten(pid: nat, start: nat, buildKind: string, home: string)
    requires SingleLine(buildKind) && Trimmed(buildKind)
    ensures RecordOf(Written(pid, start, buildKind, home)) == RecordOfPairs(HeaderPairs(pid, start, buildKind) + Tail(home))
  {
    WrittenReads(pid, start, buildKind, home);
    ParseHeader(pid, start, buildKind);
    ParseLinesConcat(Header(pid, start, buildKind), Lines(HomeLine(home) + "\n"));
  }

  lemma RecordOfSnoc(pairs: seq<(Key, string)>, last: (Key, string))
    ensures RecordOfPairs(pairs + [last]) == Update(RecordOfPairs(pairs), last)
  {
    assert (pairs + [last])[..|pairs|] == pairs;
  }

  // The gateway reads back exactly the identity the router wrote, if and only
  // if the home directory is one line without surrounding blanks. Otherwise
  // the record's text names another home than the one written.
  lemma RecordRoundTrip(pid: nat, start: nat, buildKind: string, home: string)
    requires pid <= MAX_U32 && start <= MAX_U64 && SingleLine(buildKind) && Trimmed(buildKind)
    ensures RecordOf(Written(pid, start, buildKind, home))
            == LockRecord(Some(pid), Some(start), Some("router"), Some(buildKind), Some(home))
            <==> SingleLine(home) && Trimmed(home)
  {
    RecordOfWritten(pid, start, buildKind, home);
    HeaderRecord(pid, start, buildKind);
    var header := HeaderPairs(pid, start, buildKind);
    if SingleLine(home) {
      SingleLineHome(home);
      assert Tail(home) == [Tail(home)[0]];
      RecordOfSnoc(header, Tail(home)[0]);
    } else {
      MultilineHome(home);
      HomeIsShort(header, Tail(home), |home|);
    }
  }
}
