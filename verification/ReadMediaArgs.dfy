// The arguments of the read_media command: from a command line of flags, or
// from a JSON value, with defaults taken from a policy file.
module ReadMediaArgs {
  import opened Wrappers
  import opened Text
  import opened Json
  import opened CliWords
  import opened Sequences

  datatype Limit = TextChars | Visuals | Side | Files | PdfPages | DocumentBytes | AudioBytes

  const ALL_LIMITS: seq<Limit> := [TextChars, Visuals, Side, Files, PdfPages, DocumentBytes, AudioBytes]

  datatype Limits = Limits(
    textChars: nat,
    visuals: nat,
    side: nat,
    files: nat,
    pdfPages: nat,
    documentBytes: nat,
    audioBytes: nat)
  {
    function Get(k: Limit): nat {
      match k
      case TextChars => textChars
      case Visuals => visuals
      case Side => side
      case Files => files
      case PdfPages => pdfPages
      case DocumentBytes => documentBytes
      case AudioBytes => audioBytes
    }

    function With(k: Limit, n: nat): Limits {
      match k
      case TextChars => this.(textChars := n)
      case Visuals => this.(visuals := n)
      case Side => this.(side := n)
      case Files => this.(files := n)
      case PdfPages => this.(pdfPages := n)
      case DocumentBytes => this.(documentBytes := n)
      case AudioBytes => this.(audioBytes := n)
    }

    ghost predicate InRange() {
      forall k: Limit :: Least(k) <= Get(k) <= Most(k)
    }
  }

  datatype Args = Args(paths: seq<string>, includeText: bool, limits: Limits)

  datatype ArgError = RequiresValue(word: string) | Unsupported(word: string) | NoPath | InvalidJson

  function Least(k: Limit): nat {
    match k
    case TextChars => 1_000
    case Visuals => 0
    case Side => 128
    case Files | PdfPages => 1
    case DocumentBytes | AudioBytes => 100_000
  }

  function Most(k: Limit): nat {
    match k
    case TextChars => 80_000
    case Visuals => 60
    case Side => 1024
    case Files => 100
    case PdfPages => 50
    case DocumentBytes | AudioBytes => 5_000_000
  }

  function Clamp(k: Limit, n: nat): nat {
    if n < Least(k) then Least(k) else if n > Most(k) then Most(k) else n
  }

  // Largest value of the integer type the flag's text is parsed as.
  function Widest(k: Limit): nat { if k == Side then MAX_U32 else MAX_U64 }

  // ----------------------------------------------------------------- policy

  function SplitOnceText(s: string, pattern: string): Option<(string, string)>
    decreases |s|
  {
    if pattern <= s then Some(("", s[|pattern|..]))
    else if s == [] then None
    else
      match SplitOnceText(s[1..], pattern)
      case None => None
      case Some((before, after)) => Some(([s[0]] + before, after))
  }

  predicate IsHeader(trimmed: string) {
    trimmed != [] && trimmed[0] == '[' && trimmed[|trimmed| - 1] == ']'
  }

  // The value after `key =` on a line that sets the key.
  function ValueOf(trimmed: string, key: string): Option<string> {
    if StartsWith(trimmed, "#") then None
    else
      match SplitOnce(trimmed, '=')
      case None => None
      case Some((name, value)) => if Trim(name) == key then Some(value) else None
  }

  function QuotedDefault(value: string): Option<string> {
    match SplitOnceText(value, "default")
    case None => None
    case Some((_, tail)) =>
      match SplitOnce(tail, '"')
      case None => None
      case Some((_, quoted)) =>
        match SplitOnce(quoted, '"')
        case None => None
        case Some((text, _)) => Some(text)
  }

  // The default on the first line of a [configurable] section that sets the key.
  function DefaultFrom(lines: seq<string>, inConfigurable: bool, key: string): Option<string> {
    if lines == [] then None
    else
      var trimmed := Trim(lines[0]);
      if IsHeader(trimmed) then DefaultFrom(lines[1..], trimmed == "[configurable]", key)
      else
        var value := ValueOf(trimmed, key);
        if inConfigurable && value.Some? then QuotedDefault(value.value)
        else DefaultFrom(lines[1..], inConfigurable, key)
  }

  predicate HeaderAt(lines: seq<string>, i: nat)
    requires i < |lines|
  {
    IsHeader(Trim(lines[i]))
  }

  // The last header before line i stands on line h.
  predicate LastHeader(lines: seq<string>, i: nat, h: nat)
    requires i <= |lines|
  {
    h < i && HeaderAt(lines, h) && forall j :: h < j < i ==> !HeaderAt(lines, j)
  }

  // That header is [configurable].
  ghost predicate InConfigurable(lines: seq<string>, i: nat)
    requires i <= |lines|
  {
    exists h: nat :: LastHeader(lines, i, h) && Trim(lines[h]) == "[configurable]"
  }

  // The line sets the key in a [configurable] section.
  ghost predicate SetsKey(lines: seq<string>, i: nat, key: string)
    requires i < |lines|
  {
    !HeaderAt(lines, i) && InConfigurable(lines, i) && ValueOf(Trim(lines[i]), key).Some?
  }

  ghost predicate NoneSets(lines: seq<string>, from: nat, to: nat, key: string)
    requires to <= |lines|
  {
    forall j :: from <= j < to ==> !SetsKey(lines, j, key)
  }

  ghost predicate FirstSetter(lines: seq<string>, k: nat, key: string, i: nat) {
    k <= i < |lines| && SetsKey(lines, i, key) && NoneSets(lines, k, i, key)
  }

  // The result is the quoted default on the first such line from position k
  // on, or none when there is no such line.
  ghost predicate IsFirstDefault(lines: seq<string>, k: nat, key: string, r: Option<string>) {
    || (exists i: nat :: FirstSetter(lines, k, key, i) && r == QuotedDefault(ValueOf(Trim(lines[i]), key).value))
    || (NoneSets(lines, k, |lines|, key) && r == None)
  }

  lemma NextLastHeader(lines: seq<string>, k: nat, h: nat)
    requires k < |lines|
    ensures LastHeader(lines, k + 1, h) <==> if HeaderAt(lines, k) then h == k else LastHeader(lines, k, h)
  {
  }

  lemma NextInConfigurable(lines: seq<string>, k: nat)
    requires k < |lines|
    ensures InConfigurable(lines, k + 1) <==>
            if HeaderAt(lines, k) then Trim(lines[k]) == "[configurable]" else InConfigurable(lines, k)
  {
    forall h: nat
      ensures LastHeader(lines, k + 1, h) <==> if HeaderAt(lines, k) then h == k else LastHeader(lines, k, h)
    {
      NextLastHeader(lines, k, h);
    }
  }

  lemma NoneSetsEarlier(lines: seq<string>, k: nat, to: nat, key: string)
    requires k < to <= |lines| && !SetsKey(lines, k, key) && NoneSets(lines, k + 1, to, key)
    ensures NoneSets(lines, k, to, key)
  {
  }

  lemma FirstDefaultEarlier(lines: seq<string>, k: nat, key: string, r: Option<string>)
    requires k < |lines| && !SetsKey(lines, k, key) && IsFirstDefault(lines, k + 1, key, r)
    ensures IsFirstDefault(lines, k, key, r)
  {
    if NoneSets(lines, k + 1, |lines|, key) && r == None {
      NoneSetsEarlier(lines, k, |lines|, key);
    } else {
      var i: nat :| FirstSetter(lines, k + 1, key, i) && r == QuotedDefault(ValueOf(Trim(lines[i]), key).value);
      NoneSetsEarlier(lines, k, i, key);
      assert FirstSetter(lines, k, key, i);
    }
  }

  lemma {:induction false} DefaultIsOfFirstLine(lines: seq<string>, k: nat, inConfigurable: bool, key: string)
    requires k <= |lines| && (inConfigurable <==> InConfigurable(lines, k))
    ensures IsFirstDefault(lines, k, key, DefaultFrom(lines[k..], inConfigurable, key))
    decreases |lines| - k
  {
    if k < |lines| {
      var trimmed := Trim(lines[k]);
      assert lines[k..][0] == lines[k] && lines[k..][1..] == lines[k + 1..];
      NextInConfigurable(lines, k);
      if !SetsKey(lines, k, key) {
        DefaultIsOfFirstLine(lines, k + 1, if IsHeader(trimmed) then trimmed == "[configurable]" else inConfigurable, key);
        FirstDefaultEarlier(lines, k, key, DefaultFrom(lines[k..], inConfigurable, key));
      }
    }
  }

  method ConfigurableDefault(policy: string, key: string) returns (r: Option<string>)
    ensures r == DefaultFrom(Lines(policy), false, key)
    ensures IsFirstDefault(Lines(policy), 0, key, r)
  {
    var lines := Lines(policy);
    assert lines[0..] == lines;
    DefaultIsOfFirstLine(lines, 0, false, key);
    var inConfigurable := false;
    for i := 0 to |lines|
      invariant DefaultFrom(lines[i..], inConfigurable, key) == DefaultFrom(lines, false, key)
    {
      assert lines[i..][0] == lines[i] && lines[i..][1..] == lines[i + 1..];
      var trimmed := Trim(lines[i]);
      if IsHeader(trimmed) {
        inConfigurable := trimmed == "[configurable]";
        continue;
      }
      if !inConfigurable || StartsWith(trimmed, "#") {
        continue;
      }
      var assignment := SplitOnce(trimmed, '=');
      if assignment.None? || Trim(assignment.value.0) != key {
        continue;
      }
      return QuotedDefault(assignment.value.1);
    }
    return None;
  }

  function Setting(policy: string, key: string): string {
    match DefaultFrom(Lines(policy), false, key)
    case None => ""
    case Some(text) => text
  }

  function Attachment(size: string): nat {
    if size == "small" then 500_000 else if size == "large" then 2_000_000 else 1_000_000
  }

  // ReadMediaPolicy::from_policy_toml: a missing setting means the same as an
  // unknown one.
  function PolicyOf(policy: string): Limits {
    var compression := Setting(policy, "media_compression");
    var pages := Setting(policy, "pdf_default_pages");
    var files := Setting(policy, "directory_default_files");
    var (textChars, visuals, side) :=
      if compression == "compact" then (20_000, 4, 384)
      else if compression == "detailed" then (80_000, 10, 768)
      else (40_000, 6, 512);
    Limits(
      textChars, visuals, side,
      if files == "few" then 8 else if files == "many" then 50 else 20,
      if pages == "first" then 1 else if pages == "extended" then 10 else 5,
      Attachment(Setting(policy, "document_attachment_size")),
      Attachment(Setting(policy, "audio_preview_size")))
  }

  // Whatever the policy file says, the defaults are inside the clamp ranges.
  lemma PolicyInRange(policy: string)
    ensures PolicyOf(policy).InRange()
  {
  }

  // ----------------------------------------------------------- command line

  datatype Flag = Path | IncludeText | NoText | Bound(limit: Limit) | Word | Unknown

  predicate Names(k: Limit, word: string) {
    match k
    case TextChars => word == "--max-text-chars" || word == "--max_text_chars"
    case Visuals => word == "--max-visuals" || word == "--max_visuals"
    case Side => word == "--max-side" || word == "--max_side"
    case Files =>
      || word == "--max-files" || word == "--max_files"
      || word == "--max-directory-files" || word == "--max_directory_files"
    case PdfPages =>
      || word == "--pdf-pages" || word == "--pdf_pages"
      || word == "--pdf-max-pages" || word == "--pdf_max_pages"
    case DocumentBytes => word == "--document-attachment-bytes" || word == "--document_attachment_bytes"
    case AudioBytes => word == "--audio-preview-bytes" || word == "--audio_preview_bytes"
  }

  function FlagOf(word: string): Flag {
    if word == "--path" || word == "--paths" || word == "-p" then Path
    else if word == "--include-text" || word == "--include_text" then IncludeText
    else if word == "--no-text" || word == "--no-include-text" || word == "--no_include_text" then NoText
    else if Names(TextChars, word) then Bound(TextChars)
    else if Names(Visuals, word) then Bound(Visuals)
    else if Names(Side, word) then Bound(Side)
    else if Names(Files, word) then Bound(Files)
    else if Names(PdfPages, word) then Bound(PdfPages)
    else if Names(DocumentBytes, word) then Bound(DocumentBytes)
    else if Names(AudioBytes, word) then Bound(AudioBytes)
    else if !StartsWith(word, "-") then Word
    else Unknown
  }

  predicate IsCommandName(word: string) {
    var name := Lower(word);
    name == "read_media" || name == "read-media" || name == "readmedia"
  }

  // `--key=value` as one word; any other word has no value of its own.
  function SplitAssignment(word: string): (string, Option<string>) {
    match SplitOnce(word, '=')
    case Some((key, value)) => if StartsWith(key, "-") then (key, Some(value)) else (word, None)
    case None => (word, None)
  }

  function OrElse(parsed: Option<nat>, otherwise: nat): nat {
    if parsed.Some? then parsed.value else otherwise
  }

  function LimitOf(k: Limit, text: string, policy: Limits): nat {
    Clamp(k, OrElse(ParseUnsigned(text, Widest(k)), policy.Get(k)))
  }

  // The effect of a flag that has a value.
  function WithValue(flag: Flag, value: string, args: Args, policy: Limits): Args {
    match flag
    case Path => args.(paths := args.paths + [value])
    case Bound(k) => args.(limits := args.limits.With(k, LimitOf(k, value, policy)))
    case _ => args
  }

  // What the first word does to the arguments read so far, and how many words
  // it takes up.
  function ParseFirst(words: seq<string>, args: Args, policy: Limits): (r: Result<(Args, nat), ArgError>)
    requires words != []
    ensures r.Ok? ==> 0 < r.value.1 <= |words|
  {
    var (word, inlineValue) := SplitAssignment(words[0]);
    match FlagOf(word)
    case IncludeText => Ok((args.(includeText := true), 1))
    case NoText => Ok((args.(includeText := false), 1))
    case Word => Ok((args.(paths := args.paths + [word]), 1))
    case Unknown => Err(Unsupported(word))
    case flag =>
      if inlineValue.Some? then Ok((WithValue(flag, inlineValue.value, args, policy), 1))
      else if |words| > 1 then Ok((WithValue(flag, words[1], args, policy), 2))
      else Err(RequiresValue(word))
  }

  // What all the words do.
  function Parse(words: seq<string>, args: Args, policy: Limits): Result<Args, ArgError>
    decreases |words|
  {
    if words == [] then Ok(args)
    else
      match ParseFirst(words, args, policy)
      case Err(e) => Err(e)
      case Ok((more, taken)) => Parse(words[taken..], more, policy)
  }

  function Defaults(policy: Limits): Args { Args([], true, policy) }

  function WithoutCommandName(words: seq<string>): seq<string> {
    if words != [] && IsCommandName(words[0]) then words[1..] else words
  }

  // args_from_parts
  function NeedPath(r: Result<Args, ArgError>): Result<Args, ArgError> {
    if r.Ok? && r.value.paths == [] then Err(NoPath) else r
  }

  function ArgsOfLine(line: string, policy: Limits): Result<Args, ArgError> {
    NeedPath(Parse(WithoutCommandName(WordsFrom(line, None, "")), Defaults(policy), policy))
  }

  method TakeValue(words: seq<string>, index: nat, inlineValue: Option<string>)
    returns (value: Option<string>, next: nat)
    requires index < |words|
    ensures inlineValue.Some? ==> value == inlineValue && next == index
    ensures inlineValue.None? ==> next == index + 1
    ensures inlineValue.None? ==> value == if index + 1 < |words| then Some(words[index + 1]) else None
  {
    if inlineValue.Some? {
      return inlineValue, index;
    }
    next := index + 1;
    value := if next < |words| then Some(words[next]) else None;
  }

  // One turn of the loop: the word at an index, and its value if it has one.
  method ParseWord(words: seq<string>, index: nat, args: Args, policy: Limits) returns (r: Result<Args, ArgError>, next: nat)
    requires index < |words|
    ensures match ParseFirst(words[index..], args, policy)
      case Err(e) => r == Err(e)
      case Ok((more, taken)) => r == Ok(more) && next == index + taken
  {
    next := index;
    var (word, inlineValue) := SplitAssignment(words[index]);
    var flag := FlagOf(word);
    match flag {
      case IncludeText => r := Ok(args.(includeText := true));
      case NoText => r := Ok(args.(includeText := false));
      case Word => r := Ok(args.(paths := args.paths + [word]));
      case Unknown => return Err(Unsupported(word)), index;
      case _ =>
        var value;
        value, next := TakeValue(words, index, inlineValue);
        if value.None? {
          return Err(RequiresValue(word)), next;
        }
        r := Ok(WithValue(flag, value.value, args, policy));
    }
    next := next + 1;
  }

  method ParseCliArgs(input: string, policy: Limits) returns (r: Result<Args, ArgError>)
    ensures r == ArgsOfLine(input, policy)
  {
    var words := SplitCliWords(input);
    var args := Defaults(policy);
    var index := 0;
    ghost var whole := Parse(WithoutCommandName(words), args, policy);
    assert words[0..] == words;
    while index < |words|
      invariant 0 <= index <= |words|
      invariant index == 0 ==> args == Defaults(policy)
      invariant index > 0 ==> whole == Parse(words[index..], args, policy)
    {
      if index == 0 && IsCommandName(words[index]) {
        index := index + 1;
        continue;
      }
      assert whole == Parse(words[index..], args, policy);
      var turn, next := ParseWord(words, index, args, policy);
      if turn.Err? {
        return Err(turn.error);
      }
      assert words[index..][next - index..] == words[next..];
      args, index := turn.value, next;
    }
    r := if args.paths == [] then Err(NoPath) else Ok(args);
  }

  lemma WithInRange(limits: Limits, k: Limit, n: nat)
    requires limits.InRange() && Least(k) <= n <= Most(k)
    ensures limits.With(k, n).InRange()
  {
  }

  lemma FirstInRange(words: seq<string>, args: Args, policy: Limits)
    requires words != [] && args.limits.InRange()
    ensures var r := ParseFirst(words, args, policy); r.Ok? ==> r.value.0.limits.InRange()
  {
    var (word, inlineValue) := SplitAssignment(words[0]);
    var flag := FlagOf(word);
    if inlineValue.Some? {
      WithValueInRange(flag, inlineValue.value, args, policy);
    } else if |words| > 1 {
      WithValueInRange(flag, words[1], args, policy);
    }
  }

  lemma {:induction false} ParseInRange(words: seq<string>, args: Args, policy: Limits)
    requires args.limits.InRange()
    ensures Parse(words, args, policy).Ok? ==> Parse(words, args, policy).value.limits.InRange()
    decreases |words|
  {
    if words != [] && ParseFirst(words, args, policy).Ok? {
      FirstInRange(words, args, policy);
      var (more, taken) := ParseFirst(words, args, policy).value;
      ParseInRange(words[taken..], more, policy);
    }
  }

  lemma WithValueInRange(flag: Flag, value: string, args: Args, policy: Limits)
    requires args.limits.InRange()
    ensures WithValue(flag, value, args, policy).limits.InRange()
  {
    if flag.Bound? {
      WithInRange(args.limits, flag.limit, LimitOf(flag.limit, value, policy));
    }
  }

  // Every accepted command line, under any policy text, gives at least one
  // path and limits inside the clamp ranges.
  lemma LineInRange(line: string, policy: string)
    ensures var r := ArgsOfLine(line, PolicyOf(policy)); r.Ok? ==> r.value.paths != [] && r.value.limits.InRange()
  {
    PolicyInRange(policy);
    ParseInRange(WithoutCommandName(WordsFrom(line, None, "")), Defaults(PolicyOf(policy)), PolicyOf(policy));
  }

  // --------------------------------------------------------------- printing

  function LimitFlag(k: Limit): (word: string) {
    match k
    case TextChars => "--max-text-chars"
    case Visuals => "--max-visuals"
    case Side => "--max-side"
    case Files => "--max-files"
    case PdfPages => "--pdf-max-pages"
    case DocumentBytes => "--document-attachment-bytes"
    case AudioBytes => "--audio-preview-bytes"
  }

  function PrintPaths(paths: seq<string>): seq<string> {
    if paths == [] then [] else ["--path", paths[0]] + PrintPaths(paths[1..])
  }

  function PrintLimits(ks: seq<Limit>, limits: Limits): seq<string> {
    if ks == [] then [] else [LimitFlag(ks[0]), Decimal(limits.Get(ks[0]))] + PrintLimits(ks[1..], limits)
  }

  function TextFlag(includeText: bool): string { if includeText then "--include-text" else "--no-text" }

  // The words that spell the arguments out in full.
  function Print(args: Args): seq<string> {
    PrintPaths(args.paths) +
    ([TextFlag(args.includeText)] + PrintLimits(ALL_LIMITS, args.limits))
  }

  predicate Printable(args: Args) {
    args.paths != [] && forall i :: 0 <= i < |args.paths| ==> args.paths[i] != ""
  }

  lemma NoAssignment(word: string)
    requires forall i :: 0 <= i < |word| ==> word[i] != '='
    ensures SplitAssignment(word) == (word, None)
  {
    FindAt(word, '=', |word|);
  }

  lemma PlainFlag(k: Limit)
    ensures SplitAssignment(LimitFlag(k)) == (LimitFlag(k), None)
  {
    NoAssignment(LimitFlag(k));
  }

  // Every flag that is printed is read as the limit it names.
  lemma FlagNamesItsLimit(k: Limit)
    ensures FlagOf(LimitFlag(k)) == Bound(k)
  {
    if k == AudioBytes {
      assert "--audio-preview-bytes"[2] != "--max-directory-files"[2];
    }
  }

  // Words that turn the arguments `from` into `to`, whatever follows them.
  ghost predicate Reads(words: seq<string>, from: Args, to: Args, policy: Limits) {
    forall rest: seq<string> :: Parse(words + rest, from, policy) == Parse(rest, to, policy)
  }

  lemma ReadsJoin(first: seq<string>, second: seq<string>, a: Args, b: Args, c: Args, policy: Limits)
    requires Reads(first, a, b, policy) && Reads(second, b, c, policy)
    ensures Reads(first + second, a, c, policy)
  {
    forall rest: seq<string> ensures Parse((first + second) + rest, a, policy) == Parse(rest, c, policy) {
      Associate(first, second, rest);
    }
  }

  lemma ReadsNothing(args: Args, policy: Limits)
    ensures Reads([], args, args, policy)
  {
    forall rest: seq<string> ensures Parse([] + rest, args, policy) == Parse(rest, args, policy) {
      assert [] + rest == rest;
    }
  }

  // One flag without a value, and one flag followed by its value.
  lemma ReadFlag(word: string, args: Args, policy: Limits)
    requires SplitAssignment(word) == (word, None) && FlagOf(word) in {IncludeText, NoText}
    ensures Reads([word], args, args.(includeText := FlagOf(word) == IncludeText), policy)
  {
    var to := args.(includeText := FlagOf(word) == IncludeText);
    forall rest: seq<string> ensures Parse([word] + rest, args, policy) == Parse(rest, to, policy) {
      assert ([word] + rest)[0] == word && ([word] + rest)[1..] == rest;
    }
  }

  lemma ReadValue(word: string, value: string, args: Args, policy: Limits)
    requires SplitAssignment(word) == (word, None) && (FlagOf(word).Path? || FlagOf(word).Bound?)
    ensures Reads([word, value], args, WithValue(FlagOf(word), value, args, policy), policy)
  {
    var to := WithValue(FlagOf(word), value, args, policy);
    forall rest: seq<string> ensures Parse([word, value] + rest, args, policy) == Parse(rest, to, policy) {
      var words := [word, value] + rest;
      assert words[0] == word && words[1] == value && words[2..] == rest;
    }
  }

  lemma PathFlag()
    ensures SplitAssignment("--path") == ("--path", None) && FlagOf("--path") == Path
  {
    NoAssignment("--path");
  }

  lemma IncludeTextFlag()
    ensures SplitAssignment("--include-text") == ("--include-text", None) && FlagOf("--include-text") == IncludeText
  {
    NoAssignment("--include-text");
  }

  lemma NoTextFlag()
    ensures SplitAssignment("--no-text") == ("--no-text", None) && FlagOf("--no-text") == NoText
  {
    NoAssignment("--no-text");
  }

  lemma ReadTextFlag(includeText: bool, args: Args, policy: Limits)
    ensures Reads([TextFlag(includeText)], args, args.(includeText := includeText), policy)
  {
    IncludeTextFlag();
    NoTextFlag();
    ReadFlag(TextFlag(includeText), args, policy);
  }

  lemma ReadPath(path: string, args: Args, policy: Limits)
    ensures Reads(["--path", path], args, args.(paths := args.paths + [path]), policy)
  {
    PathFlag();
    ReadValue("--path", path, args, policy);
  }

  lemma ReadLimit(k: Limit, n: nat, args: Args, policy: Limits)
    requires Least(k) <= n <= Most(k)
    ensures Reads([LimitFlag(k), Decimal(n)], args, args.(limits := args.limits.With(k, n)), policy)
  {
    PlainFlag(k);
    FlagNamesItsLimit(k);
    ParseDecimal(n, Widest(k));
    ReadValue(LimitFlag(k), Decimal(n), args, policy);
  }

  lemma {:induction false} ReadPaths(paths: seq<string>, args: Args, policy: Limits)
    ensures Reads(PrintPaths(paths), args, args.(paths := args.paths + paths), policy)
    decreases |paths|
  {
    if paths == [] {
      ReadsNothing(args, policy);
      assert args.paths + paths == args.paths;
    } else {
      var one := args.(paths := args.paths + [paths[0]]);
      var all := args.(paths := args.paths + paths);
      ReadPath(paths[0], args, policy);
      ReadPaths(paths[1..], one, policy);
      assert args.paths + [paths[0]] + paths[1..] == args.paths + paths;
      ReadsJoin(["--path", paths[0]], PrintPaths(paths[1..]), args, one, all, policy);
    }
  }

  function SetAll(ks: seq<Limit>, limits: Limits, from: Limits): Limits {
    if ks == [] then limits else SetAll(ks[1..], limits.With(ks[0], from.Get(ks[0])), from)
  }

  lemma {:induction false} ReadLimits(ks: seq<Limit>, limits: Limits, args: Args, policy: Limits)
    requires limits.InRange()
    ensures Reads(PrintLimits(ks, limits), args, args.(limits := SetAll(ks, args.limits, limits)), policy)
    decreases |ks|
  {
    if ks == [] {
      ReadsNothing(args, policy);
    } else {
      var n := limits.Get(ks[0]);
      var one := args.(limits := args.limits.With(ks[0], n));
      var all := args.(limits := SetAll(ks, args.limits, limits));
      ReadLimit(ks[0], n, args, policy);
      ReadLimits(ks[1..], limits, one, policy);
      ReadsJoin([LimitFlag(ks[0]), Decimal(n)], PrintLimits(ks[1..], limits), args, one, all, policy);
    }
  }

  lemma {:induction false} SetAllKeeps(ks: seq<Limit>, limits: Limits, from: Limits, k: Limit)
    ensures SetAll(ks, limits, from).Get(k) == if k in ks then from.Get(k) else limits.Get(k)
    decreases |ks|
  {
    if ks != [] {
      SetAllKeeps(ks[1..], limits.With(ks[0], from.Get(ks[0])), from, k);
    }
  }

  lemma AllLimitsAreSet(limits: Limits, from: Limits)
    ensures SetAll(ALL_LIMITS, limits, from) == from
  {
    var all := SetAll(ALL_LIMITS, limits, from);
    forall k: Limit ensures all.Get(k) == from.Get(k) {
      SetAllKeeps(ALL_LIMITS, limits, from, k);
    }
    assert all.Get(TextChars) == from.textChars && all.Get(Visuals) == from.visuals && all.Get(Side) == from.side;
    assert all.Get(Files) == from.files && all.Get(PdfPages) == from.pdfPages;
    assert all.Get(DocumentBytes) == from.documentBytes && all.Get(AudioBytes) == from.audioBytes;
  }

  // The printed words turn the defaults into the arguments.
  lemma ReadsPrinted(args: Args, policy: Limits)
    requires args.limits.InRange()
    ensures Reads(Print(args), Defaults(policy), args, policy)
  {
    var numbers := PrintLimits(ALL_LIMITS, args.limits);
    var withPaths := Args(args.paths, true, policy);
    var withText := Args(args.paths, args.includeText, policy);
    ReadPaths(args.paths, Defaults(policy), policy);
    assert [] + args.paths == args.paths;
    ReadTextFlag(args.includeText, withPaths, policy);
    ReadLimits(ALL_LIMITS, args.limits, withText, policy);
    AllLimitsAreSet(policy, args.limits);
    ReadsJoin([TextFlag(args.includeText)], numbers, withPaths, withText, args, policy);
    ReadsJoin(PrintPaths(args.paths), [TextFlag(args.includeText)] + numbers, Defaults(policy), withPaths, args, policy);
  }

  // Reading the printed words gives the arguments back, whatever the paths
  // look like and whatever the policy says.
  lemma PrintedWordsReadBack(args: Args, policy: Limits)
    requires Printable(args) && args.limits.InRange()
    ensures NeedPath(Parse(WithoutCommandName(Print(args)), Defaults(policy), policy)) == Ok(args)
  {
    FirstPrintedWord(args);
    NotACommandName();
    ReadsPrinted(args, policy);
    assert Parse(Print(args) + [], Defaults(policy), policy) == Ok(args);
    assert Print(args) + [] == Print(args);
  }

  lemma NotACommandName()
    ensures !IsCommandName("--path")
  {
  }

  // A line that means the printed words, however each word of it is quoted, is
  // read as the arguments.
  lemma RoundTrip(args: Args, line: seq<seq<Segment>>, policy: Limits)
    requires Printable(args) && args.limits.InRange()
    requires forall i :: 0 <= i < |line| ==> WritableWord(line[i])
    requires Meanings(line) == Print(args)
    ensures ArgsOfLine(WrittenLine(line), policy) == Ok(args)
  {
    ReadLine(line);
    PrintedWordsReadBack(args, policy);
  }

  // Such a line exists for arbitrary path text.
  function QuoteAll(words: seq<string>): (line: seq<seq<Segment>>)
    ensures |line| == |words|
  {
    seq(|words|, i requires 0 <= i < |words| => Quote(words[i]))
  }

  lemma {:induction false} PrintedWordsAreNotEmpty(paths: seq<string>)
    requires forall i :: 0 <= i < |paths| ==> paths[i] != ""
    ensures forall i :: 0 <= i < |PrintPaths(paths)| ==> PrintPaths(paths)[i] != ""
  {
    if paths != [] {
      PrintedWordsAreNotEmpty(paths[1..]);
    }
  }

  lemma {:induction false} PrintedLimitsAreNotEmpty(ks: seq<Limit>, limits: Limits)
    ensures forall i :: 0 <= i < |PrintLimits(ks, limits)| ==> PrintLimits(ks, limits)[i] != ""
  {
    if ks != [] {
      PrintedLimitsAreNotEmpty(ks[1..], limits);
    }
  }

  lemma QuotedRoundTrip(args: Args, policy: Limits)
    requires Printable(args) && args.limits.InRange()
    ensures ArgsOfLine(WrittenLine(QuoteAll(Print(args))), policy) == Ok(args)
  {
    PrintedWordsAreNotEmpty(args.paths);
    PrintedLimitsAreNotEmpty(ALL_LIMITS, args.limits);
    QuoteAllMeans(Print(args));
    RoundTrip(args, QuoteAll(Print(args)), policy);
  }

  lemma QuoteAllMeans(words: seq<string>)
    requires forall i :: 0 <= i < |words| ==> words[i] != ""
    ensures Meanings(QuoteAll(words)) == words
    ensures forall i :: 0 <= i < |words| ==> WritableWord(QuoteAll(words)[i])
  {
    forall i | 0 <= i < |words| ensures MeantWord(QuoteAll(words)[i]) == words[i] && WritableWord(QuoteAll(words)[i]) {
      QuoteMeansText(words[i]);
    }
  }

  // ------------------------------------------------------------------- JSON

  type Value = Json<string>

  const CLI_KEYS: seq<string> := ["cli", "command_line", "commandLine", "input", "args", "payload"]
  const PATH_KEYS: seq<string> := ["paths", "path", "files", "file", "media", "media_paths"]
  const TEXT_KEYS: seq<string> := ["include_text", "includeText", "text"]

  function LimitKeys(k: Limit): seq<string> {
    match k
    case TextChars => ["max_text_chars", "maxTextChars"]
    case Visuals => ["max_visuals", "maxVisuals", "visuals"]
    case Side => ["max_side", "maxSide"]
    case Files => ["max_files", "maxFiles", "max_directory_files", "maxDirectoryFiles"]
    case PdfPages => ["pdf_max_pages", "pdfMaxPages", "pdf_pages", "pdfPages"]
    case DocumentBytes =>
      ["document_attachment_bytes", "documentAttachmentBytes", "max_document_attachment_bytes", "maxDocumentAttachmentBytes"]
    case AudioBytes =>
      ["audio_preview_bytes", "audioPreviewBytes", "max_audio_preview_bytes", "maxAudioPreviewBytes"]
  }

  // find_map over the keys: the first that gives a value.
  function FirstOf<T>(v: Value, keys: seq<string>, read: Value -> Option<T>): Option<T> {
    if keys == [] then None
    else
      var found := Get(v, keys[0]);
      var here := if found.Some? then read(found.value) else None;
      if here.Some? then here else FirstOf(v, keys[1..], read)
  }

  function BoolText(text: string): Option<bool> {
    if text == "true" || text == "yes" || text == "y" || text == "1" || text == "on" then Some(true)
    else if text == "false" || text == "no" || text == "n" || text == "0" || text == "off" then Some(false)
    else None
  }

  function ReadBool(v: Value): Option<bool> {
    match v
    case Bool(b) => Some(b)
    case Str(text) => BoolText(Lower(Trim(text)))
    case _ => None
  }

  function ReadUnsigned(v: Value): Option<nat> {
    match v
    case Str(text) => ParseUnsigned(text, MAX_U64)
    case _ => AsUnsigned(Some(v), MAX_U64)
  }

  // The trimmed texts of an array that are not blank.
  function Texts(items: seq<Value>): seq<string> {
    if items == [] then []
    else if items[0].Str? && Trim(items[0].text) != "" then [Trim(items[0].text)] + Texts(items[1..])
    else Texts(items[1..])
  }

  function StringList(v: Option<Value>): seq<string> {
    match v
    case Some(Arr(items)) => Texts(items)
    case Some(Str(text)) => if Trim(text) == "" then [] else [Trim(text)]
    case _ => []
  }

  // A limit given as a number is clamped; otherwise it is the default.
  function JsonLimit(v: Value, k: Limit, policy: Limits): nat {
    var n := FirstOf(v, LimitKeys(k), ReadUnsigned);
    if n.Some? then Clamp(k, n.value) else policy.Get(k)
  }

  function JsonLimits(v: Value, policy: Limits): Limits {
    Limits(
      JsonLimit(v, TextChars, policy),
      JsonLimit(v, Visuals, policy),
      JsonLimit(v, Side, policy),
      JsonLimit(v, Files, policy),
      JsonLimit(v, PdfPages, policy),
      JsonLimit(v, DocumentBytes, policy),
      JsonLimit(v, AudioBytes, policy))
  }

  // A command line inside an object: the first text under one of the keys,
  // unless it is blank.
  function CommandLineOf(v: Value): Option<string> {
    match FirstOf(v, CLI_KEYS, (x: Value) => AsStr(Some(x)))
    case Some(text) => if Trim(text) == "" then None else Some(Trim(text))
    case None => None
  }

  // parse_args_value
  function ArgsOfValue(v: Value, policy: Limits): Result<Args, ArgError> {
    if v.Str? then ArgsOfLine(v.text, policy)
    else if v.Arr? then NeedPath(Ok(Args(StringList(Some(v)), true, policy)))
    else
      match CommandLineOf(v)
      case Some(line) => ArgsOfLine(line, policy)
      case None =>
        var includeText := FirstOf(v, TEXT_KEYS, ReadBool);
        NeedPath(Ok(Args(
          StringList(FirstOf(v, PATH_KEYS, (x: Value) => Some(x))),
          includeText.None? || includeText.value,
          JsonLimits(v, policy))))
  }

  // parse_args_text, given what the JSON library makes of a text that looks
  // like an object or an array.
  function ArgsOfText(text: string, json: string -> Option<Value>, policy: Limits): Result<Args, ArgError> {
    var trimmed := Trim(text);
    if StartsWith(trimmed, "{") || StartsWith(trimmed, "[") then
      match json(trimmed)
      case Some(v) => ArgsOfValue(v, policy)
      case None => Err(InvalidJson)
    else ArgsOfLine(trimmed, policy)
  }

  lemma JsonLimitInRange(v: Value, k: Limit, policy: Limits)
    requires policy.InRange()
    ensures Least(k) <= JsonLimit(v, k, policy) <= Most(k)
  {
    assert Least(k) <= policy.Get(k) <= Most(k);
  }

  lemma JsonLimitsInRange(v: Value, policy: Limits)
    requires policy.InRange()
    ensures JsonLimits(v, policy).InRange()
  {
    forall k: Limit ensures Least(k) <= JsonLimits(v, policy).Get(k) <= Most(k) {
      JsonLimitInRange(v, k, policy);
    }
  }

  // Every accepted JSON value, under any policy text, gives at least one path
  // and limits inside the clamp ranges.
  lemma ValueInRange(v: Value, policy: string)
    ensures var r := ArgsOfValue(v, PolicyOf(policy)); r.Ok? ==> r.value.paths != [] && r.value.limits.InRange()
  {
    PolicyInRange(policy);
    JsonLimitsInRange(v, PolicyOf(policy));
    if v.Str? {
      LineInRange(v.text, policy);
    } else if !v.Arr? && CommandLineOf(v).Some? {
      LineInRange(CommandLineOf(v).value, policy);
    }
  }

  // Every accepted text is in range, whatever the JSON library does.
  lemma TextInRange(text: string, json: string -> Option<Value>, policy: string)
    ensures var r := ArgsOfText(text, json, PolicyOf(policy)); r.Ok? ==> r.value.paths != [] && r.value.limits.InRange()
  {
    var trimmed := Trim(text);
    LineInRange(trimmed, policy);
    var v := json(trimmed);
    if v.Some? {
      ValueInRange(v.value, policy);
    }
  }

  // The object that spells the arguments out in full.
  function JsonOf(args: Args): Value {
    Obj([
      Field("paths", Arr(PathItems(args.paths))),
      Field("include_text", Bool(args.includeText)),
      Field("max_text_chars", Number(args.limits.textChars)),
      Field("max_visuals", Number(args.limits.visuals)),
      Field("max_side", Number(args.limits.side)),
      Field("max_files", Number(args.limits.files)),
      Field("pdf_max_pages", Number(args.limits.pdfPages)),
      Field("document_attachment_bytes", Number(args.limits.documentBytes)),
      Field("audio_preview_bytes", Number(args.limits.audioBytes))])
  }

  function PathItems(paths: seq<string>): seq<Value> {
    seq(|paths|, i requires 0 <= i < |paths| => Str(paths[i]))
  }

  predicate CleanPath(path: string) { path != "" && Trimmed(path) }

  lemma {:induction false} TextsAreShort(items: seq<Value>)
    ensures |Texts(items)| <= |items|
  {
    if items != [] {
      TextsAreShort(items[1..]);
    }
  }

  // Paths in an array are kept as they are exactly when each is clean.
  lemma {:induction false} TextsOfPaths(paths: seq<string>)
    ensures Texts(PathItems(paths)) == paths <==> forall i :: 0 <= i < |paths| ==> CleanPath(paths[i])
    decreases |paths|
  {
    if paths != [] {
      var path, rest := paths[0], paths[1..];
      TextsOfPaths(rest);
      TextsAreShort(PathItems(rest));
      TrimProperty(path);
      assert paths == [path] + rest;
      assert PathItems(paths)[1..] == PathItems(rest);
      assert (forall i :: 0 <= i < |paths| ==> CleanPath(paths[i])) <==>
             CleanPath(path) && forall i :: 0 <= i < |rest| ==> CleanPath(rest[i]) by {
        assert forall i :: 0 <= i < |rest| ==> rest[i] == paths[i + 1];
      }
      if Trim(path) != "" {
        assert Texts(PathItems(paths)) == [Trim(path)] + Texts(PathItems(rest));
      }
    }
  }

  ghost predicate DistinctLengths(fields: seq<Field<string>>) {
    forall i, j :: 0 <= i < j < |fields| ==> |fields[i].key| != |fields[j].key|
  }

  lemma {:induction false} LookupAt(fields: seq<Field<string>>, i: nat)
    requires DistinctLengths(fields) && i < |fields|
    ensures Lookup(fields, fields[i].key) == Some(fields[i].value)
    decreases i
  {
    if i > 0 {
      assert |fields[0].key| != |fields[i].key|;
      LookupAt(fields[1..], i - 1);
    }
  }

  lemma {:induction false} LookupAbsent(fields: seq<Field<string>>, key: string)
    requires forall i :: 0 <= i < |fields| ==> fields[i].key != key
    ensures Lookup(fields, key) == None
  {
    if fields != [] {
      LookupAbsent(fields[1..], key);
    }
  }

  lemma JsonFieldsDiffer(args: Args)
    ensures DistinctLengths(JsonOf(args).fields) && |JsonOf(args).fields| == 9
    ensures var f := JsonOf(args).fields;
      && |f[0].key| == 5 && |f[1].key| == 12 && |f[2].key| == 14 && |f[3].key| == 11 && |f[4].key| == 8
      && |f[5].key| == 9 && |f[6].key| == 13 && |f[7].key| == 25 && |f[8].key| == 19
  {
  }

  // None of the keys of an embedded command line is one of the fields.
  lemma NoCommandLine(args: Args)
    ensures CommandLineOf(JsonOf(args)) == None
  {
    var f := JsonOf(args).fields;
    JsonFieldsDiffer(args);
    assert f[0].key[0] == 'p' && f[1].key[0] == 'i' && f[3].key[0] == 'm';
    forall k | 0 <= k < |CLI_KEYS| ensures Lookup(f, CLI_KEYS[k]) == None {
      NotAField(args, k);
      LookupAbsent(f, CLI_KEYS[k]);
    }
    NothingFound(JsonOf(args), CLI_KEYS, (x: Value) => AsStr(Some(x)));
  }

  lemma NotAField(args: Args, k: nat)
    requires k < |CLI_KEYS|
    ensures forall i :: 0 <= i < |JsonOf(args).fields| ==> JsonOf(args).fields[i].key != CLI_KEYS[k]
  {
    JsonFieldsDiffer(args);
    var f, key := JsonOf(args).fields, CLI_KEYS[k];
    assert f[0].key[0] == 'p' && f[1].key[0] == 'i' && f[3].key[0] == 'm';
    assert |key| == 5 ==> key[0] == 'i';
    assert |key| == 12 ==> key[0] == 'c';
    assert |key| == 11 ==> key[0] == 'c';
    assert |key| in {3, 12, 11, 5, 4, 7};
  }

  lemma {:induction false} NothingFound<T>(v: Value, keys: seq<string>, read: Value -> Option<T>)
    requires forall k :: 0 <= k < |keys| ==> Get(v, keys[k]) == None
    ensures FirstOf(v, keys, read) == None
  {
    if keys != [] {
      assert Get(v, keys[0]) == None;
      forall k | 0 <= k < |keys[1..]| ensures Get(v, keys[1..][k]) == None {
        assert keys[1..][k] == keys[k + 1];
      }
      NothingFound(v, keys[1..], read);
    }
  }

  lemma FieldOfLimit(args: Args, k: Limit)
    ensures JsonOf(args).fields[FieldOf(k)] == Field(LimitKeys(k)[0], Number(args.limits.Get(k)))
  {
  }

  lemma LimitReadsBack(args: Args, k: Limit, policy: Limits)
    requires args.limits.InRange()
    ensures JsonLimit(JsonOf(args), k, policy) == args.limits.Get(k)
  {
    var f := JsonOf(args).fields;
    JsonFieldsDiffer(args);
    LookupAt(f, FieldOf(k));
    FieldOfLimit(args, k);
    assert Least(k) <= args.limits.Get(k) <= Most(k);
  }

  function FieldOf(k: Limit): nat {
    match k
    case TextChars => 2
    case Visuals => 3
    case Side => 4
    case Files => 5
    case PdfPages => 6
    case DocumentBytes => 7
    case AudioBytes => 8
  }

  // Arguments spelled out as an object read back as they are if and only if
  // every path is clean: not empty and without surrounding blanks.
  lemma JsonRoundTrip(args: Args, policy: Limits)
    requires args.paths != [] && args.limits.InRange()
    ensures ArgsOfValue(JsonOf(args), policy) == Ok(args) <==> forall i :: 0 <= i < |args.paths| ==> CleanPath(args.paths[i])
  {
    NoCommandLine(args);
    TextsOfPaths(args.paths);
    JsonLimitsReadBack(args, policy);
    PathsReadBack(args);
    SwitchReadsBack(args);
  }

  lemma PathsReadBack(args: Args)
    ensures FirstOf(JsonOf(args), PATH_KEYS, (x: Value) => Some(x)) == Some(Arr(PathItems(args.paths)))
  {
    JsonFieldsDiffer(args);
    LookupAt(JsonOf(args).fields, 0);
  }

  lemma SwitchReadsBack(args: Args)
    ensures FirstOf(JsonOf(args), TEXT_KEYS, ReadBool) == Some(args.includeText)
  {
    JsonFieldsDiffer(args);
    LookupAt(JsonOf(args).fields, 1);
  }

  lemma JsonLimitsReadBack(args: Args, policy: Limits)
    requires args.limits.InRange()
    ensures JsonLimits(JsonOf(args), policy) == args.limits
  {
    LimitReadsBack(args, TextChars, policy);
    LimitReadsBack(args, Visuals, policy);
    LimitReadsBack(args, Side, policy);
    LimitReadsBack(args, Files, policy);
    LimitReadsBack(args, PdfPages, policy);
    LimitReadsBack(args, DocumentBytes, policy);
    LimitReadsBack(args, AudioBytes, policy);
  }

  // A written word starts and ends visibly, with a quote or with what it means.
  lemma {:induction false} WordEnds(segments: seq<Segment>)
    requires segments != [] && forall i :: 0 <= i < |segments| ==> WellQuoted(segments[i])
    ensures Trimmed(WrittenWord(segments)) && WrittenWord(segments) != ""
    ensures IsQuote(WrittenWord(segments)[0]) || (MeantWord(segments) != "" && WrittenWord(segments)[0] == MeantWord(segments)[0])
    decreases |segments|
  {
    var s, tail := segments[0], segments[1..];
    assert WellQuoted(s);
    assert Written(s) != "" && Trimmed(Written(s)) && (IsQuote(Written(s)[0]) || Written(s) == Meant(s));
    if tail != [] {
      WordEnds(tail);
    }
  }

  lemma {:induction false} LineEnds(line: seq<seq<Segment>>)
    requires line != [] && forall i :: 0 <= i < |line| ==> WritableWord(line[i])
    ensures Trimmed(WrittenLine(line)) && WrittenLine(line) != ""
    ensures IsQuote(WrittenLine(line)[0]) || (MeantWord(line[0]) != "" && WrittenLine(line)[0] == MeantWord(line[0])[0])
    decreases |line|
  {
    assert WritableWord(line[0]);
    WordEnds(line[0]);
    if |line| > 1 {
      LineEnds(line[1..]);
    }
  }

  // The printed line survives the outer entry point too: it is not taken for
  // JSON, and trimming leaves it alone.
  lemma TextRoundTrip(args: Args, line: seq<seq<Segment>>, json: string -> Option<Value>, policy: Limits)
    requires Printable(args) && args.limits.InRange()
    requires forall i :: 0 <= i < |line| ==> WritableWord(line[i])
    requires Meanings(line) == Print(args)
    ensures ArgsOfText(WrittenLine(line), json, policy) == Ok(args)
  {
    RoundTrip(args, line, policy);
    LineEnds(line);
    TrimProperty(WrittenLine(line));
    FirstPrintedWord(args);
    NotJson(WrittenLine(line));
  }

  lemma FirstPrintedWord(args: Args)
    requires Printable(args)
    ensures Print(args) != [] && Print(args)[0] == "--path"
  {
  }

  lemma NotJson(line: string)
    requires line != "" && (IsQuote(line[0]) || line[0] == '-')
    ensures !StartsWith(line, "{") && !StartsWith(line, "[")
  {
  }
}
