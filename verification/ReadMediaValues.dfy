// What a JSON value and a policy file say to read_media, told by their fields
// and lines.
module ReadMediaValues {
  import opened Wrappers
  import opened Text
  import opened Json
  import opened Sequences
  import opened ReadMediaArgs
  import opened ReadMediaLines

  // ------------------------------------------------------------------ fields

  // The field gives something that can be read.
  ghost predicate GivenBy<T>(v: Value, key: string, read: Value -> Option<T>, r: T) {
    exists field :: Get(v, key) == Some(field) && read(field) == Some(r)
  }

  ghost predicate NotGiven<T(!new)>(v: Value, keys: seq<string>, n: nat, read: Value -> Option<T>)
    requires n <= |keys|
  {
    forall i, r :: 0 <= i < n ==> !GivenBy(v, keys[i], read, r)
  }

  // What the first of the keys gives that gives anything.
  ghost predicate FirstGiven<T(!new)>(v: Value, keys: seq<string>, read: Value -> Option<T>, r: Option<T>) {
    match r
    case Some(x) => exists i :: 0 <= i < |keys| && GivenBy(v, keys[i], read, x) && NotGiven(v, keys, i, read)
    case None => NotGiven(v, keys, |keys|, read)
  }

  lemma {:induction false} FirstOfIsFirst<T(!new)>(v: Value, keys: seq<string>, read: Value -> Option<T>)
    ensures FirstGiven(v, keys, read, FirstOf(v, keys, read))
  {
    if keys != [] {
      var rest := keys[1..];
      FirstOfIsFirst(v, rest, read);
      var field := Get(v, keys[0]);
      if field.Some? && read(field.value).Some? {
        assert GivenBy(v, keys[0], read, read(field.value).value);
      } else {
        assert forall r :: !GivenBy(v, keys[0], read, r);
        match FirstOf(v, rest, read)
        case Some(x) =>
          var i :| 0 <= i < |rest| && GivenBy(v, rest[i], read, x) && NotGiven(v, rest, i, read);
          LaterKey(v, keys, i, read);
          assert GivenBy(v, keys[i + 1], read, x);
        case None => LaterKey(v, keys, |rest|, read);
      }
    }
  }

  lemma LaterKey<T(!new)>(v: Value, keys: seq<string>, n: nat, read: Value -> Option<T>)
    requires keys != [] && n < |keys| && NotGiven(v, keys[1..], n, read)
    requires forall r :: !GivenBy(v, keys[0], read, r)
    ensures NotGiven(v, keys, n + 1, read)
  {
    forall i, r | 0 <= i < n + 1 ensures !GivenBy(v, keys[i], read, r) {
      if i > 0 {
        assert keys[1..][i - 1] == keys[i];
        assert !GivenBy(v, keys[1..][i - 1], read, r);
      }
    }
  }

  // ------------------------------------------------------------------ what a field says

  // A truth value, or one of five words for each, in any case and with blanks
  // around it.
  lemma TruthSays(v: Value)
    ensures v.Bool? ==> ReadBool(v) == Some(v.flag)
    ensures v.Str? ==>
      var word := Lower(Trim(v.text));
      ReadBool(v) == if word in ["true", "yes", "y", "1", "on"] then Some(true)
                     else if word in ["false", "no", "n", "0", "off"] then Some(false) else None
    ensures !v.Bool? && !v.Str? ==> ReadBool(v) == None
  {
  }

  // A number in range, or a text that is one.
  lemma NumberSays(v: Value, n: nat)
    ensures ReadUnsigned(v) == Some(n) <==>
            n <= MAX_U64 && (v == Json.Number(n) || (v.Str? && ParseUnsigned(v.text, MAX_U64) == Some(n)))
  {
  }

  // A text that is not blank adds itself, without the blanks around it;
  // nothing else in an array adds anything.
  lemma {:induction false} PathSays(items: seq<Value>, item: Value)
    ensures Texts(items + [item]) ==
            Texts(items) + if item.Str? && !AllBlank(item.text) then [Trim(item.text)] else []
  {
    if items == [] {
      assert [] + [item] == [item];
      if item.Str? { TrimIsEmpty(item.text); }
    } else {
      PathSays(items[1..], item);
      assert (items + [item])[1..] == items[1..] + [item];
    }
  }

  // The paths of a value: of an array its texts, of a text itself.
  lemma PathsSay(v: Value)
    ensures v.Arr? ==> StringList(Some(v)) == Texts(v.items)
    ensures v.Str? ==> StringList(Some(v)) == if AllBlank(v.text) then [] else [Trim(v.text)]
    ensures !v.Arr? && !v.Str? ==> StringList(Some(v)) == []
    ensures StringList(None) == []
  {
    if v.Str? { TrimIsEmpty(v.text); }
  }

  // ------------------------------------------------------------------ what an object says

  const LINE_NAMES: seq<string> := ["cli", "command_line", "commandLine", "input", "args", "payload"]

  const PATH_NAMES: seq<string> := ["paths", "path", "files", "file", "media", "media_paths"]

  const TEXT_NAMES: seq<string> := ["include_text", "includeText", "text"]

  function LimitNames(k: Limit): seq<string> {
    match k
    case TextChars => ["max_text_chars", "maxTextChars"]
    case Visuals => ["max_visuals", "maxVisuals", "visuals"]
    case Side => ["max_side", "maxSide"]
    case Files => ["max_files", "maxFiles", "max_directory_files", "maxDirectoryFiles"]
    case PdfPages => ["pdf_max_pages", "pdfMaxPages", "pdf_pages", "pdfPages"]
    case DocumentBytes =>
      ["document_attachment_bytes", "documentAttachmentBytes", "max_document_attachment_bytes",
       "maxDocumentAttachmentBytes"]
    case AudioBytes =>
      ["audio_preview_bytes", "audioPreviewBytes", "max_audio_preview_bytes", "maxAudioPreviewBytes"]
  }

  ghost predicate LineIn(v: Value, line: Option<string>) {
    FirstGiven(v, LINE_NAMES, (x: Value) => AsStr(Some(x)), line)
  }

  ghost predicate LimitSays(v: Value, k: Limit, otherwise: nat, r: nat) {
    exists n: Option<nat> ::
      FirstGiven(v, LimitNames(k), ReadUnsigned, n) && if n.Some? then Nearest(k, n.value, r) else r == otherwise
  }

  // The arguments an object without a command line states.
  ghost predicate ObjectSays(v: Value, policy: Limits, paths: seq<string>, includeText: bool, limits: Limits) {
    && (exists list :: FirstGiven(v, PATH_NAMES, (x: Value) => Some(x), list) && paths == StringList(list))
    && (exists said: Option<bool> :: FirstGiven(v, TEXT_NAMES, ReadBool, said) && includeText == (said != Some(false)))
    && forall k: Limit :: LimitSays(v, k, policy.Get(k), limits.Get(k))
  }

  lemma LimitIsSaid(v: Value, k: Limit, policy: Limits)
    ensures LimitSays(v, k, policy.Get(k), JsonLimit(v, k, policy))
  {
    NamesAreKeys(k);
    FirstSays(v, k, LimitKeys(k), policy.Get(k));
  }

  lemma NamesAreKeys(k: Limit)
    ensures LimitNames(k) == LimitKeys(k)
  {
  }

  lemma FirstSays(v: Value, k: Limit, keys: seq<string>, otherwise: nat)
    requires keys == LimitNames(k)
    ensures var n := FirstOf(v, keys, ReadUnsigned); LimitSays(v, k, otherwise, if n.Some? then Clamp(k, n.value) else otherwise)
  {
    FirstOfIsFirst(v, keys, ReadUnsigned);
  }

  lemma OneOfLimits(v: Value, k: Limit, policy: Limits)
    ensures JsonLimits(v, policy).Get(k) == JsonLimit(v, k, policy)
  {
  }

  lemma LimitsAreSaid(v: Value, policy: Limits)
    ensures forall k: Limit :: LimitSays(v, k, policy.Get(k), JsonLimits(v, policy).Get(k))
  {
    forall k: Limit ensures LimitSays(v, k, policy.Get(k), JsonLimits(v, policy).Get(k)) {
      LimitIsSaid(v, k, policy);
      OneOfLimits(v, k, policy);
    }
  }

  // A value is read as a command line when it is a text or an object with one
  // that is not blank; an array lists paths; any other value states the
  // arguments by its fields, under any of their names.
  lemma ValueIsRead(v: Value, policy: Limits) returns (line: Option<string>, args: Args)
    ensures v.Str? ==> ArgsOfValue(v, policy) == ArgsOfLine(v.text, policy)
    ensures v.Arr? ==>
      ArgsOfValue(v, policy) == if Texts(v.items) == [] then Err(NoPath) else Ok(Args(Texts(v.items), true, policy))
    ensures !v.Str? && !v.Arr? ==> LineIn(v, line)
    ensures !v.Str? && !v.Arr? && line.Some? && !AllBlank(line.value) ==>
      ArgsOfValue(v, policy) == ArgsOfLine(Trim(line.value), policy)
    ensures !v.Str? && !v.Arr? && (line.None? || AllBlank(line.value)) ==>
      && ObjectSays(v, policy, args.paths, args.includeText, args.limits)
      && ArgsOfValue(v, policy) == if args.paths == [] then Err(NoPath) else Ok(args)
  {
    line := FirstOf(v, CLI_KEYS, (x: Value) => AsStr(Some(x)));
    FirstOfIsFirst(v, LINE_NAMES, (x: Value) => AsStr(Some(x)));
    if line.Some? { TrimIsEmpty(line.value); }
    var list := FirstOf(v, PATH_KEYS, (x: Value) => Some(x));
    FirstOfIsFirst(v, PATH_NAMES, (x: Value) => Some(x));
    var said := FirstOf(v, TEXT_KEYS, ReadBool);
    FirstOfIsFirst(v, TEXT_NAMES, ReadBool);
    args := Args(StringList(list), said != Some(false), JsonLimits(v, policy));
    LimitsAreSaid(v, policy);
  }

  // A text whose first visible character is a brace or a bracket must be JSON;
  // any other is a command line.
  lemma TextIsRead(text: string, json: string -> Option<Value>, policy: Limits)
    ensures var visible := Trim(text);
      ArgsOfText(text, json, policy) ==
        if visible != "" && (visible[0] == '{' || visible[0] == '[') then
          match json(visible) case Some(v) => ArgsOfValue(v, policy) case None => Err(InvalidJson)
        else ArgsOfLine(visible, policy)
  {
    var visible := Trim(text);
    assert StartsWith(visible, "{") <==> visible != "" && visible[0] == '{';
    assert StartsWith(visible, "[") <==> visible != "" && visible[0] == '[';
  }

  // ------------------------------------------------------------------ what a policy file says

  lemma {:induction false} SplitOnceTextAt(before: string, pattern: string, after: string)
    requires pattern != ""
    requires forall k :: 0 <= k < |before| ==> !(pattern <= (before + (pattern + after))[k..])
    ensures SplitOnceText(before + (pattern + after), pattern) == Some((before, after))
    decreases |before|
  {
    var text := before + (pattern + after);
    if before == "" {
      assert text == pattern + after;
    } else {
      assert text[0..] == text && !(pattern <= text);
      assert text[1..] == before[1..] + (pattern + after);
      forall k | 0 <= k < |before[1..]| ensures !(pattern <= text[1..][k..]) {
        assert text[1..][k..] == text[k + 1..];
      }
      SplitOnceTextAt(before[1..], pattern, after);
      assert [before[0]] + before[1..] == before;
    }
  }

  lemma SplitOnceAt(before: string, c: char, after: string)
    requires c !in before
    ensures SplitOnce(before + ([c] + after), c) == Some((before, after))
  {
    var text := before + ([c] + after);
    forall k | 0 <= k < |before| ensures text[k] != c {
      assert before[k] in before;
    }
    FindAt(text, c, |before|);
    assert text[..|before|] == before && text[|before| + 1..] == after;
  }

  // A header is anything in square brackets.
  lemma HeaderSays(line: string)
    ensures IsHeader(line) <==> exists name :: line == "[" + name + "]"
  {
    if IsHeader(line) {
      assert line == "[" + line[1..|line| - 1] + "]";
    }
  }

  // A setting is the default on its first line, and the empty word without one.
  lemma SettingIsTheDefault(policy: string, key: string) returns (r: Option<string>)
    ensures IsFirstDefault(Lines(policy), 0, key, r)
    ensures Setting(policy, key) == if r.Some? then r.value else ""
  {
    var lines := Lines(policy);
    assert lines[0..] == lines;
    DefaultIsOfFirstLine(lines, 0, false, key);
    r := DefaultFrom(lines, false, key);
  }

  // A line that sets a key: the name, blanks around it aside, before the first
  // equals sign; its value is all that follows.
  lemma SettingReads(name: string, value: string, key: string)
    requires '=' !in name && !StartsWith(name + ("=" + value), "#")
    ensures ValueOf(name + ("=" + value), key) == if Trim(name) == key then Some(value) else None
  {
    SplitOnceAt(name, '=', value);
  }

  lemma CommentsSetNothing(line: string, key: string)
    ensures StartsWith(line, "#") || '=' !in line ==> ValueOf(line, key) == None
  {
    FindProperty(line, '=');
  }

  // The default is the text in quotes after the first "default".
  lemma DefaultReads(before: string, gap: string, text: string, after: string)
    requires '"' !in gap && '"' !in text
    requires var value := before + ("default" + (gap + ("\"" + (text + ("\"" + after)))));
      forall k :: 0 <= k < |before| ==> !("default" <= value[k..])
    ensures QuotedDefault(before + ("default" + (gap + ("\"" + (text + ("\"" + after)))))) == Some(text)
  {
    SplitOnceTextAt(before, "default", gap + ("\"" + (text + ("\"" + after))));
    SplitOnceAt(gap, '"', text + ("\"" + after));
    SplitOnceAt(text, '"', after);
  }

  // Each setting has two named choices, and anything else, or no setting at
  // all, means the third.
  lemma PolicySays(policy: string)
    ensures var p := PolicyOf(policy);
      && var compression := Setting(policy, "media_compression");
      && p.textChars == Chosen(compression, "compact", 20_000, "detailed", 80_000, 40_000)
      && p.visuals == Chosen(compression, "compact", 4, "detailed", 10, 6)
      && p.side == Chosen(compression, "compact", 384, "detailed", 768, 512)
      && p.files == Chosen(Setting(policy, "directory_default_files"), "few", 8, "many", 50, 20)
      && p.pdfPages == Chosen(Setting(policy, "pdf_default_pages"), "first", 1, "extended", 10, 5)
      && p.documentBytes == Chosen(Setting(policy, "document_attachment_size"), "small", 500_000, "large", 2_000_000, 1_000_000)
      && p.audioBytes == Chosen(Setting(policy, "audio_preview_size"), "small", 500_000, "large", 2_000_000, 1_000_000)
  {
  }

  function Chosen(word: string, low: string, least: nat, high: string, most: nat, otherwise: nat): nat {
    if word == low then least else if word == high then most else otherwise
  }
}
