// What a read_media command line says, piece by piece: in whatever order and
// spelling the options are given, and which lines are refused.
module ReadMediaLines {
  import opened Wrappers
  import opened Text
  import opened Json
  import opened Sequences
  import opened CliWords
  import opened ReadMediaArgs

  // The spellings of an option.
  function Spellings(flag: Flag): seq<string> {
    match flag
    case Path => ["--path", "--paths", "-p"]
    case IncludeText => ["--include-text", "--include_text"]
    case NoText => ["--no-text", "--no-include-text", "--no_include_text"]
    case Bound(TextChars) => ["--max-text-chars", "--max_text_chars"]
    case Bound(Visuals) => ["--max-visuals", "--max_visuals"]
    case Bound(Side) => ["--max-side", "--max_side"]
    case Bound(Files) => ["--max-files", "--max_files", "--max-directory-files", "--max_directory_files"]
    case Bound(PdfPages) => ["--pdf-pages", "--pdf_pages", "--pdf-max-pages", "--pdf_max_pages"]
    case Bound(DocumentBytes) => ["--document-attachment-bytes", "--document_attachment_bytes"]
    case Bound(AudioBytes) => ["--audio-preview-bytes", "--audio_preview_bytes"]
    case _ => []
  }

  predicate TakesValue(flag: Flag) { flag.Path? || flag.Bound? }

  predicate NoEqualsSign(word: string) { forall k :: 0 <= k < |word| ==> word[k] != '=' }

  lemma PlainSpellings(flag: Flag, i: nat)
    requires i < |Spellings(flag)| && !flag.Bound?
    ensures var word := Spellings(flag)[i]; FlagOf(word) == flag && NoEqualsSign(word) && StartsWith(word, "-")
  {
  }

  lemma ShortLimitsArePlain(flag: Flag, i: nat)
    requires i < |Spellings(flag)| && flag in [Bound(TextChars), Bound(Visuals), Bound(Side), Bound(PdfPages)]
    ensures NoEqualsSign(Spellings(flag)[i]) && StartsWith(Spellings(flag)[i], "-")
  {
  }

  lemma DocumentBytesArePlain(i: nat)
    requires i < |Spellings(Bound(DocumentBytes))|
    ensures NoEqualsSign(Spellings(Bound(DocumentBytes))[i]) && StartsWith(Spellings(Bound(DocumentBytes))[i], "-")
  {
  }

  lemma AudioBytesArePlain(i: nat)
    requires i < |Spellings(Bound(AudioBytes))|
    ensures NoEqualsSign(Spellings(Bound(AudioBytes))[i]) && StartsWith(Spellings(Bound(AudioBytes))[i], "-")
  {
  }

  lemma FilesArePlain(i: nat)
    requires i < |Spellings(Bound(Files))|
    ensures NoEqualsSign(Spellings(Bound(Files))[i]) && StartsWith(Spellings(Bound(Files))[i], "-")
  {
  }

  // Length and third letter tell the limits apart.
  predicate Marked(k: Limit, length: nat, letter: char) {
    match k
    case TextChars => length == 16
    case Visuals => length == 13
    case Side => length == 10
    case Files => (length == 11 || length == 21) && letter == 'm'
    case PdfPages => (length == 11 || length == 15) && letter == 'p'
    case DocumentBytes => length == 27
    case AudioBytes => length == 21 && letter == 'a'
  }

  lemma NamesAreMarked(k: Limit, word: string)
    requires Names(k, word)
    ensures |word| > 2 && Marked(k, |word|, word[2])
  {
  }

  lemma SpellingsAreNames(k: Limit, word: string)
    ensures Names(k, word) <==> word in Spellings(Bound(k))
  {
  }

  lemma NamedIsOption(k: Limit, word: string)
    requires Names(k, word)
    ensures FlagOf(word) != Word && FlagOf(word) != Unknown
  {
  }

  lemma PlainLengths(flag: Flag, word: string)
    requires !flag.Bound? && word in Spellings(flag)
    ensures |word| in {2, 6, 7, 9, 14, 17}
  {
  }

  lemma LimitSpellings(k: Limit, word: string)
    requires Names(k, word)
    ensures FlagOf(word) == Bound(k)
  {
    NamedIsOption(k, word);
    ReadIsSpelling(word);
    NamesAreMarked(k, word);
    if FlagOf(word).Bound? {
      SpellingsAreNames(FlagOf(word).limit, word);
      NamesAreMarked(FlagOf(word).limit, word);
    } else {
      PlainLengths(FlagOf(word), word);
    }
  }

  // An option is known by its spellings and by nothing else.
  lemma SpellingIsRead(flag: Flag, word: string)
    requires word in Spellings(flag)
    ensures FlagOf(word) == flag && NoEqualsSign(word) && StartsWith(word, "-")
  {
    var i :| 0 <= i < |Spellings(flag)| && Spellings(flag)[i] == word;
    if !flag.Bound? {
      PlainSpellings(flag, i);
    } else {
      SpellingsAreNames(flag.limit, word);
      LimitSpellings(flag.limit, word);
      if flag.limit == Files {
        FilesArePlain(i);
      } else if flag.limit == DocumentBytes {
        DocumentBytesArePlain(i);
      } else if flag.limit == AudioBytes {
        AudioBytesArePlain(i);
      } else {
        ShortLimitsArePlain(flag, i);
      }
    }
  }

  lemma ReadIsSpelling(word: string)
    ensures FlagOf(word) != Word && FlagOf(word) != Unknown ==> word in Spellings(FlagOf(word))
  {
  }

  // ------------------------------------------------------------------ pieces

  // A path as it stands, a switch (any value after an equals sign is ignored),
  // or an option with its value after an equals sign or in the next word.
  datatype Piece =
    | Plain(word: string)
    | Switch(flag: Flag, spelling: string, ignored: Option<string>)
    | Given(flag: Flag, spelling: string, value: string, joined: bool)

  predicate Spelled(p: Piece) {
    match p
    case Plain(word) => !StartsWith(word, "-")
    case Switch(flag, spelling, _) => (flag == IncludeText || flag == NoText) && spelling in Spellings(flag)
    case Given(flag, spelling, _, _) => TakesValue(flag) && spelling in Spellings(flag)
  }

  predicate AllSpelled(pieces: seq<Piece>) { forall i :: 0 <= i < |pieces| ==> Spelled(pieces[i]) }

  function Assignment(name: string, value: string): string { name + ("=" + value) }

  function PieceWords(p: Piece): seq<string> {
    match p
    case Plain(word) => [word]
    case Switch(_, spelling, None) => [spelling]
    case Switch(_, spelling, Some(text)) => [Assignment(spelling, text)]
    case Given(_, spelling, value, true) => [Assignment(spelling, value)]
    case Given(_, spelling, value, false) => [spelling, value]
  }

  function AllWords(pieces: seq<Piece>): seq<string> {
    if pieces == [] then [] else AllWords(pieces[..|pieces| - 1]) + PieceWords(pieces[|pieces| - 1])
  }

  // The paths given, in order.
  function PathsOf(pieces: seq<Piece>): seq<string> {
    if pieces == [] then []
    else
      PathsOf(pieces[..|pieces| - 1]) +
      match pieces[|pieces| - 1]
      case Plain(word) => [word]
      case Given(Path, _, value, _) => [value]
      case _ => []
  }

  // What the last switch says; text is included when there is none.
  function WantsText(pieces: seq<Piece>): bool {
    if pieces == [] then true
    else
      match pieces[|pieces| - 1]
      case Switch(flag, _, _) => flag == IncludeText
      case _ => WantsText(pieces[..|pieces| - 1])
  }

  // The last value given for a limit.
  function LastValue(pieces: seq<Piece>, k: Limit): Option<string> {
    if pieces == [] then None
    else
      match pieces[|pieces| - 1]
      case Given(Bound(j), _, value, _) => if j == k then Some(value) else LastValue(pieces[..|pieces| - 1], k)
      case _ => LastValue(pieces[..|pieces| - 1], k)
  }

  // The number in a limit's range nearest to a number.
  predicate Nearest(k: Limit, n: nat, r: nat) {
    && Least(k) <= r <= Most(k)
    && (Least(k) <= n <= Most(k) ==> r == n)
    && (n < Least(k) ==> r == Least(k))
    && (n > Most(k) ==> r == Most(k))
  }

  // The numbers that very small and very large values become.
  lemma RangesSay(large: nat)
    requires large >= 5_000_000
    ensures Nearest(TextChars, 0, 1_000) && Nearest(TextChars, large, 80_000)
    ensures Nearest(Visuals, 0, 0) && Nearest(Visuals, large, 60)
    ensures Nearest(Side, 0, 128) && Nearest(Side, large, 1024)
    ensures Nearest(Files, 0, 1) && Nearest(Files, large, 100)
    ensures Nearest(PdfPages, 0, 1) && Nearest(PdfPages, large, 50)
    ensures Nearest(DocumentBytes, 0, 100_000) && Nearest(DocumentBytes, large, 5_000_000)
    ensures Nearest(AudioBytes, 0, 100_000) && Nearest(AudioBytes, large, 5_000_000)
  {
  }

  // A limit is the default unless a value is given for it; a value that is not
  // a number of the flag's type counts as the default, and the outcome is
  // moved into the limit's range.
  predicate LimitIs(k: Limit, value: Option<string>, otherwise: nat, r: nat) {
    match value
    case None => r == otherwise
    case Some(text) =>
      match ParseUnsigned(text, if k == Side then MAX_U32 else MAX_U64)
      case Some(n) => Nearest(k, n, r)
      case None => Nearest(k, otherwise, r)
  }

  ghost predicate Says(pieces: seq<Piece>, policy: Limits, args: Args) {
    && args.paths == PathsOf(pieces)
    && args.includeText == WantsText(pieces)
    && forall k: Limit :: LimitIs(k, LastValue(pieces, k), policy.Get(k), args.limits.Get(k))
  }

  lemma SplitAt(key: string, tail: string)
    requires NoEqualsSign(key) && StartsWith(key, "-") && (tail == "" || tail[0] == '=')
    ensures SplitAssignment(key + tail) == (key, if tail == "" then None else Some(tail[1..]))
  {
    var word := key + tail;
    FindAt(word, '=', |key|);
    assert word[..|key|] == key;
    if tail == "" {
      assert word == key;
    } else {
      assert word[|key| + 1..] == tail[1..];
    }
  }

  // A plain word has no value of its own and is a path.
  lemma PlainWord(word: string)
    requires !StartsWith(word, "-")
    ensures SplitAssignment(word) == (word, None) && FlagOf(word) == Word
  {
    ReadIsSpelling(word);
    if FlagOf(word) != Word && FlagOf(word) != Unknown {
      SpellingIsRead(FlagOf(word), word);
    }
  }

  // What one piece does to the arguments read so far.
  function After(p: Piece, args: Args, policy: Limits): Args {
    match p
    case Plain(word) => args.(paths := args.paths + [word])
    case Switch(flag, _, _) => args.(includeText := flag == IncludeText)
    case Given(Path, _, value, _) => args.(paths := args.paths + [value])
    case Given(Bound(k), _, value, _) => args.(limits := args.limits.With(k, LimitOf(k, value, policy)))
    case _ => args
  }

  lemma PieceIsRead(p: Piece, args: Args, policy: Limits)
    requires Spelled(p)
    ensures Reads(PieceWords(p), args, After(p, args, policy), policy)
  {
    forall rest: seq<string>
      ensures Parse(PieceWords(p) + rest, args, policy) == Parse(rest, After(p, args, policy), policy)
    {
      PieceThenRest(p, rest, args, policy);
    }
  }

  lemma PieceThenRest(p: Piece, rest: seq<string>, args: Args, policy: Limits)
    requires Spelled(p)
    ensures Parse(PieceWords(p) + rest, args, policy) == Parse(rest, After(p, args, policy), policy)
  {
    var words := PieceWords(p) + rest;
    assert words[|PieceWords(p)|..] == rest;
    match p
    case Plain(word) => PlainWord(word);
    case Switch(flag, spelling, ignored) =>
      SpellingIsRead(flag, spelling);
      SplitAt(spelling, if ignored.Some? then "=" + ignored.value else "");
      assert spelling + "" == spelling;
    case Given(flag, spelling, value, joined) =>
      SpellingIsRead(flag, spelling);
      SplitAt(spelling, if joined then "=" + value else "");
      assert spelling + "" == spelling;
  }

  lemma WithAndGet(limits: Limits, j: Limit, k: Limit, n: nat)
    ensures limits.With(j, n).Get(k) == if j == k then n else limits.Get(k)
  {
  }

  lemma AfterSaysLimit(pieces: seq<Piece>, k: Limit, args: Args, policy: Limits)
    requires pieces != []
    requires LimitIs(k, LastValue(pieces[..|pieces| - 1], k), policy.Get(k), args.limits.Get(k))
    ensures LimitIs(k, LastValue(pieces, k), policy.Get(k), After(pieces[|pieces| - 1], args, policy).limits.Get(k))
  {
    match pieces[|pieces| - 1]
    case Given(Bound(j), _, value, _) =>
      WithAndGet(args.limits, j, k, LimitOf(j, value, policy));
      if j == k {
        ValueSays(k, value, policy);
      }
    case _ =>
  }

  lemma ValueSays(k: Limit, value: string, policy: Limits)
    ensures LimitIs(k, Some(value), policy.Get(k), LimitOf(k, value, policy))
  {
  }

  lemma AfterSays(pieces: seq<Piece>, args: Args, policy: Limits)
    requires pieces != []
    requires Says(pieces[..|pieces| - 1], policy, args)
    ensures Says(pieces, policy, After(pieces[|pieces| - 1], args, policy))
  {
    var to := After(pieces[|pieces| - 1], args, policy);
    forall k: Limit ensures LimitIs(k, LastValue(pieces, k), policy.Get(k), to.limits.Get(k)) {
      AfterSaysLimit(pieces, k, args, policy);
    }
  }

  lemma {:induction false} PiecesAreRead(pieces: seq<Piece>, policy: Limits) returns (args: Args)
    requires AllSpelled(pieces)
    ensures Reads(AllWords(pieces), Defaults(policy), args, policy) && Says(pieces, policy, args)
    decreases |pieces|
  {
    if pieces == [] {
      args := Defaults(policy);
      ReadsNothing(args, policy);
    } else {
      var front, last := pieces[..|pieces| - 1], pieces[|pieces| - 1];
      var before := PiecesAreRead(front, policy);
      args := After(last, before, policy);
      PieceIsRead(last, before, policy);
      ReadsJoin(AllWords(front), PieceWords(last), Defaults(policy), before, args, policy);
      AfterSays(pieces, before, policy);
    }
  }

  // ----------------------------------------------------------- what is said

  // Words in any order and any spelling are read as what they say: the paths
  // in order, the last switch, and the last value of each limit.
  lemma WordsAreRead(pieces: seq<Piece>, policy: Limits)
    requires AllSpelled(pieces)
    ensures var r := Parse(AllWords(pieces), Defaults(policy), policy); r.Ok? && Says(pieces, policy, r.value)
  {
    var args := PiecesAreRead(pieces, policy);
    assert AllWords(pieces) + [] == AllWords(pieces);
  }

  // A word that begins with a dash but whose part before any equals sign is no
  // spelling of an option.
  ghost predicate UnknownOption(key: string, tail: string) {
    && NoEqualsSign(key) && StartsWith(key, "-") && (tail == "" || tail[0] == '=')
    && forall flag: Flag :: key !in Spellings(flag)
  }

  // Such a word is refused, whatever stands before and after it.
  lemma UnknownIsRefused(pieces: seq<Piece>, key: string, tail: string, rest: seq<string>, policy: Limits)
    requires AllSpelled(pieces) && UnknownOption(key, tail)
    ensures Parse(AllWords(pieces) + ([key + tail] + rest), Defaults(policy), policy) == Err(Unsupported(key))
  {
    var args := PiecesAreRead(pieces, policy);
    UnknownStops(key, tail, rest, args, policy);
  }

  lemma NoSpellingIsUnknown(key: string)
    requires StartsWith(key, "-") && forall flag: Flag :: key !in Spellings(flag)
    ensures FlagOf(key) == Unknown
  {
    ReadIsSpelling(key);
  }

  lemma UnknownStops(key: string, tail: string, rest: seq<string>, args: Args, policy: Limits)
    requires UnknownOption(key, tail)
    ensures Parse([key + tail] + rest, args, policy) == Err(Unsupported(key))
  {
    NoSpellingIsUnknown(key);
    SplitAt(key, tail);
    FirstStops([key + tail] + rest, Unsupported(key), args, policy);
  }

  lemma FirstStops(words: seq<string>, e: ArgError, args: Args, policy: Limits)
    requires words != [] && ParseFirst(words, args, policy) == Err(e)
    ensures Parse(words, args, policy) == Err(e)
  {
  }

  // An option that takes a value is refused when nothing follows it.
  lemma MissingValueIsRefused(pieces: seq<Piece>, flag: Flag, spelling: string, policy: Limits)
    requires AllSpelled(pieces) && TakesValue(flag) && spelling in Spellings(flag)
    ensures Parse(AllWords(pieces) + [spelling], Defaults(policy), policy) == Err(RequiresValue(spelling))
  {
    var args := PiecesAreRead(pieces, policy);
    ValueIsMissing(flag, spelling, args, policy);
  }

  lemma ValueIsMissing(flag: Flag, spelling: string, args: Args, policy: Limits)
    requires TakesValue(flag) && spelling in Spellings(flag)
    ensures Parse([spelling], args, policy) == Err(RequiresValue(spelling))
  {
    SpellingIsRead(flag, spelling);
    SplitAt(spelling, "");
    assert spelling + "" == spelling;
    FirstStops([spelling], RequiresValue(spelling), args, policy);
  }

  ghost predicate IsUnknown(word: string) { exists key, tail :: UnknownOption(key, tail) && word == key + tail }

  ghost predicate WantsValue(word: string) { exists flag: Flag :: TakesValue(flag) && word in Spellings(flag) }

  // What stops the reading of words: an unknown option, or an option at the
  // end whose value is missing.
  ghost predicate Stops(rest: seq<string>) {
    rest != [] && (IsUnknown(rest[0]) || (|rest| == 1 && WantsValue(rest[0])))
  }

  lemma KeyAndTail(word: string) returns (key: string, tail: string)
    ensures word == key + tail && NoEqualsSign(key) && (tail == "" || tail[0] == '=')
    ensures StartsWith(word, "-") ==> StartsWith(key, "-")
  {
    var i := Find(word, '=');
    key, tail := word[..i], word[i..];
    FindProperty(word, '=');
    if StartsWith(word, "-") {
      assert word[0] == '-' && i > 0 && key[0] == '-';
    }
  }

  lemma FirstPiece(words: seq<string>) returns (p: Piece)
    requires words != [] && !Stops(words)
    ensures Spelled(p) && |PieceWords(p)| <= |words| && PieceWords(p) == words[..|PieceWords(p)|]
  {
    if !StartsWith(words[0], "-") {
      return Plain(words[0]);
    }
    var flag, key, tail := KnownOption(words[0]);
    if TakesValue(flag) && tail == "" {
      assert words[0] == key;
      assert WantsValue(words[0]);
    }
    p := PieceOf(flag, key, tail, words);
  }

  lemma KnownOption(word: string) returns (flag: Flag, key: string, tail: string)
    requires StartsWith(word, "-") && !IsUnknown(word)
    ensures key in Spellings(flag) && word == key + tail && (tail == "" || tail[0] == '=')
  {
    key, tail := KeyAndTail(word);
    assert !UnknownOption(key, tail);
    flag :| key in Spellings(flag);
  }

  // The piece that begins with a known option.
  lemma PieceOf(flag: Flag, key: string, tail: string, words: seq<string>) returns (p: Piece)
    requires words != [] && words[0] == key + tail && (tail == "" || tail[0] == '=')
    requires key in Spellings(flag)
    requires TakesValue(flag) && tail == "" ==> |words| > 1
    ensures Spelled(p) && |PieceWords(p)| <= |words| && PieceWords(p) == words[..|PieceWords(p)|]
  {
    var value := if tail == "" then "" else tail[1..];
    assert tail != "" ==> tail == "=" + value;
    assert tail == "" ==> key + tail == key;
    p := if flag == IncludeText || flag == NoText then Switch(flag, key, if tail == "" then None else Some(value))
         else if tail == "" then Given(flag, key, words[1], false)
         else Given(flag, key, value, true);
  }

  lemma AllWordsSnoc(pieces: seq<Piece>, p: Piece)
    ensures AllWords(pieces + [p]) == AllWords(pieces) + PieceWords(p)
  {
    assert (pieces + [p])[..|pieces|] == pieces && (pieces + [p])[|pieces|] == p;
  }

  lemma {:induction false} AllWordsFirst(p: Piece, pieces: seq<Piece>)
    ensures AllWords([p] + pieces) == PieceWords(p) + AllWords(pieces)
    decreases |pieces|
  {
    if pieces == [] {
      AllWordsSnoc([], p);
      NothingAround([p], PieceWords(p));
    } else {
      var front, last := pieces[..|pieces| - 1], pieces[|pieces| - 1];
      AllWordsFirst(p, front);
      AllWordsSnoc([p] + front, last);
      AllWordsSnoc(front, last);
      Associate([p], front, [last]);
      Associate(PieceWords(p), AllWords(front), PieceWords(last));
      assert front + [last] == pieces;
    }
  }

  lemma NothingAround<S, T>(s: seq<S>, t: seq<T>)
    ensures s + [] == s && [] + s == s && t + [] == t && [] + t == t
  {
  }

  lemma AllSpelledFirst(p: Piece, pieces: seq<Piece>)
    requires Spelled(p) && AllSpelled(pieces)
    ensures AllSpelled([p] + pieces)
  {
  }

  lemma JoinFirst<T>(words: seq<T>, n: nat, more: seq<T>, rest: seq<T>)
    requires n <= |words| && words[n..] == more + rest
    ensures words == (words[..n] + more) + rest
  {
    assert words == words[..n] + words[n..];
  }

  // Every line of words is pieces up to its end or up to what stops it; so the
  // lines accepted are exactly those made of pieces.
  lemma {:induction false} EveryLine(words: seq<string>) returns (pieces: seq<Piece>, rest: seq<string>)
    ensures AllSpelled(pieces) && words == AllWords(pieces) + rest && (rest == [] || Stops(rest))
    decreases |words|
  {
    if words == [] || Stops(words) {
      pieces, rest := [], words;
    } else {
      var p := FirstPiece(words);
      var more;
      var n := |PieceWords(p)|;
      more, rest := EveryLine(words[n..]);
      pieces := [p] + more;
      AllWordsFirst(p, more);
      AllSpelledFirst(p, more);
      JoinFirst(words, n, AllWords(more), rest);
    }
  }

  lemma AcceptedExactly(words: seq<string>, policy: Limits)
    ensures Parse(words, Defaults(policy), policy).Ok? <==>
            exists pieces :: AllSpelled(pieces) && AllWords(pieces) == words
  {
    var pieces, rest := EveryLine(words);
    if rest == [] {
      WordsAreRead(pieces, policy);
      assert AllWords(pieces) == words;
    } else {
      StopsTheLine(pieces, rest, policy);
      forall others | AllSpelled(others) && AllWords(others) == words ensures false {
        WordsAreRead(others, policy);
      }
    }
  }

  lemma StopsTheLine(pieces: seq<Piece>, rest: seq<string>, policy: Limits)
    requires AllSpelled(pieces) && Stops(rest)
    ensures Parse(AllWords(pieces) + rest, Defaults(policy), policy).Err?
  {
    if IsUnknown(rest[0]) {
      var key, tail :| UnknownOption(key, tail) && rest[0] == key + tail;
      assert rest == [key + tail] + rest[1..];
      UnknownIsRefused(pieces, key, tail, rest[1..], policy);
    } else {
      var flag: Flag :| TakesValue(flag) && rest[0] in Spellings(flag);
      assert rest == [rest[0]];
      MissingValueIsRefused(pieces, flag, rest[0], policy);
    }
  }

  predicate IsName(word: string) { Lower(word) in ["read_media", "read-media", "readmedia"] }

  // A whole line, its words quoted in any way, with the command's name before
  // them or not: it says what its pieces say, and needs a path.
  lemma LineIsRead(line: seq<seq<Segment>>, name: seq<string>, pieces: seq<Piece>, policy: Limits)
    requires AllSpelled(pieces)
    requires forall i :: 0 <= i < |line| ==> WritableWord(line[i])
    requires Meanings(line) == name + AllWords(pieces)
    requires if name == [] then AllWords(pieces) == [] || !IsName(AllWords(pieces)[0]) else |name| == 1 && IsName(name[0])
    ensures var r := ArgsOfLine(WrittenLine(line), policy);
      if PathsOf(pieces) == [] then r == Err(NoPath) else r.Ok? && Says(pieces, policy, r.value)
  {
    ReadLine(line);
    NameIsDropped(name, AllWords(pieces));
    WordsAreRead(pieces, policy);
  }

  lemma NameIsDropped(name: seq<string>, words: seq<string>)
    requires if name == [] then words == [] || !IsName(words[0]) else |name| == 1 && IsName(name[0])
    ensures WithoutCommandName(name + words) == words
  {
    assert name == [] ==> name + words == words;
    assert name != [] ==> (name + words)[0] == name[0] && (name + words)[1..] == words;
  }
}
