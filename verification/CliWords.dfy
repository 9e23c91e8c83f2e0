// Splitting a command line into words, as the read_media and web_discover
// commands do: blanks separate words, quotes of either kind protect them, and
// there is no escape character.
module CliWords {
  import opened Wrappers
  import opened Text

  predicate IsQuote(c: char) { c == '"' || c == '\'' }

  function Pending(current: string): seq<string> { if current == "" then [] else [current] }

  // The words of the rest of a line, when a quote may be open and a word begun.
  function WordsFrom(rest: string, quote: Option<char>, current: string): seq<string> {
    if rest == [] then Pending(current)
    else if quote == Some(rest[0]) then WordsFrom(rest[1..], None, current)
    else if quote.None? && IsQuote(rest[0]) then WordsFrom(rest[1..], Some(rest[0]), current)
    else if quote.None? && IsBlank(rest[0]) then Pending(current) + WordsFrom(rest[1..], None, "")
    else WordsFrom(rest[1..], quote, current + [rest[0]])
  }

  method SplitCliWords(input: string) returns (words: seq<string>)
    ensures words == WordsFrom(input, None, "")
  {
    words := [];
    var current := "";
    var quote: Option<char> := None;
    for i := 0 to |input|
      invariant words + WordsFrom(input[i..], quote, current) == WordsFrom(input, None, "")
    {
      var c := input[i];
      assert input[i..][1..] == input[i + 1..];
      ghost var before := words;
      if quote == Some(c) {
        quote := None;
      } else if quote.None? && IsQuote(c) {
        quote := Some(c);
      } else if quote.None? && IsBlank(c) {
        assert words + (Pending(current) + WordsFrom(input[i + 1..], None, "")) ==
               (words + Pending(current)) + WordsFrom(input[i + 1..], None, "");
        if current != "" {
          words := words + [current];
          current := "";
        }
        assert words == before + (if words == before then [] else [words[|before|]]);
      } else {
        current := current + [c];
      }
    }
    if current != "" {
      words := words + [current];
    }
  }

  // ---------------------------------------------------------------- quoting

  // One way to write part of a word.
  datatype Segment = Bare(c: char) | Quoted(quote: char, body: string)

  predicate WellQuoted(s: Segment) {
    match s
    case Bare(c) => !IsQuote(c) && !IsBlank(c)
    case Quoted(quote, body) => IsQuote(quote) && quote !in body
  }

  function Written(s: Segment): string {
    match s
    case Bare(c) => [c]
    case Quoted(quote, body) => [quote] + body + [quote]
  }

  function Meant(s: Segment): string {
    match s
    case Bare(c) => [c]
    case Quoted(_, body) => body
  }

  function WrittenWord(segments: seq<Segment>): string {
    if segments == [] then "" else Written(segments[0]) + WrittenWord(segments[1..])
  }

  function MeantWord(segments: seq<Segment>): string {
    if segments == [] then "" else Meant(segments[0]) + MeantWord(segments[1..])
  }

  // Words separated by single spaces.
  function WrittenLine(words: seq<seq<Segment>>): string {
    if words == [] then ""
    else if |words| == 1 then WrittenWord(words[0])
    else WrittenWord(words[0]) + " " + WrittenLine(words[1..])
  }

  predicate WritableWord(segments: seq<Segment>) {
    MeantWord(segments) != "" && forall i :: 0 <= i < |segments| ==> WellQuoted(segments[i])
  }

  lemma {:induction false} InsideQuotes(body: string, quote: char, rest: string, current: string)
    requires IsQuote(quote) && quote !in body
    ensures WordsFrom(body + ([quote] + rest), Some(quote), current) == WordsFrom(rest, None, current + body)
  {
    if body == [] {
      assert body + ([quote] + rest) == [quote] + rest;
      assert current + body == current;
    } else {
      InsideQuotes(body[1..], quote, rest, current + [body[0]]);
      assert (body + ([quote] + rest))[1..] == body[1..] + ([quote] + rest);
      assert current + [body[0]] + body[1..] == current + body;
    }
  }

  lemma ReadSegment(s: Segment, rest: string, current: string)
    requires WellQuoted(s)
    ensures WordsFrom(Written(s) + rest, None, current) == WordsFrom(rest, None, current + Meant(s))
  {
    match s
    case Bare(c) =>
      assert ([c] + rest)[1..] == rest;
    case Quoted(quote, body) =>
      assert Written(s) + rest == [quote] + (body + ([quote] + rest));
      assert ([quote] + (body + ([quote] + rest)))[1..] == body + ([quote] + rest);
      InsideQuotes(body, quote, rest, current);
  }

  lemma JoinWord(s: Segment, segments: seq<Segment>, rest: string, current: string)
    ensures WrittenWord([s] + segments) + rest == Written(s) + (WrittenWord(segments) + rest)
    ensures current + MeantWord([s] + segments) == (current + Meant(s)) + MeantWord(segments)
  {
    assert ([s] + segments)[1..] == segments;
  }

  lemma {:induction false} ReadWord(segments: seq<Segment>, rest: string, current: string)
    requires forall i :: 0 <= i < |segments| ==> WellQuoted(segments[i])
    ensures WordsFrom(WrittenWord(segments) + rest, None, current) == WordsFrom(rest, None, current + MeantWord(segments))
    decreases |segments|
  {
    if segments == [] {
      assert "" + rest == rest && current + "" == current;
    } else {
      var s, tail := segments[0], segments[1..];
      assert segments == [s] + tail;
      ReadSegment(s, WrittenWord(tail) + rest, current);
      ReadWord(tail, rest, current + Meant(s));
      JoinWord(s, tail, rest, current);
    }
  }

  function Meanings(words: seq<seq<Segment>>): (meanings: seq<string>)
    ensures |meanings| == |words|
  {
    seq(|words|, i requires 0 <= i < |words| => MeantWord(words[i]))
  }

  // However each word is quoted, splitting the line gives back the words meant.
  lemma {:induction false} ReadLine(words: seq<seq<Segment>>)
    requires forall i :: 0 <= i < |words| ==> WritableWord(words[i])
    ensures WordsFrom(WrittenLine(words), None, "") == Meanings(words)
  {
    if words == [] {
    } else {
      var word := words[0];
      assert WritableWord(word);
      if |words| == 1 {
        ReadWord(word, "", "");
        assert WrittenWord(word) + "" == WrittenWord(word) && "" + MeantWord(word) == MeantWord(word);
      } else {
        ReadLine(words[1..]);
        ReadSpacedWord(word, WrittenLine(words[1..]));
        assert Meanings(words) == [MeantWord(word)] + Meanings(words[1..]);
      }
    }
  }

  lemma ReadSpacedWord(word: seq<Segment>, line: string)
    requires WritableWord(word)
    ensures WordsFrom(WrittenWord(word) + " " + line, None, "") == [MeantWord(word)] + WordsFrom(line, None, "")
  {
    ReadWord(word, " " + line, "");
    assert WrittenWord(word) + " " + line == WrittenWord(word) + (" " + line);
    assert "" + MeantWord(word) == MeantWord(word);
    assert (" " + line)[1..] == line;
  }

  // Any text can be written: each character in quotes of the kind it is not.
  function Quote(text: string): (segments: seq<Segment>)
    ensures |segments| == |text|
    ensures forall i :: 0 <= i < |text| ==> WellQuoted(segments[i])
  {
    seq(|text|, i requires 0 <= i < |text| => Quoted(if text[i] == '"' then '\'' else '"', [text[i]]))
  }

  lemma {:induction false} QuoteMeansText(text: string)
    ensures MeantWord(Quote(text)) == text
  {
    if text != [] {
      QuoteMeansText(text[1..]);
      assert Quote(text)[1..] == Quote(text[1..]);
    }
  }
}
