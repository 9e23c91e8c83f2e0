// What each line of an Exa text block says, and what a section of such lines
// becomes.
module ExaLines {
  import opened Wrappers
  import opened Text
  import opened Json
  import opened Sequences
  import opened ExaResults

  datatype Note = Published | Author | Highlights

  // The title, the address, something that is skipped, or a line of the snippet.
  datatype Line = Title(text: string) | Link(text: string) | Skipped(note: Option<Note>, text: string) | Said(text: string)

  function NoteName(note: Note): string {
    match note
    case Published => "Published:"
    case Author => "Author:"
    case Highlights => "Highlights:"
  }

  // How a line is written; a line that is skipped without a name is empty.
  function Spelled(line: Line): string {
    match line
    case Title(text) => "Title:" + text
    case Link(text) => "URL:" + text
    case Skipped(Some(note), text) => NoteName(note) + text
    case Skipped(None, _) => ""
    case Said(text) => text
  }

  predicate Named(text: string) {
    || StartsWith(text, "Title:") || StartsWith(text, "URL:")
    || StartsWith(text, "Published:") || StartsWith(text, "Author:") || StartsWith(text, "Highlights:")
  }

  // A line of the snippet is not empty, is no cut and has none of the names.
  predicate Proper(line: Line) { line.Said? ==> line.text != "" && line.text != "---" && !Named(line.text) }

  function Kind(text: string): Line {
    if StartsWith(text, "Title:") then Title(text[6..])
    else if StartsWith(text, "URL:") then Link(text[4..])
    else if StartsWith(text, "Published:") then Skipped(Some(Published), text[10..])
    else if StartsWith(text, "Author:") then Skipped(Some(Author), text[7..])
    else if StartsWith(text, "Highlights:") then Skipped(Some(Highlights), text[11..])
    else if text == "" then Skipped(None, "")
    else Said(text)
  }

  lemma NameThenText(name: string, text: string, rest: string)
    requires StartsWith(text, name) && rest == text[|name|..]
    ensures text == name + rest
  {
  }

  // Every line but a cut is one of these.
  lemma EveryLineIsOne(text: string)
    requires text != "---"
    ensures Proper(Kind(text)) && Spelled(Kind(text)) == text
  {
    match Kind(text)
    case Title(rest) => NameThenText("Title:", text, rest);
    case Link(rest) => NameThenText("URL:", text, rest);
    case Skipped(Some(note), rest) => NameThenText(NoteName(note), text, rest);
    case _ =>
  }

  lemma NameIsFound(name: string, rest: string)
    ensures StartsWith(name + rest, name) && (name + rest)[|name|..] == rest
    ensures name != "" ==> (name + rest)[0] == name[0]
  {
  }

  // The address a line gives.
  function LinkIn(line: Line): Option<string> {
    if line.Link? && StartsWith(Trim(line.text), "http") then Some(Trim(line.text)) else None
  }

  // What the scan makes of a line.
  lemma LineIsRead(line: Line)
    requires Proper(line)
    ensures Spelled(line) != "---" && (IsTitle(Spelled(line)) <==> line.Title?) && (IsPlain(Spelled(line)) <==> line.Said?)
    ensures line.Title? ==> Spelled(line)[|"Title:"|..] == line.text
    ensures UrlOf(Spelled(line)) == LinkIn(line)
  {
    match line
    case Title(text) => NameIsFound("Title:", text);
    case Link(text) => NameIsFound("URL:", text);
    case Skipped(Some(note), text) => NameIsFound(NoteName(note), text);
    case _ =>
  }

  function AllSpelled(lines: seq<Line>): (texts: seq<string>)
    ensures |texts| == |lines|
  {
    seq(|lines|, i requires 0 <= i < |lines| => Spelled(lines[i]))
  }

  predicate AllProper(lines: seq<Line>) { forall i :: 0 <= i < |lines| ==> Proper(lines[i]) }

  // The last title, the last address that begins with "http", and the snippet.
  function TitleOf(lines: seq<Line>): Option<string> {
    if lines == [] then None
    else if lines[|lines| - 1].Title? then Some(lines[|lines| - 1].text)
    else TitleOf(lines[..|lines| - 1])
  }

  function LinkOf(lines: seq<Line>): Option<string> {
    if lines == [] then None
    else
      var link := LinkIn(lines[|lines| - 1]);
      if link.Some? then link else LinkOf(lines[..|lines| - 1])
  }

  function SaidIn(lines: seq<Line>): seq<string> {
    if lines == [] then []
    else SaidIn(lines[..|lines| - 1]) + if lines[|lines| - 1].Said? then [lines[|lines| - 1].text] else []
  }

  // What one more line changes.
  lemma LineAdds(section: seq<string>, line: Line, clean: string -> string)
    requires Proper(line)
    ensures LastTitle(section + [Spelled(line)], clean) ==
            if line.Title? then Some(clean(line.text)) else LastTitle(section, clean)
    ensures LastUrl(section + [Spelled(line)]) == if LinkIn(line).Some? then LinkIn(line) else LastUrl(section)
    ensures PlainLines(section + [Spelled(line)]) ==
            if line.Said? then PlainLines(section) + [line.text] else PlainLines(section)
  {
    LineIsRead(line);
    AddLine(section, Spelled(line), clean);
  }

  lemma SpelledSnoc(lines: seq<Line>)
    requires lines != []
    ensures AllSpelled(lines) == AllSpelled(lines[..|lines| - 1]) + [Spelled(lines[|lines| - 1])]
  {
  }

  lemma {:induction false} TitleIsRead(lines: seq<Line>, clean: string -> string)
    requires AllProper(lines)
    ensures LastTitle(AllSpelled(lines), clean) ==
            match TitleOf(lines) case Some(text) => Some(clean(text)) case None => None
    decreases |lines|
  {
    if lines != [] {
      var before, last := lines[..|lines| - 1], lines[|lines| - 1];
      assert Proper(last);
      TitleIsRead(before, clean);
      SpelledSnoc(lines);
      LineAdds(AllSpelled(before), last, clean);
    }
  }

  lemma {:induction false} LinkIsRead(lines: seq<Line>, clean: string -> string)
    requires AllProper(lines)
    ensures LastUrl(AllSpelled(lines)) == LinkOf(lines)
    decreases |lines|
  {
    if lines != [] {
      var before, last := lines[..|lines| - 1], lines[|lines| - 1];
      assert Proper(last);
      LinkIsRead(before, clean);
      SpelledSnoc(lines);
      LineAdds(AllSpelled(before), last, clean);
    }
  }

  lemma {:induction false} SaidIsRead(lines: seq<Line>, clean: string -> string)
    requires AllProper(lines)
    ensures PlainLines(AllSpelled(lines)) == SaidIn(lines)
    decreases |lines|
  {
    if lines != [] {
      var before, last := lines[..|lines| - 1], lines[|lines| - 1];
      assert Proper(last);
      SaidIsRead(before, clean);
      SpelledSnoc(lines);
      LineAdds(AllSpelled(before), last, clean);
    }
  }

  // One space stands between two lines of a snippet.
  lemma {:induction false} SpacedGrows(lines: seq<string>, line: string)
    ensures Spaced([]) == "" && Spaced([line]) == line
    ensures lines != [] ==> Spaced(lines + [line]) == Spaced(lines) + (" " + line)
    decreases |lines|
  {
    if |lines| == 1 {
      assert (lines + [line])[1..] == [line];
    } else if lines != [] {
      SpacedGrows(lines[1..], line);
      assert (lines + [line])[1..] == lines[1..] + [line];
    }
  }

  ghost predicate CutAt(text: string, whole: string, n: nat) {
    text <= whole && |text| == if |whole| < n then |whole| else n
  }

  // A section without a usable address gives nothing; any other gives one
  // result with the last such address, the last title unless it is empty when
  // cleaned, and the first thousand characters of the cleaned snippet.
  lemma EntrySays(lines: seq<Line>, clean: string -> string)
    requires AllProper(lines)
    ensures var entry := EntryOf(AllSpelled(lines), clean);
      match LinkOf(lines)
      case None => entry == []
      case Some(url) =>
        && |entry| == 1 && entry[0].url == url && entry[0].source == "exa_web"
        && CutAt(entry[0].snippet, clean(Spaced(SaidIn(lines))), 1000)
        && entry[0].title ==
             match TitleOf(lines)
             case None => "Exa web result"
             case Some(text) => if clean(text) == "" then "Exa web result" else clean(text)
  {
    TitleIsRead(lines, clean);
    LinkIsRead(lines, clean);
    SaidIsRead(lines, clean);
  }

  // -------------------------------------------------------------- one block

  lemma {:induction false} SectionEnds(begun: seq<string>, section: seq<string>, rest: seq<string>)
    requires CUT !in section
    ensures Sections(begun, section + (["---"] + rest)) == [begun + section] + Sections([], rest)
    decreases |section|
  {
    var lines := section + (["---"] + rest);
    if section == [] {
      assert lines[0] == "---" && lines[1..] == rest;
      assert begun + section == begun;
    } else {
      assert section[0] in section;
      SectionEnds(begun + [section[0]], section[1..], rest);
      assert lines[1..] == section[1..] + (["---"] + rest);
      assert (begun + [section[0]]) + section[1..] == begun + section;
    }
  }

  // Sections put together with cut lines are told apart again.
  lemma {:induction false} SectionsOfJoined(sections: seq<seq<string>>)
    requires NoCuts(sections)
    ensures Sections([], Joined(sections)) == sections
  {
    if sections != [] {
      var first, rest := sections[0], sections[1..];
      SectionsOfJoined(rest);
      SectionEnds([], first, Joined(rest));
      assert first + ["---"] + Joined(rest) == first + (["---"] + Joined(rest));
      assert [] + first == first;
    }
  }

  function SectionTexts(sections: seq<seq<Line>>): (texts: seq<seq<string>>)
    ensures |texts| == |sections|
  {
    seq(|sections|, i requires 0 <= i < |sections| => AllSpelled(sections[i]))
  }

  // A block whose trimmed lines are these sections, separated by cut lines,
  // gives the entries of the sections in order.
  lemma BlockSays(block: string, sections: seq<seq<Line>>, clean: string -> string)
    requires forall i :: 0 <= i < |sections| ==> AllProper(sections[i])
    requires TrimmedLines(block) + ["---"] == Joined(SectionTexts(sections))
    ensures BlockEntries(block, clean) == Entries(SectionTexts(sections), clean)
  {
    forall i | 0 <= i < |sections| ensures CUT !in SectionTexts(sections)[i] {
      forall k | 0 <= k < |sections[i]| ensures AllSpelled(sections[i])[k] != CUT {
        LineIsRead(sections[i][k]);
      }
    }
    SectionsOfJoined(SectionTexts(sections));
  }

  // -------------------------------------------------------------- the reply

  // The content items are those listed under "content" in "result", the texts
  // those under "text" of each, and nothing is read from anything else.
  lemma ContentSays(v: Value)
    ensures forall result, items :: Get(v, "result") == Some(result) && Get(result, "content") == Some(Arr(items)) ==>
      Content(v) == items
    ensures (forall result, items :: Get(v, "result") == Some(result) ==> Get(result, "content") != Some(Arr(items))) ==>
      Content(v) == []
  {
    var result := Get(v, "result");
    if result.Some? {
      var content := Get(result.value, "content");
      if content.Some? && content.value.Arr? {
        assert content == Some(Arr(content.value.items));
      }
    }
  }

  lemma ItemSays(items: seq<Value>, item: Value)
    ensures forall text :: Get(item, "text") == Some(Str(text)) ==> ItemTexts(items + [item]) == ItemTexts(items) + [text]
    ensures (forall text :: Get(item, "text") != Some(Str(text))) ==> ItemTexts(items + [item]) == ItemTexts(items)
  {
    assert (items + [item])[..|items|] == items;
    var text := Get(item, "text");
    if text.Some? && text.value.Str? {
      assert text == Some(Str(text.value.text));
    } else {
      assert ItemTexts(items) + [] == ItemTexts(items);
    }
  }

  // A line of the stream counts when it begins with "data: " and the rest is
  // JSON.
  lemma StreamLineSays(line: string, data: string, json: string -> Option<Value>)
    ensures LineTexts("data: " + data, json) == match json(data) case Some(v) => ItemTexts(Content(v)) case None => []
    ensures !StartsWith(line, "data: ") ==> LineTexts(line, json) == []
  {
    NameIsFound("data: ", data);
  }
}
