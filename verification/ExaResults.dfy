// Reading the Exa search reply: text blocks are scanned line by line, with the
// fields of the current result held in variables. The scan gives the same
// list as splitting into sections, reading each, and removing repeated URLs.
module ExaResults {
  import opened Wrappers
  import opened Text
  import opened Json
  import opened Sequences

  type Value = Json<string>

  datatype SearchResult = SearchResult(title: string, url: string, snippet: string, source: string)

  datatype SearchError = NoParseableContent | NoUsableResults

  // ------------------------------------------------------- the simple form

  const CUT := "---"

  // The sections of a block that end in a cut line.
  function Sections(section: seq<string>, lines: seq<string>): seq<seq<string>>
    decreases |lines|
  {
    if lines == [] then []
    else if lines[0] == CUT then [section] + Sections([], lines[1..])
    else Sections(section + [lines[0]], lines[1..])
  }

  function AfterPrefix(line: string, prefix: string): Option<string> {
    if StartsWith(line, prefix) then Some(line[|prefix|..]) else None
  }

  // The URL a line gives, when it gives a usable one.
  function UrlOf(line: string): Option<string> {
    match AfterPrefix(line, "URL:")
    case Some(text) => if StartsWith(Trim(text), "http") then Some(Trim(text)) else None
    case None => None
  }

  predicate IsTitle(line: string) { StartsWith(line, "Title:") }

  predicate IsUrl(line: string) { StartsWith(line, "URL:") }

  predicate IsPlain(line: string) {
    && !IsTitle(line) && !IsUrl(line)
    && line != "" && !StartsWith(line, "Published:") && !StartsWith(line, "Author:") && !StartsWith(line, "Highlights:")
  }

  function LastTitle(section: seq<string>, clean: string -> string): Option<string> {
    if section == [] then None
    else
      var line := section[|section| - 1];
      if IsTitle(line) then Some(clean(line[|"Title:"|..])) else LastTitle(section[..|section| - 1], clean)
  }

  function LastUrl(section: seq<string>): Option<string> {
    if section == [] then None
    else
      var line := section[|section| - 1];
      if !IsTitle(line) && UrlOf(line).Some? then UrlOf(line) else LastUrl(section[..|section| - 1])
  }

  function PlainLines(section: seq<string>): seq<string> {
    if section == [] then []
    else
      var line := section[|section| - 1];
      PlainLines(section[..|section| - 1]) + if IsPlain(line) then [line] else []
  }

  function Spaced(lines: seq<string>): string {
    if lines == [] then "" else if |lines| == 1 then lines[0] else lines[0] + " " + Spaced(lines[1..])
  }

  function ResultOf(title: Option<string>, url: string, lines: seq<string>, clean: string -> string): SearchResult {
    SearchResult(
      if title.Some? && title.value != "" then title.value else "Exa web result",
      url,
      Take(clean(Spaced(lines)), 1000),
      "exa_web")
  }

  // A section without a URL gives nothing.
  function EntryOf(section: seq<string>, clean: string -> string): seq<SearchResult> {
    match LastUrl(section)
    case None => []
    case Some(url) => [ResultOf(LastTitle(section, clean), url, PlainLines(section), clean)]
  }

  function Entries(sections: seq<seq<string>>, clean: string -> string): seq<SearchResult> {
    if sections == [] then []
    else Entries(sections[..|sections| - 1], clean) + EntryOf(sections[|sections| - 1], clean)
  }

  function TrimmedLines(block: string): seq<string> {
    var lines := Lines(block);
    seq(|lines|, i requires 0 <= i < |lines| => Trim(lines[i]))
  }

  function BlockEntries(block: string, clean: string -> string): seq<SearchResult> {
    Entries(Sections([], TrimmedLines(block) + [CUT]), clean)
  }

  function AllEntries(blocks: seq<string>, clean: string -> string): seq<SearchResult> {
    if blocks == [] then []
    else AllEntries(blocks[..|blocks| - 1], clean) + BlockEntries(blocks[|blocks| - 1], clean)
  }

  function Urls(results: seq<SearchResult>): set<string> { set r | r in results :: r.url }

  // The first entry of each URL.
  function FirstPerUrl(entries: seq<SearchResult>): seq<SearchResult> {
    if entries == [] then []
    else
      var before, last := FirstPerUrl(entries[..|entries| - 1]), entries[|entries| - 1];
      if last.url in Urls(before) then before else before + [last]
  }

  // ------------------------------------------------------ about the simple form

  // Sections joined again by cut lines.
  function Joined(sections: seq<seq<string>>): seq<string> {
    if sections == [] then [] else sections[0] + ["---"] + Joined(sections[1..])
  }

  // Splitting loses nothing and leaves no cut line inside a section.
  lemma {:induction false} SectionsJoin(section: seq<string>, lines: seq<string>)
    requires lines != [] && lines[|lines| - 1] == CUT
    ensures Joined(Sections(section, lines)) == section + lines
    decreases |lines|
  {
    var first, rest := lines[0], lines[1..];
    assert lines == [first] + rest;
    if first == CUT {
      if rest != [] {
        SectionsJoin([], rest);
      }
      CutSection(section, rest, Sections([], rest));
    } else {
      SectionsJoin(section + [first], rest);
      Regroup(section, first, rest);
    }
  }

  lemma Regroup(section: seq<string>, line: string, rest: seq<string>)
    ensures (section + [line]) + rest == section + ([line] + rest)
  {
  }

  lemma CutSection(section: seq<string>, rest: seq<string>, sections: seq<seq<string>>)
    requires Joined(sections) == rest
    ensures Joined([section] + sections) == section + ([CUT] + rest)
  {
    assert ([section] + sections)[1..] == sections;
  }

  ghost predicate NoCuts(sections: seq<seq<string>>) {
    forall i :: 0 <= i < |sections| ==> CUT !in sections[i]
  }

  lemma {:induction false} SectionsHaveNoCut(section: seq<string>, lines: seq<string>)
    requires CUT !in section
    ensures NoCuts(Sections(section, lines))
    decreases |lines|
  {
    if lines != [] {
      if lines[0] == CUT {
        SectionsHaveNoCut([], lines[1..]);
      } else {
        SectionsHaveNoCut(section + [lines[0]], lines[1..]);
      }
    }
  }

  // An entry survives exactly when no earlier entry has its URL; no URL is kept twice.
  ghost predicate FirstAt(entries: seq<SearchResult>, i: nat) {
    i < |entries| && forall j :: 0 <= j < i ==> entries[j].url != entries[i].url
  }

  lemma {:induction false} FirstPerUrlKeeps(entries: seq<SearchResult>)
    ensures Urls(FirstPerUrl(entries)) == Urls(entries)
    decreases |entries|
  {
    if entries != [] {
      var before, last := entries[..|entries| - 1], entries[|entries| - 1];
      FirstPerUrlKeeps(before);
      assert entries == before + [last];
      UrlsOfMore(before, last);
      UrlsOfMore(FirstPerUrl(before), last);
    }
  }

  lemma UrlsOfMore(results: seq<SearchResult>, r: SearchResult)
    ensures Urls(results + [r]) == Urls(results) + {r.url}
  {
    assert r in results + [r];
    forall url | url in Urls(results) + {r.url} ensures url in Urls(results + [r]) {
      if url in Urls(results) {
        var x :| x in results && x.url == url;
        assert x in results + [r];
      }
    }
  }

  ghost predicate IsFirst(entries: seq<SearchResult>, r: SearchResult) {
    exists i: nat :: FirstAt(entries, i) && entries[i] == r
  }

  lemma NotInUrls(results: seq<SearchResult>, url: string)
    ensures url !in Urls(results) <==> forall j :: 0 <= j < |results| ==> results[j].url != url
  {
    if j :| 0 <= j < |results| && results[j].url == url {
      assert results[j] in results;
    }
  }

  lemma FirstOfMore(before: seq<SearchResult>, last: SearchResult, i: nat)
    ensures i < |before| ==> (FirstAt(before + [last], i) <==> FirstAt(before, i))
    ensures FirstAt(before + [last], |before|) <==> last.url !in Urls(before)
    ensures FirstAt(before + [last], i) ==> i <= |before|
  {
    NotInUrls(before, last.url);
    var entries := before + [last];
    assert forall j :: 0 <= j < |before| ==> entries[j] == before[j];
    assert entries[|before|] == last;
  }

  lemma IsFirstOfMore(before: seq<SearchResult>, last: SearchResult, r: SearchResult)
    ensures IsFirst(before + [last], r) <==> IsFirst(before, r) || (last.url !in Urls(before) && r == last)
  {
    FirstOfMore(before, last, |before|);
    assert (before + [last])[|before|] == last;
    if IsFirst(before, r) {
      var i: nat :| FirstAt(before, i) && before[i] == r;
      FirstOfMore(before, last, i);
      assert (before + [last])[i] == before[i];
    }
    if IsFirst(before + [last], r) {
      var i: nat :| FirstAt(before + [last], i) && (before + [last])[i] == r;
      FirstOfMore(before, last, i);
    }
  }

  lemma {:induction false} FirstPerUrlIsExact(entries: seq<SearchResult>, r: SearchResult)
    ensures r in FirstPerUrl(entries) <==> IsFirst(entries, r)
    decreases |entries|
  {
    if entries != [] {
      var before, last := entries[..|entries| - 1], entries[|entries| - 1];
      assert entries == before + [last];
      FirstPerUrlIsExact(before, r);
      FirstPerUrlKeeps(before);
      IsFirstOfMore(before, last, r);
    }
  }

  ghost predicate DistinctUrls(results: seq<SearchResult>) {
    forall i, j :: 0 <= i < j < |results| ==> results[i].url != results[j].url
  }

  lemma {:induction false} FirstPerUrlDistinct(entries: seq<SearchResult>)
    ensures DistinctUrls(FirstPerUrl(entries))
    decreases |entries|
  {
    if entries != [] {
      var before, last := FirstPerUrl(entries[..|entries| - 1]), entries[|entries| - 1];
      FirstPerUrlDistinct(entries[..|entries| - 1]);
      forall i | 0 <= i < |before| ensures before[i].url in Urls(before) {
        assert before[i] in before;
      }
    }
  }

  // More entries only add results at the end.
  lemma {:induction false} FirstPerUrlGrows(entries: seq<SearchResult>, more: seq<SearchResult>)
    ensures FirstPerUrl(entries) <= FirstPerUrl(entries + more)
    decreases |more|
  {
    if more == [] {
      assert entries + more == entries;
    } else {
      FirstPerUrlGrows(entries, more[..|more| - 1]);
      assert (entries + more)[..|entries + more| - 1] == entries + more[..|more| - 1];
    }
  }

  // ------------------------------------------------------------- the scanner

  // A limit of zero is only looked at after a result was added, or after the
  // first block.
  function Cap(limit: nat): nat { if limit == 0 then 1 else limit }

  lemma AddLine(section: seq<string>, line: string, clean: string -> string)
    ensures LastTitle(section + [line], clean) ==
            if IsTitle(line) then Some(clean(line[|"Title:"|..])) else LastTitle(section, clean)
    ensures LastUrl(section + [line]) == if !IsTitle(line) && UrlOf(line).Some? then UrlOf(line) else LastUrl(section)
    ensures PlainLines(section + [line]) == if IsPlain(line) then PlainLines(section) + [line] else PlainLines(section)
  {
    assert (section + [line])[..|section + [line]| - 1] == section;
  }

  lemma AddSection(sections: seq<seq<string>>, section: seq<string>, clean: string -> string)
    ensures Entries(sections + [section], clean) == Entries(sections, clean) + EntryOf(section, clean)
  {
    assert (sections + [section])[..|sections + [section]| - 1] == sections;
  }

  lemma {:induction false} EntriesJoin(first: seq<seq<string>>, second: seq<seq<string>>, clean: string -> string)
    ensures Entries(first + second, clean) == Entries(first, clean) + Entries(second, clean)
    decreases |second|
  {
    if second == [] {
      assert first + second == first;
      assert Entries(first, clean) + [] == Entries(first, clean);
    } else {
      var init, last := second[..|second| - 1], second[|second| - 1];
      assert second == init + [last];
      Associate(first, init, [last]);
      EntriesJoin(first, init, clean);
      AddSection(first + init, last, clean);
      AddSection(init, last, clean);
      Associate(Entries(first, clean), Entries(init, clean), EntryOf(last, clean));
    }
  }

  lemma AddEntry(entries: seq<SearchResult>, entry: SearchResult)
    ensures FirstPerUrl(entries + [entry]) ==
            if entry.url in Urls(FirstPerUrl(entries)) then FirstPerUrl(entries) else FirstPerUrl(entries) + [entry]
  {
    assert (entries + [entry])[..|entries + [entry]| - 1] == entries;
  }

  // A full list stays as it is, whatever entries follow.
  lemma FullListIsFinal(entries: seq<SearchResult>, more: seq<SearchResult>, limit: nat)
    requires |FirstPerUrl(entries)| == limit
    ensures Take(FirstPerUrl(entries + more), limit) == FirstPerUrl(entries)
  {
    FirstPerUrlGrows(entries, more);
    TakeOfPrefix(FirstPerUrl(entries), FirstPerUrl(entries + more), limit);
  }

  // What the current section adds to the results.
  method CloseSection(out: seq<SearchResult>, seen: set<string>, title: Option<string>, url: Option<string>,
                      snippet: seq<string>, ghost done: seq<SearchResult>, ghost section: seq<string>,
                      clean: string -> string)
    returns (newOut: seq<SearchResult>, newSeen: set<string>)
    requires out == FirstPerUrl(done) && seen == Urls(out)
    requires title == LastTitle(section, clean) && url == LastUrl(section) && snippet == PlainLines(section)
    ensures newOut == FirstPerUrl(done + EntryOf(section, clean)) && newSeen == Urls(newOut)
    ensures |out| <= |newOut| <= |out| + 1
  {
    newOut, newSeen := out, seen;
    if url.Some? {
      var entry := ResultOf(title, url.value, snippet, clean);
      AddEntry(done, entry);
      if url.value !in seen {
        UrlsOfMore(out, entry);
        newSeen := seen + {url.value};
        newOut := out + [entry];
      }
    } else {
      assert done + [] == done;
    }
  }

  // What one line that is no cut says about its section.
  method ReadField(ghost section: seq<string>, trimmed: string, title: Option<string>, url: Option<string>,
                   snippet: seq<string>, clean: string -> string)
    returns (newTitle: Option<string>, newUrl: Option<string>, newSnippet: seq<string>)
    requires title == LastTitle(section, clean) && url == LastUrl(section) && snippet == PlainLines(section)
    ensures newTitle == LastTitle(section + [trimmed], clean) && newUrl == LastUrl(section + [trimmed])
    ensures newSnippet == PlainLines(section + [trimmed])
  {
    AddLine(section, trimmed, clean);
    newTitle, newUrl, newSnippet := title, url, snippet;
    if IsTitle(trimmed) {
      newTitle := Some(clean(trimmed[|"Title:"|..]));
      return;
    }
    if IsUrl(trimmed) {
      var text := Trim(trimmed[|"URL:"|..]);
      if StartsWith(text, "http") {
        newUrl := Some(text);
      }
      return;
    }
    if IsPlain(trimmed) {
      newSnippet := snippet + [trimmed];
    }
  }

  method ReadBlock(block: string, out: seq<SearchResult>, seen: set<string>, limit: nat,
                   ghost done: seq<SearchResult>, clean: string -> string)
    returns (newOut: seq<SearchResult>, newSeen: set<string>)
    requires out == FirstPerUrl(done) && seen == Urls(out) && |out| < Cap(limit)
    ensures newOut == Take(FirstPerUrl(done + BlockEntries(block, clean)), Cap(limit)) && newSeen == Urls(newOut)
  {
    var lines := Lines(block) + [CUT];
    ghost var trimmedLines := TrimmedLines(block) + [CUT];
    ghost var sections := Sections([], trimmedLines);
    ghost var closed: seq<seq<string>>, section: seq<string> := [], [];
    newOut, newSeen := out, seen;
    var title: Option<string>, url: Option<string>, snippet: seq<string> := None, None, [];
    assert done + [] == done;
    for k := 0 to |lines|
      invariant closed + Sections(section, trimmedLines[k..]) == sections
      invariant title == LastTitle(section, clean) && url == LastUrl(section) && snippet == PlainLines(section)
      invariant newOut == FirstPerUrl(done + Entries(closed, clean)) && newSeen == Urls(newOut)
      invariant |newOut| < Cap(limit)
    {
      var trimmed := Trim(lines[k]);
      TrimmedLine(block, k);
      SectionsStep(section, trimmedLines, k);
      if trimmed == CUT {
        NextSection(closed, section, trimmedLines[k + 1..], done, clean);
        newOut, newSeen := CloseSection(newOut, newSeen, title, url, snippet, done + Entries(closed, clean), section, clean);
        closed, section := closed + [section], [];
        if |newOut| >= Cap(limit) {
          LaterSections(closed, Sections([], trimmedLines[k + 1..]), done, limit, clean);
          return;
        }
        title, url, snippet := None, None, [];
        continue;
      }
      title, url, snippet := ReadField(section, trimmed, title, url, snippet, clean);
      section := section + [trimmed];
    }
    assert closed == sections;
  }

  lemma SectionsStep(section: seq<string>, lines: seq<string>, k: nat)
    requires k < |lines|
    ensures Sections(section, lines[k..]) ==
            if lines[k] == CUT then [section] + Sections([], lines[k + 1..])
            else Sections(section + [lines[k]], lines[k + 1..])
  {
    assert lines[k..][0] == lines[k] && lines[k..][1..] == lines[k + 1..];
  }

  lemma TrimmedLine(block: string, k: nat)
    requires k < |Lines(block)| + 1
    ensures Trim((Lines(block) + [CUT])[k]) == (TrimmedLines(block) + [CUT])[k]
  {
    TrimProperty(CUT);
  }

  lemma NextSection(closed: seq<seq<string>>, section: seq<string>, rest: seq<string>,
                    done: seq<SearchResult>, clean: string -> string)
    ensures closed + ([section] + Sections([], rest)) == (closed + [section]) + Sections([], rest)
    ensures (done + Entries(closed, clean)) + EntryOf(section, clean) == done + Entries(closed + [section], clean)
  {
    AddSection(closed, section, clean);
    Associate(closed, [section], Sections([], rest));
    Associate(done, Entries(closed, clean), EntryOf(section, clean));
  }

  lemma LaterSections(closed: seq<seq<string>>, later: seq<seq<string>>, done: seq<SearchResult>, limit: nat,
                      clean: string -> string)
    requires |FirstPerUrl(done + Entries(closed, clean))| == Cap(limit)
    ensures Take(FirstPerUrl(done + Entries(closed + later, clean)), Cap(limit)) == FirstPerUrl(done + Entries(closed, clean))
  {
    EntriesJoin(closed, later, clean);
    Associate(done, Entries(closed, clean), Entries(later, clean));
    FullListIsFinal(done + Entries(closed, clean), Entries(later, clean), Cap(limit));
  }

  // What the whole scan collects.
  function Collected(blocks: seq<string>, limit: nat, clean: string -> string): seq<SearchResult> {
    if limit == 0 && |blocks| > 0 then Take(FirstPerUrl(BlockEntries(blocks[0], clean)), 1)
    else Take(FirstPerUrl(AllEntries(blocks, clean)), limit)
  }

  lemma AddBlock(blocks: seq<string>, k: nat, clean: string -> string)
    requires k < |blocks|
    ensures AllEntries(blocks[..k + 1], clean) == AllEntries(blocks[..k], clean) + BlockEntries(blocks[k], clean)
  {
    assert blocks[..k + 1][..k] == blocks[..k];
  }

  lemma {:induction false} LaterBlocks(blocks: seq<string>, k: nat, clean: string -> string) returns (more: seq<SearchResult>)
    requires k <= |blocks|
    ensures AllEntries(blocks, clean) == AllEntries(blocks[..k], clean) + more
    decreases |blocks| - k
  {
    if k == |blocks| {
      assert blocks[..k] == blocks;
      more := [];
      assert AllEntries(blocks, clean) + [] == AllEntries(blocks, clean);
    } else {
      var later := LaterBlocks(blocks, k + 1, clean);
      AddBlock(blocks, k, clean);
      Associate(AllEntries(blocks[..k], clean), BlockEntries(blocks[k], clean), later);
      more := BlockEntries(blocks[k], clean) + later;
    }
  }

  // For a limit of at least one the scan collects the same list as the simple
  // form; for zero it stops after the first result or the first block.
  method CollectResults(blocks: seq<string>, limit: nat, clean: string -> string) returns (out: seq<SearchResult>)
    ensures out == Collected(blocks, limit, clean)
  {
    out := [];
    var seen: set<string> := {};
    for k := 0 to |blocks|
      invariant out == FirstPerUrl(AllEntries(blocks[..k], clean)) && seen == Urls(out)
      invariant k > 0 ==> |out| < limit
      invariant k == 0 ==> out == []
    {
      AddBlock(blocks, k, clean);
      out, seen := ReadBlock(blocks[k], out, seen, limit, AllEntries(blocks[..k], clean), clean);
      if |out| >= limit {
        Stopped(blocks, k, limit, clean);
        return;
      }
    }
    assert blocks[..|blocks|] == blocks;
  }

  lemma Stopped(blocks: seq<string>, k: nat, limit: nat, clean: string -> string)
    requires k < |blocks| && (limit == 0 ==> k == 0)
    requires |FirstPerUrl(AllEntries(blocks[..k + 1], clean))| >= limit
    ensures Collected(blocks, limit, clean) == Take(FirstPerUrl(AllEntries(blocks[..k + 1], clean)), Cap(limit))
  {
    if limit == 0 {
      FirstBlock(blocks, clean);
    } else {
      var read := AllEntries(blocks[..k + 1], clean);
      var more := LaterBlocks(blocks, k + 1, clean);
      FirstPerUrlGrows(read, more);
      TakeOfPrefix(FirstPerUrl(read), FirstPerUrl(read + more), limit);
    }
  }

  lemma FirstBlock(blocks: seq<string>, clean: string -> string)
    requires |blocks| > 0
    ensures AllEntries(blocks[..1], clean) == BlockEntries(blocks[0], clean)
  {
    AddBlock(blocks, 0, clean);
    var entries := BlockEntries(blocks[0], clean);
    assert [] + entries == entries;
  }

  lemma TakeOfPrefix<T>(short: seq<T>, long: seq<T>, n: nat)
    requires short <= long && n <= |short|
    ensures Take(long, n) == Take(short, n)
  {
  }

  // What a caller sees: at most `limit` results with different URLs, each the
  // first entry of its URL, and no URL missed unless the list is full.
  lemma CollectedIsSound(blocks: seq<string>, limit: nat, clean: string -> string)
    requires limit >= 1
    ensures var out, all := Collected(blocks, limit, clean), AllEntries(blocks, clean);
      && |out| <= limit && DistinctUrls(out)
      && (forall r :: r in out ==> IsFirst(all, r))
      && (|out| < limit ==> Urls(out) == Urls(all))
  {
    var all := AllEntries(blocks, clean);
    FirstPerUrlDistinct(all);
    FirstPerUrlKeeps(all);
    forall r | r in Collected(blocks, limit, clean) ensures IsFirst(all, r) {
      FirstPerUrlIsExact(all, r);
    }
  }

  // ------------------------------------------------------------- the reply

  // The texts of a tool result's content items.
  function ItemTexts(items: seq<Value>): seq<string> {
    if items == [] then []
    else
      var text := AsStr(Get(items[|items| - 1], "text"));
      ItemTexts(items[..|items| - 1]) + if text.Some? then [text.value] else []
  }

  function Content(v: Value): seq<Value> {
    match Get(v, "result")
    case None => []
    case Some(result) =>
      match AsArray(Get(result, "content"))
      case None => []
      case Some(items) => items
  }

  // The texts of the event stream lines that hold JSON.
  function LineTexts(line: string, json: string -> Option<Value>): seq<string> {
    match AfterPrefix(line, "data: ")
    case None => []
    case Some(data) =>
      match json(data)
      case None => []
      case Some(value) => ItemTexts(Content(value))
  }

  function StreamTexts(lines: seq<string>, json: string -> Option<Value>): seq<string> {
    if lines == [] then []
    else StreamTexts(lines[..|lines| - 1], json) + LineTexts(lines[|lines| - 1], json)
  }

  // The stream's texts, or those of the reply read as one value.
  function ReplyTexts(raw: string, json: string -> Option<Value>): Option<seq<string>> {
    var texts := StreamTexts(Lines(raw), json);
    if texts != [] then Some(texts)
    else if json(raw).None? then None
    else Some(ItemTexts(Content(json(raw).value)))
  }

  method AddItemTexts(blocks: seq<string>, v: Value) returns (r: seq<string>)
    ensures r == blocks + ItemTexts(Content(v))
  {
    var items := Content(v);
    r := blocks;
    for k := 0 to |items|
      invariant r == blocks + ItemTexts(items[..k])
    {
      assert items[..k + 1][..k] == items[..k];
      var text := AsStr(Get(items[k], "text"));
      if text.Some? {
        r := r + [text.value];
      }
    }
    assert items[..|items|] == items;
  }

  lemma AddLineTexts(lines: seq<string>, k: nat, json: string -> Option<Value>)
    requires k < |lines|
    ensures StreamTexts(lines[..k + 1], json) == StreamTexts(lines[..k], json) + LineTexts(lines[k], json)
  {
    assert lines[..k + 1][..k] == lines[..k];
  }

  method StreamBlocks(raw: string, json: string -> Option<Value>) returns (blocks: seq<string>)
    ensures blocks == StreamTexts(Lines(raw), json)
  {
    var lines := Lines(raw);
    blocks := [];
    for k := 0 to |lines|
      invariant blocks == StreamTexts(lines[..k], json)
    {
      AddLineTexts(lines, k, json);
      assert blocks + [] == blocks;
      var data := AfterPrefix(lines[k], "data: ");
      if data.None? {
        continue;
      }
      var value := json(data.value);
      if value.None? {
        continue;
      }
      blocks := AddItemTexts(blocks, value.value);
    }
    assert lines[..|lines|] == lines;
  }

  method ParseExaWebResults(raw: string, limit: nat, json: string -> Option<Value>, clean: string -> string)
    returns (r: Result<seq<SearchResult>, SearchError>)
    ensures match ReplyTexts(raw, json)
      case None => r == Err(NoParseableContent)
      case Some(blocks) =>
        r == if Collected(blocks, limit, clean) == [] then Err(NoUsableResults) else Ok(Collected(blocks, limit, clean))
  {
    var blocks := StreamBlocks(raw, json);
    if blocks == [] {
      var value := json(raw);
      if value.None? {
        return Err(NoParseableContent);
      }
      blocks := AddItemTexts([], value.value);
      assert blocks == ItemTexts(Content(value.value));
    }
    var out := CollectResults(blocks, limit, clean);
    r := if out == [] then Err(NoUsableResults) else Ok(out);
  }
}
