// Which images the previews of an output show, told by its fields alone, and
// what becomes of them when the previews are compacted into sheets.
module ContactSheetImages {
  import opened Wrappers
  import opened Json
  import opened Text
  import opened Sequences
  import opened SheetItems
  import opened ContactSheets

  // ---------------------------------------------------------------- fields

  function FieldIn(v: Option<Value>, key: string): Option<Value> {
    if v.Some? then Get(v.value, key) else None
  }

  // The text under "url" in the value under "image_url".
  function UrlShown(preview: Value): Option<PreviewText> { AsStr(FieldIn(Get(preview, "image_url"), "url")) }

  ghost predicate Shows(preview: Value, url: PreviewText) {
    exists image :: Get(preview, "image_url") == Some(image) && Get(image, "url") == Some(Str(url))
  }

  // A preview carries an image exactly when it has such a text, and it is that
  // text, whatever it says.
  lemma UrlIsTheText(preview: Value, url: PreviewText)
    ensures PreviewUrl(preview) == Some(url) <==> Shows(preview, url)
    ensures PreviewUrl(preview) == UrlShown(preview)
    ensures PreviewUrl(preview) == None <==> forall other :: !Shows(preview, other)
  {
    if PreviewUrl(preview).Some? {
      assert Shows(preview, PreviewUrl(preview).value);
    }
  }

  // The previews listed in a result or at the top.
  function Listed(holder: Value): seq<Value> {
    var list := Get(holder, "visual_previews");
    if list.Some? && list.value.Arr? then list.value.items else []
  }

  lemma PreviewsAreListed(holder: Value)
    ensures Previews(holder) == Listed(holder)
  {
  }

  // The URLs shown by some previews, and by all results, in order.
  function ShownBy(preview: Value): seq<PreviewText> {
    match UrlShown(preview)
    case Some(url) => [url]
    case None => []
  }

  function Shown(previews: seq<Value>): seq<PreviewText> {
    if previews == [] then []
    else ShownBy(previews[0]) + Shown(previews[1..])
  }

  function AllShown(results: seq<Value>): seq<PreviewText> {
    if results == [] then []
    else AllShown(results[..|results| - 1]) + Shown(Listed(results[|results| - 1]))
  }

  predicate AllPlain(urls: seq<PreviewText>) { forall i :: 0 <= i < |urls| ==> urls[i].Plain? }

  // The number of images the sheets among some previews say they hold.
  function TotalCount(previews: seq<Value>): int {
    if previews == [] then 0
    else
      (match Get(previews[0], "item_count") case Some(Number(n)) => n case _ => 0) + TotalCount(previews[1..])
  }

  // What a result with so many images has left after the first level: each
  // image as it is when there is at most one, otherwise sheets of twelve.
  function Unit(images: nat): nat { if images <= 1 then images else (images + 11) / 12 }

  function Units(results: seq<Value>): nat {
    if results == [] then 0
    else Units(results[..|results| - 1]) + Unit(|Shown(Listed(results[|results| - 1]))|)
  }

  // ---------------------------------------------------------------- counting

  lemma {:induction false} ItemsAreShown(previews: seq<Value>, path: string, position: nat)
    ensures |ResultItems(previews, path, position)| == |Shown(previews)|
  {
    if previews != [] {
      ItemsAreShown(previews[1..], path, position + 1);
    }
  }

  lemma {:induction false} ShownSnoc(previews: seq<Value>, preview: Value)
    ensures Shown(previews + [preview]) == Shown(previews) + ShownBy(preview)
    decreases |previews|
  {
    if previews == [] {
      assert [] + [preview] == [preview];
      assert Shown([preview]) == ShownBy(preview) + [];
    } else {
      ShownSnoc(previews[1..], preview);
      assert (previews + [preview])[1..] == previews[1..] + [preview];
      Associate(ShownBy(previews[0]), Shown(previews[1..]), ShownBy(preview));
    }
  }

  lemma {:induction false} WithResultCounts(gathered: seq<SheetItem>, previews: seq<Value>, path: string)
    ensures |WithResult(gathered, previews, path)| == |gathered| + |Shown(previews)|
    decreases |previews|
  {
    if previews != [] {
      var n := |previews| - 1;
      WithResultCounts(gathered, previews[..n], path);
      ShownSnoc(previews[..n], previews[n]);
      assert previews[..n] + [previews[n]] == previews;
    }
  }

  lemma {:induction false} AllItemsCount(results: seq<Value>)
    ensures |AllItems(results)| == |AllShown(results)|
    decreases |results|
  {
    if results != [] {
      var n := |results| - 1;
      AllItemsCount(results[..n]);
      PreviewsAreListed(results[n]);
      WithResultCounts(AllItems(results[..n]), Previews(results[n]), PathOf(results[n]));
    }
  }

  lemma {:induction false} SheetCount(items: seq<SheetItem>)
    ensures |Chunks(items)| == (|items| + 11) / 12
    decreases |items|
  {
    if |items| > SHEET_SIZE {
      SheetCount(items[SHEET_SIZE..]);
    }
  }

  lemma RecordsCons(head: seq<SheetItem>, chunks: seq<seq<SheetItem>>)
    ensures SheetRecords([head] + chunks) == [SheetRecord(head)] + SheetRecords(chunks)
  {
  }

  lemma {:induction false} RecordsAreShown(chunks: seq<seq<SheetItem>>)
    ensures |Shown(SheetRecords(chunks))| == |chunks|
  {
    if chunks != [] {
      RecordsAreShown(chunks[1..]);
      RecordsCons(chunks[0], chunks[1..]);
      assert [chunks[0]] + chunks[1..] == chunks;
      SheetRecordReads(chunks[0]);
    }
  }

  // The counts on the sheets made of some items add up to their number.
  lemma {:induction false} CountsAddUp(items: seq<SheetItem>)
    ensures TotalCount(SheetRecords(Chunks(items))) == |items|
    decreases |items|
  {
    if items != [] {
      var n := if |items| <= SHEET_SIZE then |items| else SHEET_SIZE;
      CountsAddUp(items[n..]);
      assert items[..|items|] == items;
      assert Chunks(items) == [items[..n]] + Chunks(items[n..]);
      RecordsCons(items[..n], Chunks(items[n..]));
      SheetRecordReads(items[..n]);
    }
  }

  // ---------------------------------------------------------------- first level

  lemma CompactResultCounts(result: Value, renders: seq<SheetItem> -> bool)
    requires CompactResult(result, renders).Some?
    ensures var r, images := CompactResult(result, renders).value, Shown(Listed(result));
      && |Shown(Listed(r))| == Unit(|images|)
      && (|images| >= 2 ==> TotalCount(Listed(r)) == |images|)
  {
    PreviewsAreListed(result);
    var items := ResultItems(Previews(result), PathOf(result), 0);
    ItemsAreShown(Previews(result), PathOf(result), 0);
    ShownIsShort(Previews(result));
    if |items| > 1 {
      var r := WithPreviews(result, SheetRecords(Chunks(items)), "visual_contact_sheet", Bool(true));
      assert result.Obj?;
      WithPreviewsReads(result, SheetRecords(Chunks(items)), "visual_contact_sheet", Bool(true));
      PreviewsAreListed(r);
      RecordsAreShown(Chunks(items));
      SheetCount(items);
      CountsAddUp(items);
    }
  }

  lemma {:induction false} ShownIsShort(previews: seq<Value>)
    ensures |Shown(previews)| <= |previews|
  {
    if previews != [] {
      ShownIsShort(previews[1..]);
    }
  }

  lemma {:induction false} CompactedCounts(results: seq<Value>, renders: seq<SheetItem> -> bool)
    requires AllCompact(results, renders)
    ensures |AllShown(CompactedAll(results, renders))| == Units(results)
    decreases |results|
  {
    if results != [] {
      var n := |results| - 1;
      var c := CompactedAll(results, renders);
      CompactedCounts(results[..n], renders);
      assert c[..n] == CompactedAll(results[..n], renders);
      CompactResultCounts(results[n], renders);
    }
  }

  // ---------------------------------------------------------------- both levels

  lemma {:induction false} PlainExpands(previews: seq<Value>)
    requires AllPlain(Shown(previews))
    ensures ExpandAll(previews) == Shown(previews)
  {
    if previews != [] {
      var rest := Shown(previews[1..]);
      var first := ShownBy(previews[0]);
      assert Shown(previews) == first + rest;
      assert forall i :: 0 <= i < |rest| ==> rest[i] == Shown(previews)[|first| + i];
      PlainExpands(previews[1..]);
      PreviewsCons(previews[0], previews[1..]);
      assert [previews[0]] + previews[1..] == previews;
      assert first != [] ==> first[0] == Shown(previews)[0];
    }
  }

  // What plain previews stand for is what their fields show.
  lemma {:induction false} PlainResultsExpand(results: seq<Value>)
    requires AllPlain(AllShown(results))
    ensures ExpandResults(results) == AllShown(results)
    decreases |results|
  {
    if results != [] {
      var n := |results| - 1;
      var last := Shown(Listed(results[n]));
      assert forall i :: 0 <= i < |last| ==> last[i] == AllShown(results)[|AllShown(results[..n])| + i];
      assert forall i :: 0 <= i < |AllShown(results[..n])| ==> AllShown(results[..n])[i] == AllShown(results)[i];
      PlainResultsExpand(results[..n]);
      PlainExpands(Listed(results[n]));
      OneMoreResult(results);
    }
  }

  lemma {:induction false} UnitsOfSingles(results: seq<Value>)
    requires forall i :: 0 <= i < |results| ==> |Shown(Listed(results[i]))| <= 1
    ensures Units(results) == |AllShown(results)|
    decreases |results|
  {
    if results != [] {
      UnitsOfSingles(results[..|results| - 1]);
    }
  }

  lemma {:induction false} NoUnits(results: seq<Value>)
    ensures Units(results) == 0 <==> AllShown(results) == []
    decreases |results|
  {
    if results != [] {
      NoUnits(results[..|results| - 1]);
    }
  }

  lemma {:induction false} NothingShown(previews: seq<Value>)
    requires Shown(previews) == []
    ensures ExpandAll(previews) == []
  {
    if previews != [] {
      NothingShown(previews[1..]);
      PreviewsCons(previews[0], previews[1..]);
      assert [previews[0]] + previews[1..] == previews;
    }
  }

  lemma {:induction false} NothingAnywhere(results: seq<Value>)
    requires AllShown(results) == []
    ensures ExpandResults(results) == []
    decreases |results|
  {
    if results != [] {
      var n := |results| - 1;
      NothingAnywhere(results[..n]);
      OneMoreResult(results);
      NothingShown(Listed(results[n]));
    }
  }

  lemma OneMoreResult(results: seq<Value>)
    requires results != []
    ensures var n := |results| - 1; ExpandResults(results) == ExpandResults(results[..n]) + ExpandAll(Listed(results[n]))
  {
    var n := |results| - 1;
    PreviewsAreListed(results[n]);
    ResultsSnoc(results[..n], results[n]);
    assert results[..n] + [results[n]] == results;
  }

  // When one image or sheet is all that is left, one result had all images.
  lemma {:induction false} SoleResult(results: seq<Value>) returns (i: nat)
    requires Units(results) == 1
    ensures i < |results| && AllShown(results) == Shown(Listed(results[i]))
    ensures ExpandResults(results) == ExpandAll(Listed(results[i]))
    decreases |results|
  {
    var n := |results| - 1;
    NoUnits(results[..n]);
    OneMoreResult(results);
    if Shown(Listed(results[n])) == [] {
      i := SoleResult(results[..n]);
      NothingShown(Listed(results[n]));
      assert AllShown(results[..n]) + [] == AllShown(results[..n]);
      assert ExpandResults(results[..n]) + [] == ExpandResults(results[..n]);
    } else {
      i := n;
      NothingAnywhere(results[..n]);
      assert [] + Shown(Listed(results[n])) == Shown(Listed(results[n]));
      assert [] + ExpandAll(Listed(results[n])) == ExpandAll(Listed(results[n]));
    }
  }

  // Some previews are sheets that count so many items and hold these images.
  ghost predicate Hold(previews: seq<Value>, count: nat, images: seq<PreviewText>) {
    TotalCount(previews) == count && ExpandAll(previews) == images
  }

  ghost predicate SheetsAt(after: Value, i: nat, count: nat, images: seq<PreviewText>) {
    var results := Get(after, "media_results");
    results.Some? && results.value.Arr? && i < |results.value.items| && Hold(Listed(results.value.items[i]), count, images)
  }

  // Two or more images, on whatever results, end up on sheets. When a single
  // sheet is enough for the one result that has them all, it stays there and
  // counts them all. Otherwise the sheets at the top count one item for each
  // result's only image and each result's sheet, so every image when no result
  // has two. Either way they hold every image once, in order: the URLs shown
  // by the fields, when these are plain texts.
  lemma EveryImageIsOnASheet(root: Value, before: seq<Value>, renders: seq<SheetItem> -> bool)
    requires Get(root, "media_results") == Some(Arr(before)) && Compacted(root, renders).Some?
    requires |AllShown(before)| >= 2
    ensures var after, images := Compacted(root, renders).value, ExpandResults(before);
      && (Units(before) == 1 ==>
            exists i :: 0 <= i < |before| && SheetsAt(after, i, |AllShown(before)|, images))
      && (Units(before) != 1 ==> Hold(Listed(after), Units(before), images))
      && ((forall i :: 0 <= i < |before| ==> |Shown(Listed(before[i]))| <= 1) ==>
            Hold(Listed(after), |AllShown(before)|, images))
      && (AllPlain(AllShown(before)) ==> images == AllShown(before))
  {
    CompactedCounts(before, renders);
    AllItemsCount(CompactedAll(before, renders));
    NoUnits(before);
    if Units(before) == 1 {
      SheetStays(root, before, renders);
    } else {
      SheetsAtTop(root, before, renders);
    }
    if forall i :: 0 <= i < |before| ==> |Shown(Listed(before[i]))| <= 1 {
      UnitsOfSingles(before);
    }
    if AllPlain(AllShown(before)) {
      PlainResultsExpand(before);
    }
  }

  lemma SheetStays(root: Value, before: seq<Value>, renders: seq<SheetItem> -> bool)
    requires Get(root, "media_results") == Some(Arr(before)) && Compacted(root, renders).Some?
    requires |AllShown(before)| >= 2 && |AllItems(CompactedAll(before, renders))| == Units(before) == 1
    ensures exists i :: 0 <= i < |before| &&
              SheetsAt(Compacted(root, renders).value, i, |AllShown(before)|, ExpandResults(before))
  {
    var compacted := CompactedAll(before, renders);
    KeepTop(root, compacted);
    var i := SoleResult(before);
    CompactResultCounts(before[i], renders);
    CompactResultKeeps(before[i], renders);
    PreviewsAreListed(before[i]);
    PreviewsAreListed(compacted[i]);
    assert SheetsAt(Compacted(root, renders).value, i, |AllShown(before)|, ExpandResults(before));
  }

  lemma SheetsAtTop(root: Value, before: seq<Value>, renders: seq<SheetItem> -> bool)
    requires Get(root, "media_results") == Some(Arr(before)) && Compacted(root, renders).Some?
    requires |AllItems(CompactedAll(before, renders))| == Units(before) >= 2
    ensures Hold(Listed(Compacted(root, renders).value), Units(before), ExpandResults(before))
  {
    var items := AllItems(CompactedAll(before, renders));
    AtTopReads(root, CompactedAll(before, renders), items);
    PreviewsAreListed(Compacted(root, renders).value);
    CountsAddUp(items);
    CompactionKeepsImages(root, renders);
  }

  // ---------------------------------------------------------------- failures

  // Compaction fails only where a sheet cannot be drawn, and fails where no
  // sheet can be drawn and there are two images to put on one.
  lemma FailsByDrawing(root: Value, renders: seq<SheetItem> -> bool)
    requires forall chunk :: renders(chunk)
    ensures Compacted(root, renders).Some?
  {
  }

  lemma FailsWithoutDrawing(root: Value, before: seq<Value>, renders: seq<SheetItem> -> bool)
    requires Get(root, "media_results") == Some(Arr(before)) && |AllShown(before)| >= 2
    requires forall chunk :: !renders(chunk)
    ensures Compacted(root, renders).None?
  {
    NoUnits(before);
    if Units(before) == 1 {
      var i := SoleResult(before);
      NothingDrawn(before[i], renders);
    } else if AllCompact(before, renders) {
      CompactedCounts(before, renders);
      AllItemsCount(CompactedAll(before, renders));
      var chunks := Chunks(AllItems(CompactedAll(before, renders)));
      assert chunks != [] && !renders(chunks[0]);
    }
  }

  lemma NothingDrawn(result: Value, renders: seq<SheetItem> -> bool)
    requires |Shown(Listed(result))| >= 2 && forall chunk :: !renders(chunk)
    ensures CompactResult(result, renders) == None
  {
    PreviewsAreListed(result);
    ItemsAreShown(Previews(result), PathOf(result), 0);
    ShownIsShort(Previews(result));
    var chunks := Chunks(ResultItems(Previews(result), PathOf(result), 0));
    assert chunks != [] && !renders(chunks[0]);
  }

  // ---------------------------------------------------------------- captions

  // An item's caption: its number, and the preview's label, or its position in
  // its result when it has no text as label.
  lemma CaptionSays(preview: Value, url: PreviewText, path: string, position: nat, number: nat)
    ensures var item := ItemOf(preview, url, path, position, number);
      && item.url == url && item.detail == path
      && (forall name :: Get(preview, "label") == Some(Str(Plain(name))) ==>
            item.caption == "#" + Padded(number) + " " + name)
      && ((forall text :: Get(preview, "label") != Some(Str(text))) ==>
            item.caption == "#" + Padded(number) + " " + ("#" + Padded(position + 1)))
  {
    var name := Get(preview, "label");
    if name.Some? && name.value.Str? {
      assert name == Some(Str(name.value.text));
    }
  }

  lemma PathSays(result: Value)
    ensures forall path :: Get(result, "path") == Some(Str(Plain(path))) ==> PathOf(result) == path
    ensures forall items :: Get(result, "path") == Some(Str(SheetUrl(items))) ==> PathOf(result) == "data:image/jpeg;base64,"
    ensures (forall text :: Get(result, "path") != Some(Str(text))) ==> PathOf(result) == "media"
  {
    var path := Get(result, "path");
    if path.Some? && path.value.Str? {
      assert path == Some(Str(path.value.text));
    }
  }

  // A sheet says what it is, and lists the caption and the path of each item
  // it holds.
  lemma SheetLists(chunk: seq<SheetItem>)
    ensures var list := Get(SheetRecord(chunk), "items");
      && list.Some? && list.value.Arr? && |list.value.items| == |chunk|
      && forall i :: 0 <= i < |chunk| ==> Lists(list.value.items[i], chunk[i])
    ensures Get(SheetRecord(chunk), "type") == Some(Str(Plain("image_url")))
    ensures Get(SheetRecord(chunk), "label") == Some(Str(Plain("contact_sheet")))
    ensures Get(SheetRecord(chunk), "contact_sheet") == Some(Bool(true))
  {
    var fields := SheetRecord(chunk).fields;
    KeysDiffer(chunk);
    KeyIsFound(fields, 2);
    KeyIsFound(fields, 3);
    KeyIsFound(fields, 4);
    KeyIsFound(fields, 5);
    forall i | 0 <= i < |chunk| ensures Lists(ItemRecord(chunk[i]), chunk[i]) {
      ItemIsListed(chunk[i]);
    }
  }

  predicate Lists(record: Value, item: SheetItem) {
    Get(record, "label") == Some(Str(Plain(item.caption))) && Get(record, "path") == Some(Str(Plain(item.detail)))
  }

  lemma ItemIsListed(item: SheetItem)
    ensures Lists(ItemRecord(item), item)
  {
    var fields := ItemRecord(item).fields;
    assert fields[0].key[0] != fields[1].key[0];
    assert Lookup(fields[1..], "path") == Some(fields[1].value);
  }

  lemma KeysDiffer(chunk: seq<SheetItem>)
    ensures var fields := SheetRecord(chunk).fields;
      |fields| == 6 && forall j, k :: 0 <= j < k < 6 ==> fields[j].key != fields[k].key
  {
    var fields := SheetRecord(chunk).fields;
    assert |fields[0].key| == 9 && |fields[1].key| == 10 && |fields[2].key| == 5 && |fields[3].key| == 4;
    assert |fields[4].key| == 5 && |fields[5].key| == 13 && fields[2].key[0] == 'i' && fields[4].key[0] == 'l';
  }

  lemma {:induction false} KeyIsFound(fields: seq<Field<PreviewText>>, k: nat)
    requires k < |fields| && forall j :: 0 <= j < k ==> fields[j].key != fields[k].key
    ensures Lookup(fields, fields[k].key) == Some(fields[k].value)
  {
    if k > 0 {
      assert fields[0].key != fields[k].key;
      KeyIsFound(fields[1..], k - 1);
    }
  }
}
