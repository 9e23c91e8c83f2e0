// Compaction of image previews: first each result's previews, then those of all
// results together, are gathered into contact sheets of at most twelve images.
module ContactSheets {
  import opened Wrappers
  import opened Json
  import opened Sequences
  import opened SheetItems
  import opened Text

  const SHEET_SIZE: nat := 12

  type Value = Json<PreviewText>

  // ---------------------------------------------------------------- reading previews

  function PreviewUrl(preview: Value): Option<PreviewText> {
    match Get(preview, "image_url")
    case None => None
    case Some(image) => AsStr(Get(image, "url"))
  }

  function Previews(result: Value): seq<Value> {
    match AsArray(Get(result, "visual_previews"))
    case None => []
    case Some(items) => items
  }

  function TextOr(v: Option<Value>, fallback: string): string {
    var text: Option<PreviewText> := AsStr(v);
    if text.None? then fallback
    else if text.value.Plain? then text.value.chars
    else "data:image/jpeg;base64,"
  }

  // The item made of the preview at a position, numbered as the caller counts.
  function ItemOf(preview: Value, url: PreviewText, path: string, position: nat, number: nat): SheetItem {
    var name := TextOr(Get(preview, "label"), "#" + Padded(position + 1));
    SheetItem("#" + Padded(number) + " " + name, path, url)
  }

  function PathOf(result: Value): string { TextOr(Get(result, "path"), "media") }

  // One result's items: its previews that carry a URL, numbered by position.
  function ResultItems(previews: seq<Value>, path: string, position: nat): seq<SheetItem> {
    if previews == [] then []
    else
      var url := PreviewUrl(previews[0]);
      (if url.Some? then [ItemOf(previews[0], url.value, path, position, position + 1)] else [])
      + ResultItems(previews[1..], path, position + 1)
  }

  // ---------------------------------------------------------------- what a preview stands for

  function Flatten<T>(parts: seq<seq<T>>): seq<T> {
    if parts == [] then [] else parts[0] + Flatten(parts[1..])
  }

  lemma FlattenCons<T>(part: seq<T>, rest: seq<seq<T>>)
    ensures Flatten([part] + rest) == part + Flatten(rest)
  {
    assert ([part] + rest)[1..] == rest;
  }

  lemma FlattenStep<T>(part: seq<T>, a: seq<seq<T>>, b: seq<seq<T>>)
    requires Flatten(a + b) == Flatten(a) + Flatten(b)
    ensures Flatten([part] + a + b) == Flatten([part] + a) + Flatten(b)
  {
    FlattenCons(part, a);
    FlattenCons(part, a + b);
    Associate([part], a, b);
    Associate(part, Flatten(a), Flatten(b));
  }

  lemma {:induction false} FlattenConcat<T>(a: seq<seq<T>>, b: seq<seq<T>>)
    ensures Flatten(a + b) == Flatten(a) + Flatten(b)
  {
    if a == [] {
      assert a + b == b;
    } else {
      FlattenConcat(a[1..], b);
      FlattenStep(a[0], a[1..], b);
      assert [a[0]] + a[1..] == a;
    }
  }

  lemma FlattenSnoc<T>(a: seq<seq<T>>, part: seq<T>)
    ensures Flatten(a + [part]) == Flatten(a) + part
  {
    FlattenConcat(a, [part]);
    FlattenCons(part, []);
    assert [part] + [] == [part];
  }

  // The original images a URL stands for, in order.
  function Expand(url: PreviewText): seq<PreviewText> {
    match url
    case Plain(_) => [url]
    case SheetUrl(items) => Flatten(ItemParts(items))
  }

  function ItemParts(items: seq<SheetItem>): (parts: seq<seq<PreviewText>>)
    ensures |parts| == |items|
  {
    seq(|items|, i requires 0 <= i < |items| => Expand(items[i].url))
  }

  function ExpandItems(items: seq<SheetItem>): seq<PreviewText> { Flatten(ItemParts(items)) }

  function ExpandPreview(preview: Value): seq<PreviewText> {
    var url := PreviewUrl(preview);
    if url.Some? then Expand(url.value) else []
  }

  function PreviewParts(previews: seq<Value>): (parts: seq<seq<PreviewText>>)
    ensures |parts| == |previews|
  {
    seq(|previews|, i requires 0 <= i < |previews| => ExpandPreview(previews[i]))
  }

  function ExpandAll(previews: seq<Value>): seq<PreviewText> { Flatten(PreviewParts(previews)) }

  function ResultParts(results: seq<Value>): (parts: seq<seq<PreviewText>>)
    ensures |parts| == |results|
  {
    seq(|results|, i requires 0 <= i < |results| => ExpandAll(Previews(results[i])))
  }

  // Everything shown under the results, in order.
  function ExpandResults(results: seq<Value>): seq<PreviewText> { Flatten(ResultParts(results)) }

  lemma ItemsConcat(a: seq<SheetItem>, b: seq<SheetItem>)
    ensures ExpandItems(a + b) == ExpandItems(a) + ExpandItems(b)
  {
    assert ItemParts(a + b) == ItemParts(a) + ItemParts(b);
    FlattenConcat(ItemParts(a), ItemParts(b));
  }

  lemma ItemsSnoc(a: seq<SheetItem>, item: SheetItem)
    ensures ExpandItems(a + [item]) == ExpandItems(a) + Expand(item.url)
  {
    assert ItemParts(a + [item]) == ItemParts(a) + [Expand(item.url)];
    FlattenSnoc(ItemParts(a), Expand(item.url));
  }

  lemma PreviewsSnoc(a: seq<Value>, preview: Value)
    ensures ExpandAll(a + [preview]) == ExpandAll(a) + ExpandPreview(preview)
  {
    assert PreviewParts(a + [preview]) == PreviewParts(a) + [ExpandPreview(preview)];
    FlattenSnoc(PreviewParts(a), ExpandPreview(preview));
  }

  lemma ResultsSnoc(a: seq<Value>, result: Value)
    ensures ExpandResults(a + [result]) == ExpandResults(a) + ExpandAll(Previews(result))
  {
    assert ResultParts(a + [result]) == ResultParts(a) + [ExpandAll(Previews(result))];
    FlattenSnoc(ResultParts(a), ExpandAll(Previews(result)));
  }

  lemma PreviewsCons(preview: Value, rest: seq<Value>)
    ensures ExpandAll([preview] + rest) == ExpandPreview(preview) + ExpandAll(rest)
  {
    assert PreviewParts([preview] + rest) == [ExpandPreview(preview)] + PreviewParts(rest);
    FlattenCons(ExpandPreview(preview), PreviewParts(rest));
  }

  lemma ItemsOne(item: SheetItem)
    ensures ExpandItems([item]) == Expand(item.url)
  {
    ItemsSnoc([], item);
    assert [] + [item] == [item];
  }

  lemma {:induction false} ItemsKeepImages(previews: seq<Value>, path: string, position: nat)
    ensures ExpandItems(ResultItems(previews, path, position)) == ExpandAll(previews)
  {
    if previews != [] {
      var rest := ResultItems(previews[1..], path, position + 1);
      ItemsKeepImages(previews[1..], path, position + 1);
      PreviewsCons(previews[0], previews[1..]);
      assert [previews[0]] + previews[1..] == previews;
      var url := PreviewUrl(previews[0]);
      if url.Some? {
        var item := ItemOf(previews[0], url.value, path, position, position + 1);
        ItemsConcat([item], rest);
        ItemsOne(item);
      } else {
        assert [] + rest == rest;
      }
    }
  }

  // ---------------------------------------------------------------- sheets

  function Chunks(items: seq<SheetItem>): seq<seq<SheetItem>>
    decreases |items|
  {
    if items == [] then []
    else if |items| <= SHEET_SIZE then [items]
    else [items[..SHEET_SIZE]] + Chunks(items[SHEET_SIZE..])
  }

  function ItemRecord(item: SheetItem): Value {
    Obj([Field("label", Str(Plain(item.caption))), Field("path", Str(Plain(item.detail)))])
  }

  function SheetRecord(chunk: seq<SheetItem>): Value {
    Obj([ Field("image_url", Obj([Field("url", Str(SheetUrl(chunk)))])),
          Field("item_count", Number(|chunk|)),
          Field("items", Arr(seq(|chunk|, i requires 0 <= i < |chunk| => ItemRecord(chunk[i])))),
          Field("type", Str(Plain("image_url"))),
          Field("label", Str(Plain("contact_sheet"))),
          Field("contact_sheet", Bool(true)) ])
  }

  function SheetRecords(chunks: seq<seq<SheetItem>>): (records: seq<Value>)
    ensures |records| == |chunks|
  {
    seq(|chunks|, i requires 0 <= i < |chunks| => SheetRecord(chunks[i]))
  }

  lemma SheetRecordReads(chunk: seq<SheetItem>)
    ensures PreviewUrl(SheetRecord(chunk)) == Some(SheetUrl(chunk))
    ensures Get(SheetRecord(chunk), "item_count") == Some(Number(|chunk|))
  {
    var fields := SheetRecord(chunk).fields;
    assert fields[0].key == "image_url" && fields[1].key == "item_count";
    assert fields[0].key != "item_count" by { assert fields[0].key[1] == 'm'; }
    assert Lookup(fields[1..], "item_count") == Some(fields[1].value);
  }

  // Every sheet is full but possibly the last, and none is empty.
  lemma {:induction false} SheetsAreFull(items: seq<SheetItem>, k: nat)
    requires k < |Chunks(items)|
    ensures 1 <= |Chunks(items)[k]| <= SHEET_SIZE
    ensures k < |Chunks(items)| - 1 ==> |Chunks(items)[k]| == SHEET_SIZE
    decreases |items|
  {
    if |items| > SHEET_SIZE && k > 0 {
      SheetsAreFull(items[SHEET_SIZE..], k - 1);
    }
  }

  // The sheets made of some items stand for exactly their images, in order.
  lemma {:induction false} SheetsKeepImages(items: seq<SheetItem>)
    ensures ExpandAll(SheetRecords(Chunks(items))) == ExpandItems(items)
    decreases |items|
  {
    if items == [] {
    } else if |items| <= SHEET_SIZE {
      OneSheet(items, []);
      assert SheetRecords([items]) == [SheetRecord(items)] + [];
    } else {
      var head, tail := items[..SHEET_SIZE], items[SHEET_SIZE..];
      SheetsKeepImages(tail);
      OneMoreSheet(head, tail, Chunks(tail));
      assert head + tail == items;
    }
  }

  lemma OneSheet(chunk: seq<SheetItem>, rest: seq<Value>)
    ensures ExpandAll([SheetRecord(chunk)] + rest) == ExpandItems(chunk) + ExpandAll(rest)
  {
    SheetRecordReads(chunk);
    PreviewsCons(SheetRecord(chunk), rest);
  }

  lemma OneMoreSheet(head: seq<SheetItem>, tail: seq<SheetItem>, chunks: seq<seq<SheetItem>>)
    requires ExpandAll(SheetRecords(chunks)) == ExpandItems(tail)
    ensures ExpandAll(SheetRecords([head] + chunks)) == ExpandItems(head + tail)
  {
    OneSheet(head, SheetRecords(chunks));
    ItemsConcat(head, tail);
    assert SheetRecords([head] + chunks) == [SheetRecord(head)] + SheetRecords(chunks);
  }

  // ---------------------------------------------------------------- lists and counts

  // A preview list whose count field, if it is to be trusted, is its length.
  predicate CountMatches(holder: Value) {
    AsArray(Get(holder, "visual_previews")).Some? ==>
      Get(holder, "visual_preview_count") == Some(Number(|Previews(holder)|))
  }

  function WithPreviews(holder: Value, previews: seq<Value>, mark: string, value: Value): Value {
    Set(Set(Set(holder, "visual_previews", Arr(previews)), "visual_preview_count", Number(|previews|)), mark, value)
  }

  lemma WithPreviewsReads(holder: Value, previews: seq<Value>, mark: string, value: Value)
    requires holder.Obj? && mark != "visual_previews" && mark != "visual_preview_count"
    ensures var h := WithPreviews(holder, previews, mark, value);
            && h.Obj? && Previews(h) == previews && CountMatches(h)
            && Get(h, mark) == Some(value) && Get(h, "visual_preview_count") == Some(Number(|previews|))
            && forall key :: key != "visual_previews" && key != "visual_preview_count" && key != mark ==>
                 Get(h, key) == Get(holder, key)
  {
    var h1 := Set(holder, "visual_previews", Arr(previews));
    var h2 := Set(h1, "visual_preview_count", Number(|previews|));
    assert "visual_previews" != "visual_preview_count" by {
      assert |"visual_previews"| != |"visual_preview_count"|;
    }
    forall key ensures Get(h1, key) == if key == "visual_previews" then Some(Arr(previews)) else Get(holder, key) {
      GetSet(holder, "visual_previews", Arr(previews), key);
    }
    forall key ensures Get(h2, key) == if key == "visual_preview_count" then Some(Number(|previews|)) else Get(h1, key) {
      GetSet(h1, "visual_preview_count", Number(|previews|), key);
    }
    forall key ensures Get(Set(h2, mark, value), key) == if key == mark then Some(value) else Get(h2, key) {
      GetSet(h2, mark, value, key);
    }
  }

  // ---------------------------------------------------------------- one result

  // Decoding and drawing a sheet is another library's work; it fails or not
  // depending on the chunk.
  predicate AllRender(chunks: seq<seq<SheetItem>>, renders: seq<SheetItem> -> bool) {
    forall k :: 0 <= k < |chunks| ==> renders(chunks[k])
  }

  function CompactResult(result: Value, renders: seq<SheetItem> -> bool): Option<Value> {
    var previews := Previews(result);
    var items := ResultItems(previews, PathOf(result), 0);
    if |previews| <= 1 || |items| <= 1 then Some(result)
    else if !AllRender(Chunks(items), renders) then None
    else Some(WithPreviews(result, SheetRecords(Chunks(items)), "visual_contact_sheet", Bool(true)))
  }

  lemma CompactResultKeeps(result: Value, renders: seq<SheetItem> -> bool)
    requires CompactResult(result, renders).Some?
    ensures var r := CompactResult(result, renders).value;
            && ExpandAll(Previews(r)) == ExpandAll(Previews(result))
            && (CountMatches(result) ==> CountMatches(r))
            && (r == result || exists items :: Previews(r) == SheetRecords(Chunks(items)))
            && (r == result || Get(r, "visual_contact_sheet") == Some(Bool(true)))
  {
    var previews := Previews(result);
    var items := ResultItems(previews, PathOf(result), 0);
    if |previews| > 1 && |items| > 1 {
      ItemsKeepImages(previews, PathOf(result), 0);
      SheetsKeepImages(items);
      WithPreviewsReads(result, SheetRecords(Chunks(items)), "visual_contact_sheet", Bool(true));
    }
  }

  // ---------------------------------------------------------------- the whole output

  function Results(root: Value): Option<seq<Value>> { AsArray(Get(root, "media_results")) }

  predicate AllCompact(results: seq<Value>, renders: seq<SheetItem> -> bool) {
    forall i :: 0 <= i < |results| ==> CompactResult(results[i], renders).Some?
  }

  // First level: every result on its own.
  function CompactedAll(results: seq<Value>, renders: seq<SheetItem> -> bool): (compacted: seq<Value>)
    requires AllCompact(results, renders)
    ensures |compacted| == |results|
  {
    seq(|results|, i requires 0 <= i < |results| => CompactResult(results[i], renders).value)
  }

  // A preview with a URL becomes the next item, numbered across all results.
  function WithItem(gathered: seq<SheetItem>, preview: Value, path: string, index: nat): seq<SheetItem> {
    var url := PreviewUrl(preview);
    if url.Some? then gathered + [ItemOf(preview, url.value, path, index, |gathered| + 1)] else gathered
  }

  function WithResult(gathered: seq<SheetItem>, previews: seq<Value>, path: string): seq<SheetItem> {
    if previews == [] then gathered
    else
      var n := |previews| - 1;
      WithItem(WithResult(gathered, previews[..n], path), previews[n], path, n)
  }

  // Second level: the URL-bearing previews of all results, in order.
  function AllItems(results: seq<Value>): seq<SheetItem> {
    if results == [] then []
    else
      var last := results[|results| - 1];
      WithResult(AllItems(results[..|results| - 1]), Previews(last), PathOf(last))
  }

  // The result after its previews have moved to the top level.
  function Emptied(result: Value): Value {
    if Previews(result) == [] then result
    else WithPreviews(result, [], "visual_previews_compacted_into", Str(Plain("top_level_contact_sheet")))
  }

  function EmptiedAll(results: seq<Value>): (emptied: seq<Value>)
    ensures |emptied| == |results|
  {
    seq(|results|, i requires 0 <= i < |results| => Emptied(results[i]))
  }

  // The output after both levels, or None when a sheet could not be drawn.
  function Compacted(root: Value, renders: seq<SheetItem> -> bool): Option<Value> {
    match Results(root)
    case None => Some(root)
    case Some(results) =>
      if AllCompact(results, renders) then SecondLevel(root, CompactedAll(results, renders), renders) else None
  }

  // A single image needs no sheet; otherwise all images move to the top.
  function SecondLevel(root: Value, compacted: seq<Value>, renders: seq<SheetItem> -> bool): Option<Value> {
    var items := AllItems(compacted);
    if |items| <= 1 then Some(Set(root, "media_results", Arr(compacted)))
    else if AllRender(Chunks(items), renders) then Some(AtTop(root, compacted, items))
    else None
  }

  function AtTop(root: Value, compacted: seq<Value>, items: seq<SheetItem>): Value {
    WithPreviews(Set(root, "media_results", Arr(EmptiedAll(compacted))), SheetRecords(Chunks(items)),
                 "visual_contact_sheet", Bool(true))
  }

  lemma EmptiedReads(result: Value)
    ensures Previews(Emptied(result)) == [] && (CountMatches(result) ==> CountMatches(Emptied(result)))
    ensures Previews(result) != [] ==>
      Get(Emptied(result), "visual_previews_compacted_into") == Some(Str(Plain("top_level_contact_sheet")))
  {
    if Previews(result) != [] {
      WithPreviewsReads(result, [], "visual_previews_compacted_into", Str(Plain("top_level_contact_sheet")));
    }
  }

  lemma {:induction false} ResultItemsKeepImages(gathered: seq<SheetItem>, previews: seq<Value>, path: string)
    ensures ExpandItems(WithResult(gathered, previews, path)) == ExpandItems(gathered) + ExpandAll(previews)
    decreases |previews|
  {
    if previews == [] {
      assert ExpandItems(gathered) + [] == ExpandItems(gathered);
    } else {
      var n := |previews| - 1;
      ResultItemsKeepImages(gathered, previews[..n], path);
      ItemKeepsImages(WithResult(gathered, previews[..n], path), previews[n], path, n);
      PreviewsSnoc(previews[..n], previews[n]);
      assert previews[..n] + [previews[n]] == previews;
      Associate(ExpandItems(gathered), ExpandAll(previews[..n]), ExpandPreview(previews[n]));
    }
  }

  lemma ItemKeepsImages(gathered: seq<SheetItem>, preview: Value, path: string, index: nat)
    ensures ExpandItems(WithItem(gathered, preview, path, index)) == ExpandItems(gathered) + ExpandPreview(preview)
  {
    var url := PreviewUrl(preview);
    if url.Some? {
      ItemsSnoc(gathered, ItemOf(preview, url.value, path, index, |gathered| + 1));
    } else {
      assert ExpandItems(gathered) + [] == ExpandItems(gathered);
    }
  }

  lemma {:induction false} AllItemsKeepImages(results: seq<Value>)
    ensures ExpandItems(AllItems(results)) == ExpandResults(results)
    decreases |results|
  {
    if results != [] {
      var n := |results| - 1;
      AllItemsKeepImages(results[..n]);
      ResultItemsKeepImages(AllItems(results[..n]), Previews(results[n]), PathOf(results[n]));
      ResultsSnoc(results[..n], results[n]);
      assert results[..n] + [results[n]] == results;
    }
  }

  predicate Numbered(item: SheetItem, n: nat) { "#" + Padded(n) <= item.caption }

  predicate NumberedFromOne(items: seq<SheetItem>) {
    forall k :: 0 <= k < |items| ==> Numbered(items[k], k + 1)
  }

  lemma ItemIsNumbered(preview: Value, url: PreviewText, path: string, index: nat, n: nat)
    ensures Numbered(ItemOf(preview, url, path, index, n), n)
  {
    var number := "#" + Padded(n);
    var caption := ItemOf(preview, url, path, index, n).caption;
    assert caption == number + caption[|number|..];
  }

  lemma OneMoreNumbered(items: seq<SheetItem>, item: SheetItem)
    requires NumberedFromOne(items) && Numbered(item, |items| + 1)
    ensures NumberedFromOne(items + [item])
  {
  }

  lemma ItemNumbered(gathered: seq<SheetItem>, preview: Value, path: string, index: nat)
    requires NumberedFromOne(gathered)
    ensures NumberedFromOne(WithItem(gathered, preview, path, index))
  {
    var url := PreviewUrl(preview);
    if url.Some? {
      ItemIsNumbered(preview, url.value, path, index, |gathered| + 1);
      OneMoreNumbered(gathered, ItemOf(preview, url.value, path, index, |gathered| + 1));
    }
  }

  lemma {:induction false} ResultItemsNumbered(gathered: seq<SheetItem>, previews: seq<Value>, path: string)
    requires NumberedFromOne(gathered)
    ensures NumberedFromOne(WithResult(gathered, previews, path))
    decreases |previews|
  {
    if previews != [] {
      var n := |previews| - 1;
      ResultItemsNumbered(gathered, previews[..n], path);
      ItemNumbered(WithResult(gathered, previews[..n], path), previews[n], path, n);
    }
  }

  // Items are numbered from one, without gaps, across all results.
  lemma {:induction false} AllItemsNumbered(results: seq<Value>)
    ensures NumberedFromOne(AllItems(results))
    decreases |results|
  {
    if results != [] {
      var last := results[|results| - 1];
      AllItemsNumbered(results[..|results| - 1]);
      ResultItemsNumbered(AllItems(results[..|results| - 1]), Previews(last), PathOf(last));
    }
  }

  lemma KeepTop(root: Value, results: seq<Value>)
    requires root.Obj?
    ensures var r := Set(root, "media_results", Arr(results));
            && r.Obj? && Results(r) == Some(results)
            && Get(r, "visual_previews") == Get(root, "visual_previews")
            && Get(r, "visual_preview_count") == Get(root, "visual_preview_count")
  {
    GetSet(root, "media_results", Arr(results), "media_results");
    GetSet(root, "media_results", Arr(results), "visual_previews");
    GetSet(root, "media_results", Arr(results), "visual_preview_count");
    assert "media_results"[0] != "visual_previews"[0] && "media_results"[0] != "visual_preview_count"[0];
  }

  lemma CompactedAllKeeps(results: seq<Value>, renders: seq<SheetItem> -> bool)
    requires AllCompact(results, renders)
    ensures var c := CompactedAll(results, renders);
      && ExpandResults(c) == ExpandResults(results)
      && forall i :: 0 <= i < |results| && CountMatches(results[i]) ==> CountMatches(c[i])
  {
    var c := CompactedAll(results, renders);
    forall i | 0 <= i < |results|
      ensures ExpandAll(Previews(c[i])) == ExpandAll(Previews(results[i])) && (CountMatches(results[i]) ==> CountMatches(c[i]))
    {
      CompactResultKeeps(results[i], renders);
    }
    assert ResultParts(c) == ResultParts(results);
  }

  lemma MarkedReads(holder: Value, previews: seq<Value>)
    requires holder.Obj?
    ensures var h := WithPreviews(holder, previews, "visual_contact_sheet", Bool(true));
      && Previews(h) == previews && CountMatches(h)
      && Get(h, "visual_contact_sheet") == Some(Bool(true)) && Get(h, "media_results") == Get(holder, "media_results")
  {
    assert "media_results"[0] != "visual_previews"[0] && "media_results"[0] != "visual_preview_count"[0]
           && "media_results"[0] != "visual_contact_sheet"[0];
    WithPreviewsReads(holder, previews, "visual_contact_sheet", Bool(true));
  }

  lemma AtTopReads(root: Value, compacted: seq<Value>, items: seq<SheetItem>)
    requires root.Obj?
    ensures var top := AtTop(root, compacted, items);
      && Results(top) == Some(EmptiedAll(compacted)) && Previews(top) == SheetRecords(Chunks(items)) && CountMatches(top)
      && Get(top, "visual_contact_sheet") == Some(Bool(true))
  {
    KeepTop(root, EmptiedAll(compacted));
    MarkedReads(Set(root, "media_results", Arr(EmptiedAll(compacted))), SheetRecords(Chunks(items)));
  }

  // When compaction succeeds, the images the previews stood for are all still
  // there, each once and in the same order: in the results when there is at
  // most one, otherwise in the sheets at the top while no result keeps any.
  // Count fields that matched their lists still do, at the top too.
  lemma CompactionKeepsImages(root: Value, renders: seq<SheetItem> -> bool)
    requires Results(root).Some? && Compacted(root, renders).Some?
    ensures var before, after := Results(root).value, Compacted(root, renders).value;
      && Results(after).Some? && |Results(after).value| == |before|
      && (forall i :: 0 <= i < |before| && CountMatches(before[i]) ==> CountMatches(Results(after).value[i]))
      && (if |AllItems(CompactedAll(before, renders))| <= 1 then
            && ExpandResults(Results(after).value) == ExpandResults(before)
            && Get(after, "visual_previews") == Get(root, "visual_previews")
            && Get(after, "visual_preview_count") == Get(root, "visual_preview_count")
            && (CountMatches(root) ==> CountMatches(after))
          else
            && ExpandAll(Previews(after)) == ExpandResults(before)
            && ExpandResults(Results(after).value) == []
            && CountMatches(after))
  {
    var before := Results(root).value;
    var compacted := CompactedAll(before, renders);
    var items := AllItems(compacted);
    CompactedAllKeeps(before, renders);
    if |items| <= 1 {
      KeepTop(root, compacted);
    } else {
      AtTopReads(root, compacted, items);
      forall i | 0 <= i < |before|
        ensures Previews(EmptiedAll(compacted)[i]) == []
        ensures CountMatches(compacted[i]) ==> CountMatches(EmptiedAll(compacted)[i])
      {
        EmptiedReads(compacted[i]);
      }
      NoPreviewsNoImages(EmptiedAll(compacted));
      AllItemsKeepImages(compacted);
      SheetsKeepImages(items);
    }
  }

  lemma {:induction false} NoPreviewsNoImages(results: seq<Value>)
    requires forall i :: 0 <= i < |results| ==> Previews(results[i]) == []
    ensures ExpandResults(results) == []
    decreases |results|
  {
    if results != [] {
      var n := |results| - 1;
      NoPreviewsNoImages(results[..n]);
      ResultsSnoc(results[..n], results[n]);
      assert results[..n] + [results[n]] == results;
    }
  }

  // ---------------------------------------------------------------- how it is done

  class MediaOutput {
    var root: Value

    constructor (root: Value)
      ensures this.root == root
    {
      this.root := root;
    }

    // Rewrites the output in place, in two levels.
    method CompactVisualPreviews(renders: seq<SheetItem> -> bool) returns (ok: bool)
      modifies this
      ensures ok <==> Compacted(old(root), renders).Some?
      ensures ok ==> root == Compacted(old(root), renders).value
    {
      var found := Results(root);
      if found.None? {
        return true;
      }
      var compacted;
      ok, compacted := CompactEach(found.value, renders);
      if !ok {
        return;
      }
      var aggregate := Aggregate(compacted);
      if |aggregate| <= 1 {
        root := Set(root, "media_results", Arr(compacted));
        return;
      }
      if !AllRender(Chunks(aggregate), renders) {
        return false;
      }
      var emptied := EmptyEach(compacted);
      root := Set(root, "media_results", Arr(emptied));
      root := WithPreviews(root, SheetRecords(Chunks(aggregate)), "visual_contact_sheet", Bool(true));
    }
  }

  method EmptyEach(results: seq<Value>) returns (emptied: seq<Value>)
    ensures emptied == EmptiedAll(results)
  {
    emptied := results;
    for i := 0 to |results|
      invariant |emptied| == |results|
      invariant forall k :: 0 <= k < i ==> emptied[k] == Emptied(results[k])
      invariant forall k :: i <= k < |results| ==> emptied[k] == results[k]
    {
      emptied := emptied[i := Emptied(emptied[i])];
    }
  }

  predicate CompactsTo(result: Value, compacted: Value, renders: seq<SheetItem> -> bool) {
    CompactResult(result, renders) == Some(compacted)
  }

  lemma EachCompacts(results: seq<Value>, compacted: seq<Value>, renders: seq<SheetItem> -> bool)
    requires |compacted| == |results|
    requires forall k :: 0 <= k < |results| ==> CompactsTo(results[k], compacted[k], renders)
    ensures AllCompact(results, renders) && compacted == CompactedAll(results, renders)
  {
  }

  // Stops at the first result that fails.
  method CompactEach(results: seq<Value>, renders: seq<SheetItem> -> bool) returns (ok: bool, compacted: seq<Value>)
    ensures ok <==> AllCompact(results, renders)
    ensures ok ==> compacted == CompactedAll(results, renders)
  {
    compacted := results;
    for i := 0 to |results|
      invariant |compacted| == |results|
      invariant forall k :: 0 <= k < i ==> CompactsTo(results[k], compacted[k], renders)
      invariant forall k :: i <= k < |results| ==> compacted[k] == results[k]
    {
      var one := CompactResult(results[i], renders);
      if one.None? {
        ok := false;
        return;
      }
      compacted := compacted[i := one.value];
    }
    EachCompacts(results, compacted, renders);
    ok := true;
  }

  method AggregateResult(result: Value, gathered: seq<SheetItem>) returns (aggregate: seq<SheetItem>)
    ensures aggregate == WithResult(gathered, Previews(result), PathOf(result))
  {
    aggregate := gathered;
    var path := PathOf(result);
    var previews := Previews(result);
    for index := 0 to |previews|
      invariant aggregate == WithResult(gathered, previews[..index], path)
    {
      assert previews[..index + 1][..index] == previews[..index];
      aggregate := WithItem(aggregate, previews[index], path, index);
    }
    assert previews[..|previews|] == previews;
  }

  method Aggregate(results: seq<Value>) returns (aggregate: seq<SheetItem>)
    ensures aggregate == AllItems(results)
  {
    aggregate := [];
    for i := 0 to |results|
      invariant aggregate == AllItems(results[..i])
    {
      assert results[..i + 1][..i] == results[..i];
      aggregate := AggregateResult(results[i], aggregate);
    }
    assert results[..|results|] == results;
  }
}
