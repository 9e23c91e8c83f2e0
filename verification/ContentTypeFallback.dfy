// Replacing the content blocks of a media type the provider rejected by a text
// placeholder, anywhere in a message.
module ContentTypeFallback {
  import opened Wrappers
  import opened Text
  import opened Json

  type Value = Json<string>

  // ------------------------------------------------ which type is rejected

  datatype Fallback =
    | RetryWithoutContent(contentType: string)
    | UnsupportedRequiredContent(contentType: string)

  predicate Contains(s: string, part: string)
    decreases |s|
  {
    part <= s || (s != [] && Contains(s[1..], part))
  }

  const MEDIA_TYPES := ["input_file", "input_image", "input_audio"]

  predicate RejectsValue(error: string, contentType: string) {
    Contains(error, "invalid value") &&
    (Contains(error, "'" + contentType + "'") || Contains(error, "\"" + contentType + "\""))
  }

  function FirstRejected(error: string, types: seq<string>): Option<Fallback> {
    if types == [] then None
    else if RejectsValue(error, types[0]) then Some(RetryWithoutContent(types[0]))
    else FirstRejected(error, types[1..])
  }

  // provider_media_fallback
  function ProviderMediaFallback(errorText: string): Option<Fallback> {
    var error := Lower(errorText);
    if Contains(error, "invalid file data") || Contains(error, "unsupported mime type") then
      Some(RetryWithoutContent("input_file"))
    else if Contains(error, "no endpoints found") && Contains(error, "image input") then
      Some(UnsupportedRequiredContent("input_image"))
    else if Contains(error, "no endpoints found") && Contains(error, "audio input") then
      Some(UnsupportedRequiredContent("input_audio"))
    else FirstRejected(error, MEDIA_TYPES)
  }

  lemma {:induction false} FirstRejectedIsListed(error: string, types: seq<string>)
    ensures var r := FirstRejected(error, types); r.Some? ==> r.value.RetryWithoutContent? && r.value.contentType in types
  {
    if types != [] && !RejectsValue(error, types[0]) {
      FirstRejectedIsListed(error, types[1..]);
    }
  }

  // Whatever the provider says, the type to replace is a media type, never
  // the type of the placeholder.
  lemma FallbackIsMedia(errorText: string)
    requires ProviderMediaFallback(errorText).Some?
    ensures ProviderMediaFallback(errorText).value.contentType in MEDIA_TYPES
    ensures ProviderMediaFallback(errorText).value.contentType != "input_text"
  {
    FirstRejectedIsListed(Lower(errorText), MEDIA_TYPES);
    MediaTypesAreNotText(ProviderMediaFallback(errorText).value.contentType);
  }

  lemma MediaTypesAreNotText(contentType: string)
    requires contentType in ["input_file", "input_image", "input_audio"]
    ensures contentType != "input_text"
  {
    assert "input_file"[6] == 'f';
    assert "input_text"[6] == 't';
  }

  // The phrase occurs somewhere in the error, in either case.
  ghost predicate Says(errorText: string, phrase: string) { OccursIn(Lower(errorText), phrase) }

  ghost predicate OccursIn(s: string, part: string) { exists k :: 0 <= k <= |s| && part <= s[k..] }

  lemma {:induction false} ContainsIsOccurring(s: string, part: string)
    ensures Contains(s, part) <==> OccursIn(s, part)
  {
    assert s[0..] == s;
    if s != [] {
      ContainsIsOccurring(s[1..], part);
      assert forall k :: 1 <= k <= |s| ==> s[k..] == s[1..][k - 1..];
    }
  }

  ghost predicate SaysInvalid(errorText: string, contentType: string) {
    && Says(errorText, "invalid value")
    && (Says(errorText, "'" + contentType + "'") || Says(errorText, "\"" + contentType + "\""))
  }

  lemma RejectsWhatItSays(errorText: string, contentType: string)
    ensures RejectsValue(Lower(errorText), contentType) <==> SaysInvalid(errorText, contentType)
  {
    var error := Lower(errorText);
    ContainsIsOccurring(error, "invalid value");
    ContainsIsOccurring(error, "'" + contentType + "'");
    ContainsIsOccurring(error, "\"" + contentType + "\"");
  }

  // The fallback is decided by the phrases the error has, an earlier one
  // before a later one, and there is none without them.
  lemma FallbackIsWhatItSays(errorText: string)
    ensures var r := ProviderMediaFallback(errorText);
      if Says(errorText, "invalid file data") || Says(errorText, "unsupported mime type") then
        r == Some(RetryWithoutContent("input_file"))
      else if Says(errorText, "no endpoints found") && Says(errorText, "image input") then
        r == Some(UnsupportedRequiredContent("input_image"))
      else if Says(errorText, "no endpoints found") && Says(errorText, "audio input") then
        r == Some(UnsupportedRequiredContent("input_audio"))
      else if SaysInvalid(errorText, "input_file") then r == Some(RetryWithoutContent("input_file"))
      else if SaysInvalid(errorText, "input_image") then r == Some(RetryWithoutContent("input_image"))
      else if SaysInvalid(errorText, "input_audio") then r == Some(RetryWithoutContent("input_audio"))
      else r == None
  {
    var error := Lower(errorText);
    ContainsIsOccurring(error, "invalid file data");
    ContainsIsOccurring(error, "unsupported mime type");
    ContainsIsOccurring(error, "no endpoints found");
    ContainsIsOccurring(error, "image input");
    ContainsIsOccurring(error, "audio input");
    FirstOfThree(errorText);
  }

  lemma FirstOfThree(errorText: string)
    ensures FirstRejected(Lower(errorText), MEDIA_TYPES) ==
      if SaysInvalid(errorText, "input_file") then Some(RetryWithoutContent("input_file"))
      else if SaysInvalid(errorText, "input_image") then Some(RetryWithoutContent("input_image"))
      else if SaysInvalid(errorText, "input_audio") then Some(RetryWithoutContent("input_audio"))
      else None
  {
    var error := Lower(errorText);
    RejectsWhatItSays(errorText, "input_file");
    RejectsWhatItSays(errorText, "input_image");
    RejectsWhatItSays(errorText, "input_audio");
    assert FirstRejected(error, MEDIA_TYPES[3..]) == None;
    assert FirstRejected(error, MEDIA_TYPES[2..]) ==
           if SaysInvalid(errorText, "input_audio") then Some(RetryWithoutContent("input_audio")) else None;
    assert MEDIA_TYPES[1..][1..] == MEDIA_TYPES[2..];
  }

  // -------------------------------------------------------- values as trees

  // The array and object children of a value, in order.
  function Children(v: Value): (children: seq<Value>)
    ensures forall i :: 0 <= i < |children| ==> children[i] < v
  {
    match v
    case Arr(items) => items
    case Obj(fields) => seq(|fields|, i requires 0 <= i < |fields| => fields[i].value)
    case _ => []
  }

  // The same array or object with other children.
  function WithChildren(v: Value, children: seq<Value>): (r: Value)
    requires |children| == |Children(v)|
    ensures Children(r) == children
  {
    match v
    case Arr(_) => Arr(children)
    case Obj(fields) => Obj(seq(|fields|, i requires 0 <= i < |fields| => Field(fields[i].key, children[i])))
    case _ => v
  }

  lemma SameChildren(v: Value)
    ensures WithChildren(v, Children(v)) == v
  {
    if v.Obj? {
      assert WithChildren(v, Children(v)).fields == v.fields;
    }
  }

  lemma WithChildrenTwice(v: Value, first: seq<Value>, second: seq<Value>)
    requires |first| == |second| == |Children(v)|
    ensures WithChildren(WithChildren(v, first), second) == WithChildren(v, second)
  {
    if v.Obj? {
      assert WithChildren(WithChildren(v, first), second).fields == WithChildren(v, second).fields;
    }
  }

  // A place in the tree: the child to take at each level.
  type Path = seq<nat>

  function NodeAt(v: Value, path: Path): Option<Value>
    decreases |path|
  {
    if path == [] then Some(v)
    else if path[0] < |Children(v)| then NodeAt(Children(v)[path[0]], path[1..])
    else None
  }

  predicate IsBlock(v: Value, contentType: string) {
    AsStr(Get(v, "type")) == Some(contentType)
  }

  predicate BlockAt(v: Value, path: Path, contentType: string) {
    var node := NodeAt(v, path);
    node.Some? && IsBlock(node.value, contentType)
  }

  // No block on the way to the place.
  predicate Exposed(v: Value, path: Path, contentType: string) {
    forall k :: 0 <= k < |path| ==> !BlockAt(v, path[..k], contentType)
  }

  // ------------------------------------------------------- the replacement

  function Placeholder(contentType: string): Value {
    Obj([
      Field("type", Str("input_text")),
      Field("text", Str("[Unsupported media omitted: provider rejected `" + contentType + "` content.]"))])
  }

  function Replaced(v: Value, contentType: string): Value
    decreases v
  {
    if IsBlock(v, contentType) then Placeholder(contentType)
    else
      var children := Children(v);
      WithChildren(v, seq(|children|, i requires 0 <= i < |children| => Replaced(children[i], contentType)))
  }

  function Under(k: nat, paths: seq<Path>): seq<Path> {
    seq(|paths|, i requires 0 <= i < |paths| => [k] + paths[i])
  }

  // The places of the matching blocks that have no matching ancestor.
  function Outermost(v: Value, contentType: string): seq<Path>
    decreases v, |Children(v)| + 1
  {
    if IsBlock(v, contentType) then [[]] else OutermostFrom(v, contentType, 0)
  }

  function OutermostFrom(v: Value, contentType: string, k: nat): seq<Path>
    requires k <= |Children(v)|
    decreases v, |Children(v)| - k
  {
    if k == |Children(v)| then []
    else Under(k, Outermost(Children(v)[k], contentType)) + OutermostFrom(v, contentType, k + 1)
  }

  method ReplaceUnsupported(v: Value, contentType: string) returns (r: Value, count: nat)
    ensures r == Replaced(v, contentType)
    ensures count == |Outermost(v, contentType)|
    decreases v, 1
  {
    if IsBlock(v, contentType) {
      return Placeholder(contentType), 1;
    }
    var replaced;
    replaced, count := ReplaceChildren(v, contentType);
    ReplacedFrom(v, contentType, replaced);
    r := WithChildren(v, replaced);
  }

  method ReplaceChildren(v: Value, contentType: string) returns (replaced: seq<Value>, count: nat)
    ensures AllReplaced(Children(v), replaced, contentType)
    ensures count == |OutermostFrom(v, contentType, 0)|
    decreases v, 0
  {
    var children := Children(v);
    replaced := [];
    count := 0;
    ghost var total: nat := |OutermostFrom(v, contentType, 0)|;
    ghost var left: nat := total;
    for i := 0 to |children|
      invariant AllReplaced(children[..i], replaced, contentType)
      invariant IsLeft(v, contentType, i, left) && count + left == total
    {
      left := CountHere(v, contentType, i, left);
      var child, n := ReplaceUnsupported(children[i], contentType);
      OneMoreReplaced(children, i, replaced, child, contentType);
      replaced := replaced + [child];
      count := count + n;
    }
    NoneLeft(v, contentType, left);
    assert children[..|children|] == children;
  }

  predicate AllReplaced(children: seq<Value>, replaced: seq<Value>, contentType: string) {
    |replaced| == |children| && forall j :: 0 <= j < |replaced| ==> replaced[j] == Replaced(children[j], contentType)
  }

  lemma OneMoreReplaced(children: seq<Value>, i: nat, replaced: seq<Value>, child: Value, contentType: string)
    requires i < |children| && AllReplaced(children[..i], replaced, contentType)
    requires child == Replaced(children[i], contentType)
    ensures AllReplaced(children[..i + 1], replaced + [child], contentType)
  {
  }

  // The children from k on have so many outermost blocks.
  predicate IsLeft(v: Value, contentType: string, k: nat, left: nat) {
    k <= |Children(v)| && left == |OutermostFrom(v, contentType, k)|
  }

  lemma CountHere(v: Value, contentType: string, k: nat, left: nat) returns (later: nat)
    requires k < |Children(v)| && IsLeft(v, contentType, k, left)
    ensures IsLeft(v, contentType, k + 1, later) && left == |Outermost(Children(v)[k], contentType)| + later
  {
    later := |OutermostFrom(v, contentType, k + 1)|;
  }

  lemma NoneLeft(v: Value, contentType: string, left: nat)
    requires IsLeft(v, contentType, |Children(v)|, left)
    ensures left == 0
  {
  }

  lemma ReplacedFrom(v: Value, contentType: string, replaced: seq<Value>)
    requires !IsBlock(v, contentType) && |replaced| == |Children(v)|
    requires forall i :: 0 <= i < |replaced| ==> replaced[i] == Replaced(Children(v)[i], contentType)
    ensures WithChildren(v, replaced) == Replaced(v, contentType)
  {
    var children := Children(v);
    assert replaced == seq(|children|, i requires 0 <= i < |children| => Replaced(children[i], contentType));
  }

  function TotalFrom(messages: seq<Value>, contentType: string): nat {
    if messages == [] then 0 else |Outermost(messages[0], contentType)| + TotalFrom(messages[1..], contentType)
  }

  // The message array is rewritten in place.
  method ReplaceInMessages(messages: array<Value>, contentType: string) returns (count: nat)
    modifies messages
    ensures forall k :: 0 <= k < messages.Length ==> messages[k] == Replaced(old(messages[k]), contentType)
    ensures count == TotalFrom(old(messages[..]), contentType)
  {
    count := 0;
    ghost var was := messages[..];
    for i := 0 to messages.Length
      invariant forall k :: 0 <= k < i ==> messages[k] == Replaced(was[k], contentType)
      invariant forall k :: i <= k < messages.Length ==> messages[k] == was[k]
      invariant count + TotalFrom(was[i..], contentType) == TotalFrom(was, contentType)
    {
      assert was[i..][1..] == was[i + 1..];
      var r, n := ReplaceUnsupported(messages[i], contentType);
      messages[i] := r;
      count := count + n;
    }
  }

  // ------------------------------------------------------------- properties

  // Replacing keeps the node kind and the child count, except at a block.
  lemma ReplacedChild(v: Value, contentType: string, k: nat)
    requires !IsBlock(v, contentType)
    ensures |Children(Replaced(v, contentType))| == |Children(v)|
    ensures k < |Children(v)| ==> Children(Replaced(v, contentType))[k] == Replaced(Children(v)[k], contentType)
  {
  }

  lemma PlaceholderNodes(contentType: string, path: Path, node: Value)
    requires NodeAt(Placeholder(contentType), path) == Some(node)
    ensures path == [] || node.Str?
  {
    if path != [] {
      var child := Children(Placeholder(contentType))[path[0]];
      assert child.Str?;
      assert path[1..] == [];
    }
  }

  lemma PlaceholderIsText(contentType: string)
    ensures AsStr(Get(Placeholder(contentType), "type")) == Some("input_text")
  {
  }

  // Up to the first block on the way, the tree is as before; a block becomes
  // the placeholder, and a value that is neither array nor object stays.
  lemma {:induction false} ReplacedAt(v: Value, contentType: string, path: Path)
    requires Exposed(v, path, contentType) && NodeAt(v, path).Some?
    ensures NodeAt(Replaced(v, contentType), path) == Some(Replaced(NodeAt(v, path).value, contentType))
    decreases |path|
  {
    if path != [] {
      assert !BlockAt(v, path[..0], contentType);
      ReplacedChild(v, contentType, path[0]);
      ExposedBelow(v, contentType, path);
      ReplacedAt(Children(v)[path[0]], contentType, path[1..]);
    }
  }

  lemma ExposedBelow(v: Value, contentType: string, path: Path)
    requires path != [] && NodeAt(v, path).Some?
    ensures Exposed(v, path, contentType) <==>
            !IsBlock(v, contentType) && Exposed(Children(v)[path[0]], path[1..], contentType)
  {
    var child, below := Children(v)[path[0]], path[1..];
    assert BlockAt(v, path[..0], contentType) == IsBlock(v, contentType);
    forall k | 0 <= k < |below| ensures BlockAt(v, path[..k + 1], contentType) == BlockAt(child, below[..k], contentType) {
      assert path[..k + 1][1..] == below[..k];
    }
    if !IsBlock(v, contentType) && Exposed(child, below, contentType) {
      forall k | 0 <= k < |path| ensures !BlockAt(v, path[..k], contentType) {
        if k > 0 {
          assert !BlockAt(child, below[..k - 1], contentType);
        }
      }
    }
  }

  predicate SameTexts(before: seq<Field<string>>, after: seq<Field<string>>) {
    |before| == |after| &&
    forall i :: 0 <= i < |before| ==> before[i].key == after[i].key && SameText(before[i].value, after[i].value)
  }

  predicate SameText(before: Value, after: Value) { before.Str? || after.Str? ==> before == after }

  lemma {:induction false} SameTextField(before: seq<Field<string>>, after: seq<Field<string>>, key: string)
    requires SameTexts(before, after)
    ensures AsStr(Lookup(before, key)) == AsStr(Lookup(after, key))
    decreases |before|
  {
    if before != [] {
      assert SameText(before[0].value, after[0].value);
      if before[0].key != key {
        SameTextField(before[1..], after[1..], key);
      }
    }
  }

  lemma TextStays(v: Value, contentType: string)
    ensures SameText(v, Replaced(v, contentType))
  {
  }

  // Replacing inside a node does not change the type it states.
  lemma TypeStays(v: Value, contentType: string, other: string)
    requires !IsBlock(v, contentType)
    ensures IsBlock(Replaced(v, contentType), other) == IsBlock(v, other)
  {
    if v.Obj? {
      var after := Replaced(v, contentType).fields;
      forall i | 0 <= i < |v.fields| ensures v.fields[i].key == after[i].key && SameText(v.fields[i].value, after[i].value) {
        TextStays(v.fields[i].value, contentType);
      }
      SameTextField(v.fields, after, "type");
    }
  }

  // No block of the type is left anywhere in the tree.
  lemma {:induction false} NothingLeft(v: Value, contentType: string, path: Path)
    requires contentType != "input_text"
    ensures !BlockAt(Replaced(v, contentType), path, contentType)
    decreases |path|
  {
    if IsBlock(v, contentType) {
      PlaceholderIsText(contentType);
      if NodeAt(Placeholder(contentType), path).Some? {
        PlaceholderNodes(contentType, path, NodeAt(Placeholder(contentType), path).value);
      }
    } else if path == [] {
      TypeStays(v, contentType, contentType);
    } else {
      ReplacedChild(v, contentType, path[0]);
      if path[0] < |Children(v)| {
        NothingLeft(Children(v)[path[0]], contentType, path[1..]);
      }
    }
  }

  // The counted places are exactly those of the matching blocks with no
  // matching ancestor, each counted once.
  ghost predicate IsOutermost(v: Value, path: Path, contentType: string) {
    BlockAt(v, path, contentType) && Exposed(v, path, contentType)
  }

  lemma {:induction false} OutermostIsExact(v: Value, contentType: string, path: Path)
    ensures path in Outermost(v, contentType) <==> IsOutermost(v, path, contentType)
    decreases v, |Children(v)| + 1
  {
    if IsBlock(v, contentType) {
      if path != [] {
        assert BlockAt(v, path[..0], contentType);
      }
    } else {
      OutermostFromIsExact(v, contentType, 0, path);
    }
  }

  lemma InUnder(k: nat, paths: seq<Path>, path: Path)
    ensures path in Under(k, paths) <==> path != [] && path[0] == k && path[1..] in paths
  {
    if path != [] && path[0] == k && path[1..] in paths {
      var i :| 0 <= i < |paths| && paths[i] == path[1..];
      assert Under(k, paths)[i] == path;
    }
  }

  lemma {:induction false} OutermostFromIsExact(v: Value, contentType: string, k: nat, path: Path)
    requires k <= |Children(v)| && !IsBlock(v, contentType)
    ensures path in OutermostFrom(v, contentType, k) <==> path != [] && k <= path[0] && IsOutermost(v, path, contentType)
    decreases v, |Children(v)| - k
  {
    if k < |Children(v)| {
      InUnder(k, Outermost(Children(v)[k], contentType), path);
      OutermostFromIsExact(v, contentType, k + 1, path);
      if path != [] && path[0] == k {
        OutermostIsExact(Children(v)[k], contentType, path[1..]);
        if NodeAt(v, path).Some? {
          ExposedBelow(v, contentType, path);
        }
      }
    }
  }

  ghost predicate Distinct(paths: seq<Path>) {
    forall i, j :: 0 <= i < j < |paths| ==> paths[i] != paths[j]
  }

  lemma UnderDistinct(k: nat, paths: seq<Path>)
    requires Distinct(paths)
    ensures Distinct(Under(k, paths))
  {
    forall i, j | 0 <= i < j < |paths| ensures Under(k, paths)[i] != Under(k, paths)[j] {
      assert Under(k, paths)[i][1..] == paths[i] && Under(k, paths)[j][1..] == paths[j];
    }
  }

  lemma JoinDistinct(first: seq<Path>, second: seq<Path>, k: nat)
    requires Distinct(first) && Distinct(second)
    requires forall p :: p in first ==> p != [] && p[0] == k
    requires forall p :: p in second ==> p != [] && k < p[0]
    ensures Distinct(first + second)
  {
    forall i, j | 0 <= i < |first| && 0 <= j < |second| ensures first[i] != second[j] {
      assert first[i] in first && second[j] in second;
    }
  }

  lemma {:induction false} OutermostIsDistinct(v: Value, contentType: string)
    ensures Distinct(Outermost(v, contentType))
    decreases v, |Children(v)| + 1
  {
    if !IsBlock(v, contentType) {
      OutermostFromIsDistinct(v, contentType, 0);
    }
  }

  lemma {:induction false} OutermostFromIsDistinct(v: Value, contentType: string, k: nat)
    requires k <= |Children(v)| && !IsBlock(v, contentType)
    ensures Distinct(OutermostFrom(v, contentType, k))
    decreases v, |Children(v)| - k
  {
    if k < |Children(v)| {
      var here, later := Under(k, Outermost(Children(v)[k], contentType)), OutermostFrom(v, contentType, k + 1);
      OutermostIsDistinct(Children(v)[k], contentType);
      UnderDistinct(k, Outermost(Children(v)[k], contentType));
      OutermostFromIsDistinct(v, contentType, k + 1);
      forall p | p in later ensures p != [] && k < p[0] { OutermostFromIsExact(v, contentType, k + 1, p); }
      JoinDistinct(here, later, k);
    }
  }

  // The count is zero exactly when nothing changed.
  lemma ZeroMeansUnchanged(v: Value, contentType: string)
    requires contentType != "input_text"
    ensures |Outermost(v, contentType)| == 0 <==> Replaced(v, contentType) == v
  {
    if Outermost(v, contentType) == [] {
      NoBlockNoChange(v, contentType);
    } else {
      var path := Outermost(v, contentType)[0];
      OutermostIsExact(v, contentType, path);
      NothingLeft(v, contentType, path);
    }
  }

  lemma {:induction false} NoBlockNoChange(v: Value, contentType: string)
    requires Outermost(v, contentType) == []
    ensures Replaced(v, contentType) == v
    decreases v
  {
    var children := Children(v);
    forall i | 0 <= i < |children| ensures Replaced(children[i], contentType) == children[i] {
      EmptyFrom(v, contentType, 0, i);
      NoBlockNoChange(children[i], contentType);
    }
    assert seq(|children|, i requires 0 <= i < |children| => Replaced(children[i], contentType)) == children;
    SameChildren(v);
  }

  lemma BothEmpty(paths: seq<Path>, k: nat, later: seq<Path>)
    requires Under(k, paths) + later == []
    ensures paths == [] && later == []
  {
    assert |Under(k, paths) + later| == |paths| + |later|;
  }

  lemma {:induction false} EmptyFrom(v: Value, contentType: string, k: nat, i: nat)
    requires k <= i < |Children(v)| && OutermostFrom(v, contentType, k) == []
    ensures Outermost(Children(v)[i], contentType) == []
    decreases i - k
  {
    BothEmpty(Outermost(Children(v)[k], contentType), k, OutermostFrom(v, contentType, k + 1));
    if k < i {
      EmptyFrom(v, contentType, k + 1, i);
    }
  }

  lemma ReplacingTwice(v: Value, contentType: string)
    requires contentType != "input_text"
    ensures Replaced(Replaced(v, contentType), contentType) == Replaced(v, contentType)
    ensures Outermost(Replaced(v, contentType), contentType) == []
  {
    var r := Replaced(v, contentType);
    if Outermost(r, contentType) != [] {
      var path := Outermost(r, contentType)[0];
      OutermostIsExact(r, contentType, path);
      NothingLeft(v, contentType, path);
    } else {
      NoBlockNoChange(r, contentType);
    }
  }

  lemma PlaceholderStays(contentType: string, other: string)
    requires other != "input_text"
    ensures Replaced(Placeholder(contentType), other) == Placeholder(contentType)
  {
    PlaceholderIsText(contentType);
    var v := Placeholder(contentType);
    assert Replaced(v, other).fields == v.fields;
  }

  // Replacing two types gives the same tree in either order.
  lemma {:induction false} OrderDoesNotMatter(v: Value, a: string, b: string)
    requires a != "input_text" && b != "input_text"
    ensures Replaced(Replaced(v, a), b) == Replaced(Replaced(v, b), a)
    decreases v
  {
    if a == b {
    } else if IsBlock(v, a) {
      PlaceholderStays(a, b);
      TypeStays(v, b, a);
    } else if IsBlock(v, b) {
      PlaceholderStays(b, a);
      TypeStays(v, a, b);
    } else {
      BothInside(v, a, b);
      BothInside(v, b, a);
      forall i | 0 <= i < |Children(v)|
        ensures Replaced(Replaced(Children(v)[i], a), b) == Replaced(Replaced(Children(v)[i], b), a)
      {
        OrderDoesNotMatter(Children(v)[i], a, b);
      }
      assert Both(v, a, b) == Both(v, b, a);
    }
  }

  function Both(v: Value, a: string, b: string): seq<Value> {
    seq(|Children(v)|, i requires 0 <= i < |Children(v)| => Replaced(Replaced(Children(v)[i], a), b))
  }

  lemma BothInside(v: Value, a: string, b: string)
    requires !IsBlock(v, a) && !IsBlock(v, b)
    ensures Replaced(Replaced(v, a), b) == WithChildren(v, Both(v, a, b))
  {
    TypeStays(v, a, b);
    var first := Replaced(v, a);
    var children := Children(v);
    var once := seq(|children|, i requires 0 <= i < |children| => Replaced(children[i], a));
    assert first == WithChildren(v, once) && Children(first) == once;
    var twice := seq(|once|, i requires 0 <= i < |once| => Replaced(once[i], b));
    assert Replaced(first, b) == WithChildren(first, twice);
    assert twice == Both(v, a, b);
    WithChildrenTwice(v, once, twice);
  }
}
