/** `ShapeDiverResponse`: read-only accessors over a parsed backend JSON document. */
module ResponseView {
  import opened Wrappers
  import opened JsonValues
  import opened Failures
  import opened Flattening

  const GltfContentType: string := "model/gltf-binary"

  datatype Response = Response(doc: Json)

  /** The constructor: a string is parsed with `json.loads` (given as `parse`),
      any other value is kept as it is. */
  function FromValue(value: Json, parse: string -> Option<Json>): (r: Result<Response, Error>)
    ensures !value.JStr? ==> r == Success(Response(value))
    ensures value.JStr? ==> (r.Success? <==> parse(value.s).Some?)
    ensures value.JStr? && r.Success? ==> r.value.doc == parse(value.s).value
    ensures r.Failure? ==> r.error == InvalidJson
  {
    match value
    case JStr(text) =>
      (match parse(text)
       case Some(doc) => Success(Response(doc))
       case None => Failure(InvalidJson))
    case _ => Success(Response(value))
  }

  /** `value[key]` for a string key. */
  function Member(value: Json, key: string): (r: Result<Json, Error>)
    ensures r.Success? <==> value.JObj? && Get(value.fields, key).Some?
    ensures r.Success? ==> Get(value.fields, key) == Some(r.value)
    ensures !value.JObj? ==> r == Failure(NotSubscriptable)
    ensures value.JObj? && Get(value.fields, key).None? ==> r == Failure(MissingKey(key))
  {
    match value
    case JObj(fields) =>
      (match Get(fields, key)
       case Some(v) => Success(v)
       case None => Failure(MissingKey(key)))
    case _ => Failure(NotSubscriptable)
  }

  /** The values of the mapping stored under `key`, in mapping order, or the
      error Python raises on the way: the document is not a mapping, the key is
      missing, or the member has no `items`. */
  ghost predicate MappingValues(doc: Json, key: string, r: Result<seq<Json>, Error>) {
    && (!doc.JObj? ==> r == Failure(NotSubscriptable))
    && (doc.JObj? && Get(doc.fields, key).None? ==> r == Failure(MissingKey(key)))
    && (doc.JObj? && Get(doc.fields, key).Some? ==>
          var m := Get(doc.fields, key).value;
          && (!m.JObj? ==> r == Failure(NoItems))
          && (m.JObj? ==>
                && r.Success?
                && |r.value| == |m.fields|
                && forall i :: 0 <= i < |m.fields| ==> r.value[i] == m.fields[i].1))
  }

  function Mapping(doc: Json, key: string): (r: Result<seq<Json>, Error>)
    ensures MappingValues(doc, key, r)
  {
    var m :- Member(doc, key);
    if m.JObj? then Success(Values(m.fields)) else Failure(NoItems)
  }

  /** `parameters()`: the parameter definitions in mapping order. */
  function Parameters(resp: Response): (r: Result<seq<Json>, Error>)
    ensures MappingValues(resp.doc, "parameters", r)
  {
    Mapping(resp.doc, "parameters")
  }

  /** `outputs()`: the output definitions in mapping order. */
  function Outputs(resp: Response): (r: Result<seq<Json>, Error>)
    ensures MappingValues(resp.doc, "outputs", r)
  {
    Mapping(resp.doc, "outputs")
  }

  /** `exports()`: the export definitions in mapping order. */
  function Exports(resp: Response): (r: Result<seq<Json>, Error>)
    ensures MappingValues(resp.doc, "exports", r)
  {
    Mapping(resp.doc, "exports")
  }

  /** The `content` member of every definition, in order; on failure, the lookup
      error of the first definition without one. */
  function Contents(defs: seq<Json>): (r: Result<seq<Json>, Error>)
    ensures r.Success? <==> forall i :: 0 <= i < |defs| ==> Member(defs[i], "content").Success?
    ensures r.Success? ==>
      |r.value| == |defs| && forall i :: 0 <= i < |defs| ==> Member(defs[i], "content") == Success(r.value[i])
    ensures r.Failure? ==>
      exists i :: 0 <= i < |defs| && Member(defs[i], "content") == Failure(r.error)
        && forall j :: 0 <= j < i ==> Member(defs[j], "content").Success?
  {
    if defs == [] then Success([])
    else
      var c :- Member(defs[0], "content");
      var rest :- Contents(defs[1..]);
      Success([c] + rest)
  }

  /** The definitions' contents, flattened into one list of items. */
  function DefinitionItems(defs: seq<Json>): (r: Result<seq<Json>, Error>)
    ensures r.Success? <==> Contents(defs).Success?
    ensures r.Success? ==> r.value == Flatten(Contents(defs).value)
    ensures r.Failure? ==> r.error == Contents(defs).error
  {
    var contents :- Contents(defs);
    Success(Flatten(contents))
  }

  /** The contents of a list of definitions are those of its parts, in order. */
  lemma ContentsAppend(a: seq<Json>, b: seq<Json>)
    requires Contents(a).Success? && Contents(b).Success?
    ensures Contents(a + b) == Success(Contents(a).value + Contents(b).value)
  {
    LookupsAppend(a, b, Contents(a).value, Contents(b).value);
    ContentsDetermined(a + b, Contents(a).value + Contents(b).value);
  }

  /** Lookups that succeed on `a` and on `b` succeed on `a + b`, in the same order. */
  lemma LookupsAppend(a: seq<Json>, b: seq<Json>, ca: seq<Json>, cb: seq<Json>)
    requires |ca| == |a| && forall i :: 0 <= i < |a| ==> Member(a[i], "content") == Success(ca[i])
    requires |cb| == |b| && forall i :: 0 <= i < |b| ==> Member(b[i], "content") == Success(cb[i])
    ensures forall i :: 0 <= i < |a + b| ==> Member((a + b)[i], "content") == Success((ca + cb)[i])
  {
    forall i | 0 <= i < |a + b|
      ensures Member((a + b)[i], "content") == Success((ca + cb)[i])
    {
      if i < |a| { assert (a + b)[i] == a[i]; } else { assert (a + b)[i] == b[i - |a|]; }
    }
  }

  /** The contents are fixed by each definition's `content` lookup. */
  lemma ContentsDetermined(defs: seq<Json>, cs: seq<Json>)
    requires |cs| == |defs|
    requires forall i :: 0 <= i < |defs| ==> Member(defs[i], "content") == Success(cs[i])
    ensures Contents(defs) == Success(cs)
  {
    assert Contents(defs).Success?;
    assert Contents(defs).value == cs;
  }

  /** The content items of a list of definitions are those of its parts, in order. */
  lemma {:induction false} DefinitionItemsAppend(a: seq<Json>, b: seq<Json>)
    requires DefinitionItems(a).Success? && DefinitionItems(b).Success?
    ensures DefinitionItems(a + b) == Success(DefinitionItems(a).value + DefinitionItems(b).value)
  {
    ContentsAppend(a, b);
    FlattenAppend(Contents(a).value, Contents(b).value);
  }

  /** A single definition contributes its flattened `content`: the content's leaves
      when it is a list, the content itself otherwise. */
  lemma DefinitionItemsSingle(d: Json, content: Json)
    requires Member(d, "content") == Success(content)
    ensures DefinitionItems([d]) == Success(if content.JArr? then Flatten(content.items) else [content])
  {
    assert Contents([d]).value == [content];
    FlattenSingleton(content);
  }

  /** The end-to-end example: one output whose content is one glTF item. */
  lemma SingleGltfOutput(href: string)
    ensures
      var item := JObj([("contentType", JStr(GltfContentType)), ("href", JStr(href))]);
      var doc := JObj([("outputs", JObj([("out", JObj([("content", JArr([item]))]))]))]);
      OutputContentItemsGltf2(Response(doc)) == Success([item])
  {
    var item := JObj([("contentType", JStr(GltfContentType)), ("href", JStr(href))]);
    var def := JObj([("content", JArr([item]))]);
    var doc := JObj([("outputs", JObj([("out", def)]))]);
    assert Get(doc.fields, "outputs") == Some(JObj([("out", def)]));
    assert Outputs(Response(doc)).value == [def];
    DefinitionItemsSingle(def, JArr([item]));
    FlattenSingleton(item);
    assert [item][1..] == [];
    assert GltfItems([item]) == Success([item]);
  }

  /** `outputContentItems()`. */
  function OutputContentItems(resp: Response): (r: Result<seq<Json>, Error>)
    ensures r.Success? <==> Outputs(resp).Success? && Contents(Outputs(resp).value).Success?
    ensures r.Success? ==> r.value == Flatten(Contents(Outputs(resp).value).value)
    ensures Outputs(resp).Failure? ==> r == Failure(Outputs(resp).error)
    ensures Outputs(resp).Success? && r.Failure? ==> r.error == Contents(Outputs(resp).value).error
  {
    var defs :- Outputs(resp);
    DefinitionItems(defs)
  }

  /** `exportContentItems()`. */
  function ExportContentItems(resp: Response): (r: Result<seq<Json>, Error>)
    ensures r.Success? <==> Exports(resp).Success? && Contents(Exports(resp).value).Success?
    ensures r.Success? ==> r.value == Flatten(Contents(Exports(resp).value).value)
    ensures Exports(resp).Failure? ==> r == Failure(Exports(resp).error)
    ensures Exports(resp).Success? && r.Failure? ==> r.error == Contents(Exports(resp).value).error
  {
    var defs :- Exports(resp);
    DefinitionItems(defs)
  }

  /** The item's `contentType` member is the glTF binary media type. */
  predicate IsGltf(item: Json) {
    Member(item, "contentType") == Success(JStr(GltfContentType))
  }

  /** The items whose content type is glTF binary, in order; on failure, the
      lookup error of the first item that is not an object with a `contentType`. */
  function GltfItems(items: seq<Json>): (r: Result<seq<Json>, Error>)
    ensures r.Success? <==> forall i :: 0 <= i < |items| ==> Member(items[i], "contentType").Success?
    ensures r.Success? ==> |r.value| <= |items| && forall k :: 0 <= k < |r.value| ==> IsGltf(r.value[k])
    ensures r.Failure? ==>
      exists i :: 0 <= i < |items| && Member(items[i], "contentType") == Failure(r.error)
        && forall j :: 0 <= j < i ==> Member(items[j], "contentType").Success?
  {
    if items == [] then Success([])
    else
      var ct :- Member(items[0], "contentType");
      var rest :- GltfItems(items[1..]);
      Success(if ct == JStr(GltfContentType) then [items[0]] + rest else rest)
  }

  /** `idx` picks `sub` out of `xs` in order: strictly increasing positions. */
  ghost predicate Picks(idx: seq<nat>, xs: seq<Json>, sub: seq<Json>) {
    && |idx| == |sub|
    && (forall k :: 0 <= k < |idx| ==> idx[k] < |xs| && xs[idx[k]] == sub[k])
    && (forall k, l :: 0 <= k < l < |idx| ==> idx[k] < idx[l])
  }

  function Shift(idx: seq<nat>): (r: seq<nat>)
    ensures |r| == |idx| && forall k :: 0 <= k < |idx| ==> r[k] == idx[k] + 1
  {
    seq(|idx|, k requires 0 <= k < |idx| => idx[k] + 1)
  }

  /** Positions in `xs` become positions in `[x] + xs` one further on. */
  lemma ShiftPicks(x: Json, xs: seq<Json>, idx: seq<nat>, sub: seq<Json>)
    requires Picks(idx, xs, sub)
    ensures Picks(Shift(idx), [x] + xs, sub)
    ensures Picks([0] + Shift(idx), [x] + xs, [x] + sub)
    ensures 0 !in Shift(idx)
    ensures forall i :: 1 <= i <= |xs| ==> (i in Shift(idx) <==> i - 1 in idx)
  {
  }

  /** The glTF items are exactly the order-preserving sublist of glTF items:
      the positions picked are precisely those of the glTF items. */
  lemma {:induction false} GltfItemsExact(items: seq<Json>) returns (idx: seq<nat>)
    requires GltfItems(items).Success?
    ensures Picks(idx, items, GltfItems(items).value)
    ensures forall i :: 0 <= i < |items| ==> (i in idx <==> IsGltf(items[i]))
  {
    if items == [] {
      idx := [];
    } else {
      var x, xs := items[0], items[1..];
      assert items == [x] + xs;
      var rest := GltfItemsExact(xs);
      ShiftPicks(x, xs, rest, GltfItems(xs).value);
      assert forall i :: 1 <= i < |items| ==> items[i] == xs[i - 1];
      idx := if IsGltf(x) then [0] + Shift(rest) else Shift(rest);
    }
  }

  /** `outputContentItemsGltf2()`. */
  function OutputContentItemsGltf2(resp: Response): (r: Result<seq<Json>, Error>)
    ensures r.Success? <==>
      && OutputContentItems(resp).Success?
      && forall i :: 0 <= i < |OutputContentItems(resp).value| ==>
           Member(OutputContentItems(resp).value[i], "contentType").Success?
    ensures r.Success? ==> r.value == GltfItems(OutputContentItems(resp).value).value
    ensures OutputContentItems(resp).Failure? ==> r == Failure(OutputContentItems(resp).error)
    ensures OutputContentItems(resp).Success? && r.Failure? ==>
      r.error == GltfItems(OutputContentItems(resp).value).error
  {
    var items :- OutputContentItems(resp);
    GltfItems(items)
  }

  /** `sessionId()`: the document's `sessionId` member; KeyError when it is absent. */
  function SessionId(resp: Response): (r: Result<Json, Error>)
    ensures r.Success? <==> resp.doc.JObj? && Get(resp.doc.fields, "sessionId").Some?
    ensures r.Success? ==> Get(resp.doc.fields, "sessionId") == Some(r.value)
    ensures resp.doc.JObj? && Get(resp.doc.fields, "sessionId").None? ==> r == Failure(MissingKey("sessionId"))
    ensures !resp.doc.JObj? ==> r == Failure(NotSubscriptable)
  {
    Member(resp.doc, "sessionId")
  }
}
