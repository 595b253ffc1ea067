/** What `getData` hands to the mirror's query: the selector it builds and
    the `transform` it applies to every document the query yields. Selector
    evaluation, sorting and limiting belong to the Mongo collection and are
    not modelled. */
module View {
  import opened Wrappers
  import opened Values
  import opened Text
  import opened Documents
  import opened RegExpText

  /** `{field: /pattern/ig}` */
  datatype Clause = Clause(field: string, pattern: string)

  /** `{}` (every document) or `{$or: [clause, ...]}` */
  datatype Selector = MatchAll | AnyOf(clauses: seq<Clause>)

  /** One clause per search field, in field order (the `forEach` push). */
  function Clauses(fields: seq<string>, pattern: string): (r: seq<Clause>)
    ensures |r| == |fields|
    ensures forall i :: 0 <= i < |fields| ==> r[i] == Clause(fields[i], pattern)
  {
    if fields == [] then []
    else Clauses(fields[..|fields| - 1], pattern) + [Clause(fields[|fields| - 1], pattern)]
  }

  /** The selector of `getData`: while loading, an `$or` over the search
      fields of the regular expression `pattern` (built once from the current
      query); otherwise `{}`. */
  function SelectorFor(loading: bool, fields: seq<string>, pattern: string): Selector {
    if loading then AnyOf(Clauses(fields, pattern)) else MatchAll
  }

  /** `options.transform(property, regExp, field, currentQuery)`, supplied by
      the caller; the regular expression is passed as its pattern text. */
  type FieldTransform = (Value, string, string, string) -> Value

  /** `self.currentQuery` is truthy. */
  predicate QueryTruthy(query: Option<string>) {
    query.Some? && query.value != ""
  }

  /** One step of the `forEach` over the search fields: pick the field and,
      when the query and the value are both truthy, put the transformed
      value back. None when `pick` or `put` throws. */
  function TransformField(body: map<string, Value>, field: string, query: Option<string>,
                          pattern: string, t: FieldTransform): Option<map<string, Value>>
  {
    var path := Split(field, '.');
    match PickPath(Obj(body), path)
    case None => None
    case Some(property) =>
      if QueryTruthy(query) && Truthy(property) then
        match Put(Obj(body), path, t(property, pattern, field, query.value))
        case None => None
        case Some(w) => if w.Obj? then Some(w.fields) else None
      else Some(body)
  }

  /** The per-field transforms of `fields`, in order. */
  function TransformFields(body: map<string, Value>, fields: seq<string>, query: Option<string>,
                           pattern: string, t: FieldTransform): Option<map<string, Value>>
    decreases |fields|
  {
    if fields == [] then Some(body)
    else
      match TransformFields(body, fields[..|fields| - 1], query, pattern, t)
      case None => None
      case Some(b) => TransformField(b, fields[|fields| - 1], query, pattern, t)
  }

  /** `transform(doc)`: the per-field transforms when `options.transform`
      is given, then `options.docTransform` when given. `pattern` is the
      regular expression `getData` built from the current query. */
  function TransformDoc(doc: Doc, fields: seq<string>, query: Option<string>, pattern: string,
                        fieldTransform: Option<FieldTransform>, docTransform: Option<Doc -> Doc>): Option<Doc>
  {
    var body := if fieldTransform.Some? then TransformFields(doc.fields, fields, query, pattern, fieldTransform.value)
                else Some(doc.fields);
    match body
    case None => None
    case Some(b) => Some(if docTransform.Some? then docTransform.value(Doc(doc.id, b)) else Doc(doc.id, b))
  }

  /** `cursor.fetch()` with `transform`: every document the query yields,
      transformed in order; None when one of the transforms throws. */
  function TransformAll(docs: seq<Doc>, fields: seq<string>, query: Option<string>, pattern: string,
                        fieldTransform: Option<FieldTransform>, docTransform: Option<Doc -> Doc>): (r: Option<seq<Doc>>)
    ensures r.Some? ==> |r.value| == |docs|
    decreases |docs|
  {
    if docs == [] then Some([])
    else
      match TransformAll(docs[..|docs| - 1], fields, query, pattern, fieldTransform, docTransform)
      case None => None
      case Some(init) =>
        match TransformDoc(docs[|docs| - 1], fields, query, pattern, fieldTransform, docTransform)
        case None => None
        case Some(d) => Some(init + [d])
  }

  /** `transform(doc)` as the source runs it: a loop over the search fields
      that picks each one and puts the transformed value in its place. */
  method Transform(doc: Doc, fields: seq<string>, query: Option<string>, pattern: string,
                   fieldTransform: Option<FieldTransform>, docTransform: Option<Doc -> Doc>)
    returns (r: Option<Doc>)
    ensures r == TransformDoc(doc, fields, query, pattern, fieldTransform, docTransform)
  {
    var body := doc.fields;
    if fieldTransform.Some? {
      var i := 0;
      while i < |fields|
        invariant 0 <= i <= |fields|
        invariant TransformFields(doc.fields, fields[..i], query, pattern, fieldTransform.value) == Some(body)
      {
        assert fields[..i + 1][..i] == fields[..i];
        var field := fields[i];
        var property := Pick(Obj(body), field);
        if property.None? {
          FailureIsFinal(doc.fields, fields, i + 1, query, pattern, fieldTransform.value);
          return None;
        }
        if QueryTruthy(query) && Truthy(property.value) {
          var updated := Put(Obj(body), Split(field, '.'), fieldTransform.value(property.value, pattern, field, query.value));
          if updated.None? || !updated.value.Obj? {
            FailureIsFinal(doc.fields, fields, i + 1, query, pattern, fieldTransform.value);
            return None;
          }
          body := updated.value.fields;
        }
        i := i + 1;
      }
      assert fields[..|fields|] == fields;
    }
    var d := Doc(doc.id, body);
    r := Some(if docTransform.Some? then docTransform.value(d) else d);
  }

  /** Once a field's transform throws, the whole `transform(doc)` throws. */
  lemma {:induction false} FailureIsFinal(body: map<string, Value>, fields: seq<string>, k: nat,
                                          query: Option<string>, pattern: string, t: FieldTransform)
    requires k <= |fields|
    requires TransformFields(body, fields[..k], query, pattern, t).None?
    ensures TransformFields(body, fields, query, pattern, t).None?
    decreases |fields| - k
  {
    if k < |fields| {
      assert fields[..k + 1][..k] == fields[..k];
      FailureIsFinal(body, fields, k + 1, query, pattern, t);
    } else {
      assert fields[..k] == fields;
    }
  }

  /** Once a document's transform throws, the whole fetch throws. */
  lemma {:induction false} TransformFailureIsFinal(docs: seq<Doc>, k: nat, fields: seq<string>, query: Option<string>,
                                                   pattern: string, fieldTransform: Option<FieldTransform>,
                                                   docTransform: Option<Doc -> Doc>)
    requires k <= |docs|
    requires TransformAll(docs[..k], fields, query, pattern, fieldTransform, docTransform).None?
    ensures TransformAll(docs, fields, query, pattern, fieldTransform, docTransform).None?
    decreases |docs| - k
  {
    if k < |docs| {
      assert docs[..k + 1][..k] == docs[..k];
      TransformFailureIsFinal(docs, k + 1, fields, query, pattern, fieldTransform, docTransform);
    } else {
      assert docs[..k] == docs;
    }
  }

  /** While loading, the selector has one clause per search field, in field
      order, each matching the alternation of the current query's terms
      taken literally; once not loading it selects everything. */
  lemma SelectorShape(loading: bool, fields: seq<string>, query: Option<string>)
    ensures SelectorFor(loading, fields, BuildPattern(query)).AnyOf? <==> loading
    ensures loading ==>
      match SelectorFor(loading, fields, BuildPattern(query))
      case MatchAll => false
      case AnyOf(cs) =>
        && |cs| == |fields|
        && forall i :: 0 <= i < |cs| ==>
             cs[i].field == fields[i] && ParseAlternation(cs[i].pattern) == Some(Split(Trim(QueryText(query)), ' '))
  {
    PatternAlternatives(query);
  }

  /** A truthy value found at a path without empty segments sits in an
      object: a primitive's properties read as `undefined`. */
  lemma {:induction false} TruthyPickHasObjectParent(v: Value, init: seq<string>, key: string)
    requires NoEmptySegment(init + [key])
    requires PickPath(v, init + [key]).Some? && Truthy(PickPath(v, init + [key]).value)
    ensures PickPath(v, init).Some? && PickPath(v, init).value.Obj?
    decreases |init|
  {
    var path := init + [key];
    if init == [] {
      assert path == [key] && path[0] != "" && path[1..] == [];
    } else {
      assert path[0] == init[0] && path[1..] == init[1..] + [key];
      assert forall i :: 0 <= i < |init[1..] + [key]| ==> (init[1..] + [key])[i] == path[i + 1];
      TruthyPickHasObjectParent(Index(v, init[0]).value, init[1..], key);
    }
  }

  /** A field value is replaced exactly when the current query and the value
      are both truthy, and then it reads back as the transform's result while
      every property beside its path, at every depth, keeps its value;
      otherwise the document is left as it was. */
  lemma TransformFieldEffect(body: map<string, Value>, field: string, query: Option<string>,
                             pattern: string, t: FieldTransform)
    requires NoEmptySegment(Split(field, '.'))
    requires PickPath(Obj(body), Split(field, '.')).Some?
    ensures var p := PickPath(Obj(body), Split(field, '.')).value;
      var r := TransformField(body, field, query, pattern, t);
      && r.Some?
      && (QueryTruthy(query) && Truthy(p) ==>
            PickPath(Obj(r.value), Split(field, '.')) == Some(t(p, pattern, field, query.value)))
      && (QueryTruthy(query) && Truthy(p) ==>
            forall j: nat, k :: j < |Split(field, '.')| && k != "" && k != Split(field, '.')[j] ==>
              PickPath(Obj(r.value), Split(field, '.')[..j] + [k]) == PickPath(Obj(body), Split(field, '.')[..j] + [k]))
      && (!(QueryTruthy(query) && Truthy(p)) ==> r.value == body)
  {
    var path := Split(field, '.');
    var p := PickPath(Obj(body), path).value;
    if QueryTruthy(query) && Truthy(p) {
      var n := |path| - 1;
      var y := t(p, pattern, field, query.value);
      assert path[..n] + [path[n]] == path;
      TruthyPickHasObjectParent(Obj(body), path[..n], path[n]);
      PickAfterPut(Obj(body), path, y);
      forall j: nat, k | j < |path| && k != "" && k != path[j]
        ensures PickPath(Put(Obj(body), path, y).value, path[..j] + [k]) == PickPath(Obj(body), path[..j] + [k])
      {
        PutFrameDeep(Obj(body), path, y, j, k);
      }
    }
  }

  /** Without a truthy current query no field is transformed. */
  lemma {:induction false} NoQueryNoFieldChange(body: map<string, Value>, fields: seq<string>,
                                                query: Option<string>, pattern: string, t: FieldTransform)
    requires !QueryTruthy(query)
    requires forall i :: 0 <= i < |fields| ==> PickPath(Obj(body), Split(fields[i], '.')).Some?
    ensures TransformFields(body, fields, query, pattern, t) == Some(body)
    decreases |fields|
  {
    if fields != [] {
      NoQueryNoFieldChange(body, fields[..|fields| - 1], query, pattern, t);
    }
  }

  /** A transformed prefix extends by one document at a time. */
  lemma TransformAllSnoc(docs: seq<Doc>, i: nat, out: seq<Doc>, d: Doc, fields: seq<string>, query: Option<string>,
                         pattern: string, fieldTransform: Option<FieldTransform>, docTransform: Option<Doc -> Doc>)
    requires i < |docs|
    requires TransformAll(docs[..i], fields, query, pattern, fieldTransform, docTransform) == Some(out)
    requires TransformDoc(docs[i], fields, query, pattern, fieldTransform, docTransform) == Some(d)
    ensures TransformAll(docs[..i + 1], fields, query, pattern, fieldTransform, docTransform) == Some(out + [d])
  {
    assert docs[..i + 1][..i] == docs[..i];
  }

  /** `cursor.fetch()` succeeds exactly when every document's transform
      succeeds, and then yields each document's transform at its own position. */
  lemma {:induction false} TransformAllContents(docs: seq<Doc>, fields: seq<string>, query: Option<string>, pattern: string,
                                                fieldTransform: Option<FieldTransform>, docTransform: Option<Doc -> Doc>)
    ensures TransformAll(docs, fields, query, pattern, fieldTransform, docTransform).Some? <==>
            forall i :: 0 <= i < |docs| ==> TransformDoc(docs[i], fields, query, pattern, fieldTransform, docTransform).Some?
    ensures TransformAll(docs, fields, query, pattern, fieldTransform, docTransform).Some? ==>
            forall i :: 0 <= i < |docs| ==>
              TransformAll(docs, fields, query, pattern, fieldTransform, docTransform).value[i] ==
              TransformDoc(docs[i], fields, query, pattern, fieldTransform, docTransform).value
    decreases |docs|
  {
    if docs != [] {
      var n := |docs| - 1;
      var init := docs[..n];
      TransformAllContents(init, fields, query, pattern, fieldTransform, docTransform);
      assert forall i :: 0 <= i < n ==> init[i] == docs[i];
    }
  }

  /** `cursor.fetch()` of the query `getData` builds: a loop that applies
      `transform` to each document the collection yields, in order. */
  method Fetch(matched: seq<Doc>, fields: seq<string>, query: Option<string>, pattern: string,
               fieldTransform: Option<FieldTransform>, docTransform: Option<Doc -> Doc>)
    returns (docs: Option<seq<Doc>>)
    ensures docs == TransformAll(matched, fields, query, pattern, fieldTransform, docTransform)
  {
    var out: seq<Doc> := [];
    var i := 0;
    while i < |matched|
      invariant 0 <= i <= |matched|
      invariant TransformAll(matched[..i], fields, query, pattern, fieldTransform, docTransform) == Some(out)
    {
      var d := Transform(matched[i], fields, query, pattern, fieldTransform, docTransform);
      if d.None? {
        TransformFailureIsFinal(matched, i + 1, fields, query, pattern, fieldTransform, docTransform);
        return None;
      }
      TransformAllSnoc(matched, i, out, d.value, fields, query, pattern, fieldTransform, docTransform);
      out := out + [d.value];
      i := i + 1;
    }
    assert matched[..|matched|] == matched;
    docs := Some(out);
  }
}
