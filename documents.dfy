/** Documents of the local mirror, their ids, and the dotted-path `pick` and
    `put` helpers of `getData`. */
module Documents {
  import opened Wrappers
  import opened Values
  import opened Text

  /** A document id: a plain string, or a Mongo object id whose `_str` holds
      its hexadecimal text. */
  datatype Id = StrId(s: string) | ObjectId(str: string)

  /** The string an id is compared by when stale documents are removed:
      `id._str` when present, else the id itself. Object ids always carry
      their 24 hexadecimal digits, so `_str` is never empty. */
  function CanonicalId(id: Id): string {
    match id
    case StrId(s) => s
    case ObjectId(str) => str
  }

  /** A document: its `_id` and its other top-level fields. */
  datatype Doc = Doc(id: Id, fields: map<string, Value>)

  /** `v[key]`: reading a property of `undefined` or `null` throws (None);
      a missing property of an object is `undefined`; properties of other
      primitives are not modelled and read as `undefined`. */
  function Index(v: Value, key: string): (r: Option<Value>)
    ensures r.None? <==> v.Undefined? || v.Null?
  {
    match v
    case Undefined => None
    case Null => None
    case Obj(m) => Some(if key in m then m[key] else Undefined)
    case _ => Some(Undefined)
  }

  /** `pick(doc, path)` on an already split path: `tmp = tmp[i]` for each
      segment until the first empty (falsy) one; None when a step throws. */
  function PickPath(v: Value, path: seq<string>): Option<Value>
    decreases |path|
  {
    if path == [] || path[0] == "" then Some(v)
    else
      match Index(v, path[0])
      case None => None
      case Some(child) => PickPath(child, path[1..])
  }

  /** `v[key] = x`: throws on `undefined` and `null`, updates an object, and
      is silently ignored on other primitives (sloppy-mode JavaScript). */
  function SetProperty(v: Value, key: string, x: Value): (r: Option<Value>)
    ensures r.None? <==> v.Undefined? || v.Null?
  {
    match v
    case Undefined => None
    case Null => None
    case Obj(m) => Some(Obj(m[key := x]))
    case _ => Some(v)
  }

  /** `pick(v, init)[key] = x`, returning the whole updated value: walks
      `init` the way `PickPath` does and rebuilds the objects along the way. */
  function Assign(v: Value, init: seq<string>, key: string, x: Value): (r: Option<Value>)
    ensures r.Some? && v.Obj? ==> r.value.Obj?
    decreases |init|
  {
    if init == [] || init[0] == "" then SetProperty(v, key, x)
    else
      match Index(v, init[0])
      case None => None
      case Some(child) =>
        match Assign(child, init[1..], key, x)
        case None => None
        case Some(child') => Some(if v.Obj? then Obj(v.fields[init[0] := child']) else v)
  }

  /** `put(doc, field, value)` on an already split, non-empty path:
      `pick(doc, _.initial(path))[_.last(path)] = value`. */
  function Put(v: Value, path: seq<string>, x: Value): Option<Value>
    requires |path| >= 1
  {
    Assign(v, path[..|path| - 1], path[|path| - 1], x)
  }

  /** `pick(doc, field)`: split the dotted field and walk it with a loop. */
  method Pick(doc: Value, field: string) returns (r: Option<Value>)
    ensures r == PickPath(doc, Split(field, '.'))
  {
    var path := Split(field, '.');
    var tmp := doc;
    while path != [] && path[0] != ""
      invariant PickPath(tmp, path) == PickPath(doc, Split(field, '.'))
      decreases |path|
    {
      var i := path[0];
      path := path[1..];
      var next := Index(tmp, i);
      if next.None? {
        return None;
      }
      tmp := next.value;
    }
    r := Some(tmp);
  }

  /** A segment list in which the walk never stops early. */
  predicate NoEmptySegment(path: seq<string>) {
    forall i :: 0 <= i < |path| ==> path[i] != ""
  }

  /** After a put whose parent is an object, picking the same path reads
      back the value put. */
  lemma {:induction false} PickAfterAssign(v: Value, init: seq<string>, key: string, x: Value)
    requires NoEmptySegment(init + [key])
    requires PickPath(v, init).Some? && PickPath(v, init).value.Obj?
    ensures Assign(v, init, key, x).Some?
    ensures PickPath(Assign(v, init, key, x).value, init + [key]) == Some(x)
    decreases |init|
  {
    if init == [] {
      assert [key][1..] == [];
    } else {
      assert init[0] == (init + [key])[0];
      var child := Index(v, init[0]).value;
      assert (init + [key])[1..] == init[1..] + [key];
      assert NoEmptySegment(init[1..] + [key]);
      PickAfterAssign(child, init[1..], key, x);
    }
  }

  lemma PickAfterPut(v: Value, path: seq<string>, x: Value)
    requires |path| >= 1 && NoEmptySegment(path)
    requires PickPath(v, path[..|path| - 1]).Some? && PickPath(v, path[..|path| - 1]).value.Obj?
    ensures Put(v, path, x).Some?
    ensures PickPath(Put(v, path, x).value, path) == Some(x)
  {
    assert path[..|path| - 1] + [path[|path| - 1]] == path;
    PickAfterAssign(v, path[..|path| - 1], path[|path| - 1], x);
  }

  /** Once `pick` has found a truthy value at a path, `put` on that path
      cannot throw: its parent walk is a prefix of the walk that succeeded. */
  lemma {:induction false} AssignAfterTruthyPick(v: Value, init: seq<string>, key: string, x: Value)
    requires PickPath(v, init + [key]).Some? && Truthy(PickPath(v, init + [key]).value)
    ensures Assign(v, init, key, x).Some?
    decreases |init|
  {
    var path := init + [key];
    if init == [] {
      assert path == [key];
    } else if init[0] == "" {
      assert path[0] == "";
    } else {
      assert path[0] == init[0] && path[1..] == init[1..] + [key];
      var child := Index(v, init[0]).value;
      AssignAfterTruthyPick(child, init[1..], key, x);
    }
  }

  lemma PutAfterTruthyPick(v: Value, path: seq<string>, x: Value)
    requires |path| >= 1
    requires PickPath(v, path).Some? && Truthy(PickPath(v, path).value)
    ensures Put(v, path, x).Some?
  {
    assert path[..|path| - 1] + [path[|path| - 1]] == path;
    AssignAfterTruthyPick(v, path[..|path| - 1], path[|path| - 1], x);
  }

  /** A put leaves every property beside its path as it was, at every
      depth: for each level `j` of the walk, a sibling `k` of the segment
      written there reads the same before and after. */
  lemma {:induction false} AssignFrame(v: Value, init: seq<string>, key: string, x: Value, j: nat, k: string)
    requires NoEmptySegment(init + [key])
    requires Assign(v, init, key, x).Some?
    requires j <= |init| && k != "" && k != (init + [key])[j]
    ensures PickPath(Assign(v, init, key, x).value, (init + [key])[..j] + [k]) ==
            PickPath(v, (init + [key])[..j] + [k])
    decreases |init|
  {
    var path := init + [key];
    var r := Assign(v, init, key, x).value;
    if j == 0 {
      assert path[..0] + [k] == [k];
      assert [k][1..] == [];
      if init != [] {
        assert init[0] == path[0];
      }
    } else {
      var tail := init[1..];
      assert init[0] == path[0] != "";
      assert path[1..] == tail + [key];
      assert NoEmptySegment(tail + [key]);
      assert (tail + [key])[j - 1] == path[j];
      assert path[..j] + [k] == [init[0]] + ((tail + [key])[..j - 1] + [k]);
      var child := Index(v, init[0]).value;
      AssignFrame(child, tail, key, x, j - 1, k);
    }
  }

  lemma PutFrameDeep(v: Value, path: seq<string>, x: Value, j: nat, k: string)
    requires |path| >= 1 && NoEmptySegment(path)
    requires Put(v, path, x).Some?
    requires j < |path| && k != "" && k != path[j]
    ensures PickPath(Put(v, path, x).value, path[..j] + [k]) == PickPath(v, path[..j] + [k])
  {
    var n := |path| - 1;
    assert path[..n] + [path[n]] == path;
    AssignFrame(v, path[..n], path[n], x, j, k);
  }

  /** A put through an object changes only the top-level field its path
      starts with. */
  lemma PutFrame(v: Value, path: seq<string>, x: Value, k: string)
    requires |path| >= 1 && path[0] != "" && v.Obj?
    requires Put(v, path, x).Some?
    requires k != path[0]
    ensures Put(v, path, x).value.Obj?
    ensures k in Put(v, path, x).value.fields <==> k in v.fields
    ensures k in v.fields ==> Put(v, path, x).value.fields[k] == v.fields[k]
  {
  }
}
