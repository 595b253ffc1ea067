/** The JavaScript values that documents, metadata and callback results are
    made of, with JavaScript's notion of truthiness. */
module Values {

  /** A JavaScript value as far as the search source inspects it. Numbers are
      integers here; arrays, functions and NaN are not modelled. */
  datatype Value =
    | Undefined
    | Null
    | Bool(b: bool)
    | Num(n: int)
    | Str(s: string)
    | Obj(fields: map<string, Value>)

  /** `{}` */
  const EmptyObject: Value := Obj(map[])

  /** JavaScript truthiness: `undefined`, `null`, `false`, `0` and `""` are
      falsy; every object, even `{}`, is truthy. */
  predicate Truthy(v: Value) {
    match v
    case Undefined => false
    case Null => false
    case Bool(b) => b
    case Num(n) => n != 0
    case Str(s) => s != ""
    case Obj(_) => true
  }

  /** `v || dflt`: one of the two operands, truthy whenever either is, and
      the first one whenever it is truthy. */
  function OrElse(v: Value, dflt: Value): (r: Value)
    ensures r == v || r == dflt
    ensures Truthy(r) <==> Truthy(v) || Truthy(dflt)
    ensures Truthy(v) ==> r == v
    ensures !Truthy(v) ==> r == dflt
  {
    if Truthy(v) then v else dflt
  }
}
