/** `parse_json_as` by type, and `reorder_type`, which puts struct fields into the order of their definition. */
module StructOrder {
  import opened Common
  import opened JsonValue

  datatype Ty =
    | StringTy | IntTy(bits: nat) | UintTy(bits: nat) | OtherTy(id: nat)
    | ArrayTy(inner: Ty) | FixedTy(inner: Ty, len: nat) | TupleTy(types: seq<Ty>)
    | StructTy(name: string, props: seq<string>, types: seq<Ty>)

  datatype Val =
    | StringVal(s: string) | LeafVal(word: nat)
    | ArrayVal(vals: seq<Val>) | FixedVal(vals: seq<Val>) | TupleVal(vals: seq<Val>)
    | StructVal(name: string, props: seq<string>, vals: seq<Val>)

  /**
   What the code takes from elsewhere: the text of a scalar, splitting `(..)` and `[..]` texts into
   their parts, reading a scalar's text, and the second attempt made when that fails at the top.
   */
  datatype Reader = Reader(
    text: Json -> string,
    parts: string -> Option<seq<string>>,
    elems: string -> Option<seq<string>>,
    leaf: (string, Ty) -> Result<Val>,
    lenient: (string, Ty) -> Result<Val>)

  predicate Scalar(ty: Ty) {
    !ty.ArrayTy? && !ty.FixedTy? && !ty.TupleTy? && !ty.StructTy?
  }

  /** All values, or an error if one is an error. */
  function Collect<T>(rs: seq<Result<T>>): (r: Result<seq<T>>)
    ensures r.Ok? <==> forall i :: 0 <= i < |rs| ==> rs[i].Ok?
    ensures r.Ok? ==> |r.value| == |rs| && forall i :: 0 <= i < |rs| ==> Ok(r.value[i]) == rs[i]
  {
    if rs == [] then Ok([])
    else
      var x :- rs[0];
      var xs :- Collect(rs[1..]);
      assert forall i :: 1 <= i < |rs| ==> rs[i] == rs[1..][i - 1];
      Ok([x] + xs)
  }

  /** The value of a composite type from the values in it. */
  function Wrap(ty: Ty, vals: Result<seq<Val>>): Result<Val>
    requires !Scalar(ty)
  {
    if vals.Err? then Err
    else
      match ty
      case TupleTy(_) => Ok(TupleVal(vals.value))
      case ArrayTy(_) => Ok(ArrayVal(vals.value))
      case FixedTy(_, _) => Ok(FixedVal(vals.value))
      case StructTy(name, props, _) => Ok(StructVal(name, props, vals.value))
  }

  // ----- Parsing text -----

  predicate Splits(parts: Option<seq<string>>, n: nat) {
    parts.Some? && |parts.value| == n
  }

  /** `coerce_str`: a struct's text is the text of a tuple, its fields read by position. */
  function Coerce(r: Reader, s: string, ty: Ty): Result<Val>
    decreases ty, 0
  {
    match ty
    case TupleTy(types) =>
      if !Splits(r.parts(s), |types|) then Err
      else Wrap(ty, CoerceZip(r, r.parts(s).value, types))
    case StructTy(_, _, types) =>
      if !Splits(r.parts(s), |types|) then Err
      else Wrap(ty, CoerceZip(r, r.parts(s).value, types))
    case ArrayTy(inner) =>
      if r.elems(s).None? then Err
      else Wrap(ty, CoerceEach(r, r.elems(s).value, inner))
    case FixedTy(inner, len) =>
      if !Splits(r.elems(s), len) then Err
      else Wrap(ty, CoerceEach(r, r.elems(s).value, inner))
    case _ => r.leaf(s, ty)
  }

  function CoerceZip(r: Reader, texts: seq<string>, types: seq<Ty>): (vs: Result<seq<Val>>)
    requires |texts| == |types|
    ensures vs.Ok? <==> forall i :: 0 <= i < |types| ==> Coerce(r, texts[i], types[i]).Ok?
    ensures vs.Ok? ==> |vs.value| == |types| && forall i :: 0 <= i < |types| ==>
              Ok(vs.value[i]) == Coerce(r, texts[i], types[i])
    decreases types, 1
  {
    var rs := seq(|types|, i requires 0 <= i < |types| => Coerce(r, texts[i], types[i]));
    assert forall i :: 0 <= i < |types| ==> rs[i] == Coerce(r, texts[i], types[i]);
    Collect(rs)
  }

  function CoerceEach(r: Reader, texts: seq<string>, inner: Ty): (vs: Result<seq<Val>>)
    ensures vs.Ok? <==> forall i :: 0 <= i < |texts| ==> Coerce(r, texts[i], inner).Ok?
    ensures vs.Ok? ==> |vs.value| == |texts| && forall i :: 0 <= i < |texts| ==>
              Ok(vs.value[i]) == Coerce(r, texts[i], inner)
    decreases inner, 1
  {
    var rs := seq(|texts|, i requires 0 <= i < |texts| => Coerce(r, texts[i], inner));
    assert forall i :: 0 <= i < |texts| ==> rs[i] == Coerce(r, texts[i], inner);
    Collect(rs)
  }

  /** `parse_value`; the lenient attempt is for scalars only. */
  function ParseValue(r: Reader, s: string, ty: Ty): Result<Val> {
    var v := Coerce(r, s, ty);
    if v.Err? && Scalar(ty) then r.lenient(s, ty) else v
  }

  // ----- Parsing JSON -----

  function ParseAs(r: Reader, v: Json, ty: Ty): Result<Val>
    decreases ty, 0
  {
    match v
    case List(elems) =>
      (match ty
       case TupleTy(types) =>
         if |elems| != |types| then Err
         else Wrap(ty, ParseZip(r, elems, types))
       case ArrayTy(inner) => Wrap(ty, ParseEach(r, elems, inner))
       case FixedTy(inner, len) =>
         if |elems| != len then Err
         else Wrap(ty, ParseEach(r, elems, inner))
       case _ => Err)
    case Object(fields) =>
      if !ty.StructTy? then Err
      else Wrap(ty, ParseFields(r, fields, ty.props, ty.types))
    case String(s) =>
      if ty.StringTy? then Ok(StringVal(s))
      else ParseValue(r, if ty.IntTy? || ty.UintTy? then s else r.text(v), ty)
    case _ => ParseValue(r, r.text(v), ty)
  }

  function ParseZip(r: Reader, elems: seq<Json>, types: seq<Ty>): (vs: Result<seq<Val>>)
    requires |elems| == |types|
    ensures vs.Ok? <==> forall i :: 0 <= i < |types| ==> ParseAs(r, elems[i], types[i]).Ok?
    ensures vs.Ok? ==> |vs.value| == |types| && forall i :: 0 <= i < |types| ==>
              Ok(vs.value[i]) == ParseAs(r, elems[i], types[i])
    decreases types, 1
  {
    var rs := seq(|types|, i requires 0 <= i < |types| => ParseAs(r, elems[i], types[i]));
    assert forall i :: 0 <= i < |types| ==> rs[i] == ParseAs(r, elems[i], types[i]);
    Collect(rs)
  }

  function ParseEach(r: Reader, elems: seq<Json>, inner: Ty): (vs: Result<seq<Val>>)
    ensures vs.Ok? <==> forall i :: 0 <= i < |elems| ==> ParseAs(r, elems[i], inner).Ok?
    ensures vs.Ok? ==> |vs.value| == |elems| && forall i :: 0 <= i < |elems| ==>
              Ok(vs.value[i]) == ParseAs(r, elems[i], inner)
    decreases inner, 1
  {
    var rs := seq(|elems|, i requires 0 <= i < |elems| => ParseAs(r, elems[i], inner));
    assert forall i :: 0 <= i < |elems| ==> rs[i] == ParseAs(r, elems[i], inner);
    Collect(rs)
  }

  function ParseField(r: Reader, fields: map<string, Json>, f: string, ty: Ty): Result<Val>
    decreases ty, 1
  {
    if f in fields then ParseAs(r, fields[f], ty) else Err
  }

  /** Fields and types are walked together, as far as both go. */
  function ParseFields(r: Reader, fields: map<string, Json>, props: seq<string>, types: seq<Ty>): (vs: Result<seq<Val>>)
    ensures var n := Min(|props|, |types|);
            && (vs.Ok? <==> forall i :: 0 <= i < n ==> ParseField(r, fields, props[i], types[i]).Ok?)
            && (vs.Ok? ==> |vs.value| == n && forall i :: 0 <= i < n ==>
                  Ok(vs.value[i]) == ParseField(r, fields, props[i], types[i]))
    decreases types, 2
  {
    var n := Min(|props|, |types|);
    var rs := seq(n, i requires 0 <= i < n => ParseField(r, fields, props[i], types[i]));
    assert forall i :: 0 <= i < n ==> rs[i] == ParseField(r, fields, props[i], types[i]);
    Collect(rs)
  }

  // ----- Reordering -----

  /** Looking a struct up by name; several definitions of one name are an error. */
  datatype Lookup = Fields(names: seq<string>) | Unknown | Ambiguous
  type Definitions = string -> Lookup

  /** Position of `f` among the first `n` names; the last one counts, as in a map built from pairs. */
  function IndexOf(props: seq<string>, n: nat, f: string): (i: Option<nat>)
    requires n <= |props|
    ensures i.Some? ==> i.value < n && props[i.value] == f
    ensures i.None? <==> f !in props[..n]
  {
    if n == 0 then None
    else if props[n - 1] == f then
      assert props[..n][n - 1] == f;
      Some(n - 1)
    else
      assert props[..n] == props[..n - 1] + [props[n - 1]];
      IndexOf(props, n - 1, f)
  }

  function Reorder(ty: Ty, defs: Definitions): Result<Ty>
    decreases ty, 0
  {
    match ty
    case StructTy(name, props, types) =>
      (match defs(name)
       case Fields(names) =>
         var ts :- ReorderFields(names, props, types, defs); Ok(StructTy(name, names, ts))
       case Unknown => var ts :- ReorderAll(types, defs); Ok(StructTy(name, props, ts))
       case Ambiguous => Err)
    case ArrayTy(inner) => var t :- Reorder(inner, defs); Ok(ArrayTy(t))
    case FixedTy(inner, len) => var t :- Reorder(inner, defs); Ok(FixedTy(t, len))
    case TupleTy(types) => var ts :- ReorderAll(types, defs); Ok(TupleTy(ts))
    case _ => Ok(ty)
  }

  function ReorderAll(types: seq<Ty>, defs: Definitions): (ts: Result<seq<Ty>>)
    ensures ts.Ok? <==> forall i :: 0 <= i < |types| ==> Reorder(types[i], defs).Ok?
    ensures ts.Ok? ==> |ts.value| == |types| && forall i :: 0 <= i < |types| ==>
              Ok(ts.value[i]) == Reorder(types[i], defs)
    decreases types, 1
  {
    var rs := seq(|types|, i requires 0 <= i < |types| => Reorder(types[i], defs));
    assert forall i :: 0 <= i < |types| ==> rs[i] == Reorder(types[i], defs);
    Collect(rs)
  }

  function ReorderFields(names: seq<string>, props: seq<string>, types: seq<Ty>, defs: Definitions)
      : (ts: Result<seq<Ty>>)
    ensures ts.Ok? <==> forall i :: 0 <= i < |names| ==> FieldTy(names[i], props, types, defs).Ok?
    ensures ts.Ok? ==> |ts.value| == |names| && forall i :: 0 <= i < |names| ==>
              Ok(ts.value[i]) == FieldTy(names[i], props, types, defs)
    decreases types, 2
  {
    var rs := seq(|names|, i requires 0 <= i < |names| => FieldTy(names[i], props, types, defs));
    assert forall i :: 0 <= i < |names| ==> rs[i] == FieldTy(names[i], props, types, defs);
    Collect(rs)
  }

  /** The type that the field `f` of a struct is reordered to. */
  function FieldTy(f: string, props: seq<string>, types: seq<Ty>, defs: Definitions): Result<Ty>
    decreases types, 1
  {
    var i := IndexOf(props, Min(|props|, |types|), f);
    if i.None? then Err else Reorder(types[i.value], defs)
  }

  // ----- Reordering twice is reordering once -----

  lemma {:induction false} ReorderIdempotent(ty: Ty, defs: Definitions)
    requires Reorder(ty, defs).Ok?
    ensures Reorder(Reorder(ty, defs).value, defs) == Reorder(ty, defs)
    decreases ty, 1
  {
    match ty
    case StructTy(name, props, types) =>
      match defs(name) {
        case Fields(names) => FieldsIdempotent(names, props, types, defs);
        case Unknown => AllIdempotent(types, defs);
        case Ambiguous =>
      }
    case ArrayTy(inner) => ReorderIdempotent(inner, defs);
    case FixedTy(inner, _) => ReorderIdempotent(inner, defs);
    case TupleTy(types) => AllIdempotent(types, defs);
    case _ =>
  }

  lemma {:induction false} AllIdempotent(types: seq<Ty>, defs: Definitions)
    requires ReorderAll(types, defs).Ok?
    ensures ReorderAll(ReorderAll(types, defs).value, defs) == ReorderAll(types, defs)
    decreases types
  {
    var ts := ReorderAll(types, defs).value;
    forall i | 0 <= i < |types| ensures Reorder(ts[i], defs) == Ok(ts[i]) {
      ReorderIdempotent(types[i], defs);
    }
    assert ReorderAll(ts, defs).Ok? && ReorderAll(ts, defs).value == ts;
  }

  lemma {:induction false} FieldsIdempotent(names: seq<string>, props: seq<string>, types: seq<Ty>, defs: Definitions)
    requires ReorderFields(names, props, types, defs).Ok?
    ensures var ts := ReorderFields(names, props, types, defs).value;
            ReorderFields(names, names, ts, defs) == Ok(ts)
    decreases types
  {
    var ts := ReorderFields(names, props, types, defs).value;
    forall i | 0 <= i < |names| ensures FieldTy(names[i], names, ts, defs) == Ok(ts[i]) {
      assert names[..|names|] == names;
      var j := IndexOf(names, |names|, names[i]).value;
      var k := IndexOf(props, Min(|props|, |types|), names[i]).value;
      assert Ok(ts[i]) == FieldTy(names[i], props, types, defs) == Ok(ts[j]);
      ReorderIdempotent(types[k], defs);
    }
    assert ReorderFields(names, names, ts, defs).value == ts;
  }
}
