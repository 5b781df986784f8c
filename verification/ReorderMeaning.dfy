/** When parsing under a reordered type means the same as under the original. */
module ReorderMeaning {
  import opened Common
  import opened JsonValue
  import opened StructOrder

  // ----- Values up to the order of fields -----

  predicate Distinct(xs: seq<string>) {
    forall i, j :: 0 <= i < j < |xs| ==> xs[i] != xs[j]
  }

  predicate SameNames(xs: seq<string>, ys: seq<string>) {
    (forall f :: f in xs ==> f in ys) && (forall f :: f in ys ==> f in xs)
  }

  /** Equal up to the order of struct fields, at every depth. */
  ghost predicate SameValue(a: Val, b: Val)
    decreases a
  {
    || a == b
    || (match a
        case StructVal(name, props, vals) =>
          && b.StructVal? && b.name == name
          && |props| == |vals| && |b.props| == |b.vals|
          && SameNames(props, b.props)
          && (forall i, j :: 0 <= i < |vals| && 0 <= j < |b.vals| && props[i] == b.props[j] ==>
                SameValue(vals[i], b.vals[j]))
        case ArrayVal(vals) => b.ArrayVal? && SameValues(vals, b.vals)
        case FixedVal(vals) => b.FixedVal? && SameValues(vals, b.vals)
        case TupleVal(vals) => b.TupleVal? && SameValues(vals, b.vals)
        case _ => false)
  }

  ghost predicate SameValues(a: seq<Val>, b: seq<Val>)
    decreases a
  {
    |a| == |b| && forall i :: 0 <= i < |a| ==> SameValue(a[i], b[i])
  }

  /** Both parses fail, or both succeed with the same value up to field order. */
  ghost predicate SameParse(a: Result<Val>, b: Result<Val>) {
    a.Ok? == b.Ok? && (a.Ok? ==> SameValue(a.value, b.value))
  }

  ghost predicate SameParses(a: Result<seq<Val>>, b: Result<seq<Val>>) {
    a.Ok? == b.Ok? && (a.Ok? ==> SameValues(a.value, b.value))
  }

  /** `stable` makes two parses the same, and is needed for it where the first one succeeds. */
  ghost predicate Exact(stable: bool, a: Result<Val>, b: Result<Val>) {
    (stable ==> SameParse(a, b)) && (a.Ok? && SameParse(a, b) ==> stable)
  }

  ghost predicate AllExact(stable: bool, a: Result<seq<Val>>, b: Result<seq<Val>>) {
    (stable ==> SameParses(a, b)) && (a.Ok? && SameParses(a, b) ==> stable)
  }

  ghost predicate Collected(rs: seq<Result<Val>>, a: Result<seq<Val>>) {
    && (a.Ok? <==> forall i :: 0 <= i < |rs| ==> rs[i].Ok?)
    && (a.Ok? ==> |a.value| == |rs| && forall i :: 0 <= i < |rs| ==> Ok(a.value[i]) == rs[i])
  }

  /** Sequences of results are the same if and, when they succeed, only if they are so one by one. */
  lemma InOrderExact(xs: seq<Result<Val>>, ys: seq<Result<Val>>, a: Result<seq<Val>>, b: Result<seq<Val>>)
    requires |xs| == |ys| && Collected(xs, a) && Collected(ys, b)
    ensures AllExact(forall i :: 0 <= i < |xs| ==> SameParse(xs[i], ys[i]), a, b)
  {
  }

  lemma SameLists(x: seq<Val>, y: seq<Val>)
    ensures SameValue(TupleVal(x), TupleVal(y)) <==> SameValues(x, y)
    ensures SameValue(ArrayVal(x), ArrayVal(y)) <==> SameValues(x, y)
    ensures SameValue(FixedVal(x), FixedVal(y)) <==> SameValues(x, y)
  {
  }

  lemma WrapExact(ty: Ty, t: Ty, a: Result<seq<Val>>, b: Result<seq<Val>>)
    requires (ty.TupleTy? && t.TupleTy?) || (ty.ArrayTy? && t.ArrayTy?) || (ty.FixedTy? && t.FixedTy?)
    ensures SameParse(Wrap(ty, a), Wrap(t, b)) <==> SameParses(a, b)
  {
    if a.Ok? && b.Ok? {
      SameLists(a.value, b.value);
    }
  }

  /** The same for the fields of two structs, matched by name. */
  ghost predicate FieldsSame(props: seq<string>, xs: seq<Result<Val>>, names: seq<string>, ys: seq<Result<Val>>)
    requires |props| == |xs| && |names| == |ys|
  {
    forall i, j :: 0 <= i < |xs| && 0 <= j < |ys| && props[i] == names[j] ==> SameParse(xs[i], ys[j])
  }

  lemma FieldsSucceed(props: seq<string>, xs: seq<Result<Val>>, names: seq<string>, ys: seq<Result<Val>>)
    requires |props| == |xs| && |names| == |ys| && SameNames(props, names) && FieldsSame(props, xs, names, ys)
    ensures (forall i :: 0 <= i < |xs| ==> xs[i].Ok?) <==> (forall j :: 0 <= j < |ys| ==> ys[j].Ok?)
  {
    if j :| 0 <= j < |ys| && ys[j].Err? {
      assert names[j] in props;
      var i :| 0 <= i < |xs| && props[i] == names[j];
      assert SameParse(xs[i], ys[j]);
    }
    if i :| 0 <= i < |xs| && xs[i].Err? {
      assert props[i] in names;
      var j :| 0 <= j < |ys| && props[i] == names[j];
      assert SameParse(xs[i], ys[j]);
    }
  }

  lemma SameStructs(name: string, props: seq<string>, x: seq<Val>, names: seq<string>, y: seq<Val>)
    requires |props| == |x| && |names| == |y| && Distinct(props) && SameNames(props, names)
    ensures SameValue(StructVal(name, props, x), StructVal(name, names, y))
       <==> forall i, j :: 0 <= i < |x| && 0 <= j < |y| && props[i] == names[j] ==> SameValue(x[i], y[j])
  {
    if props == names {
      assert forall i, j :: 0 <= i < |x| && 0 <= j < |y| && props[i] == names[j] ==> i == j;
    }
  }

  lemma ByNameExact(ty: Ty, xs: seq<Result<Val>>, a: Result<seq<Val>>, t: Ty, ys: seq<Result<Val>>, b: Result<seq<Val>>)
    requires ty.StructTy? && t.StructTy? && ty.name == t.name && Distinct(ty.props) && SameNames(ty.props, t.props)
    requires |ty.props| == |xs| && |t.props| == |ys| && Collected(xs, a) && Collected(ys, b)
    ensures Exact(FieldsSame(ty.props, xs, t.props, ys), Wrap(ty, a), Wrap(t, b))
  {
    var props, names := ty.props, t.props;
    if FieldsSame(props, xs, names, ys) {
      FieldsSucceed(props, xs, names, ys);
    }
    if a.Ok? && b.Ok? {
      SameStructs(ty.name, props, a.value, names, b.value);
      forall i, j | 0 <= i < |xs| && 0 <= j < |ys| && props[i] == names[j]
        ensures SameParse(xs[i], ys[j]) <==> SameValue(a.value[i], b.value[j])
      {
        assert Ok(a.value[i]) == xs[i] && Ok(b.value[j]) == ys[j];
      }
    }
  }

  // ----- When reordering preserves meaning -----

  /** Definitions name exactly the distinct fields of every struct, at every depth. */
  ghost predicate Matches(ty: Ty, defs: Definitions) {
    match ty
    case StructTy(name, props, types) =>
      && |props| == |types|
      && Distinct(props)
      && !defs(name).Ambiguous?
      && (defs(name).Fields? ==> Distinct(defs(name).names) && SameNames(props, defs(name).names))
      && forall i :: 0 <= i < |types| ==> Matches(types[i], defs)
    case ArrayTy(inner) => Matches(inner, defs)
    case FixedTy(inner, _) => Matches(inner, defs)
    case TupleTy(types) => forall i :: 0 <= i < |types| ==> Matches(types[i], defs)
    case _ => true
  }

  /** A type whose definitions match can be reordered. */
  lemma {:induction false} MatchingReorders(ty: Ty, defs: Definitions)
    requires Matches(ty, defs)
    ensures Reorder(ty, defs).Ok?
    decreases ty
  {
    match ty
    case StructTy(name, props, types) =>
      forall i | 0 <= i < |types| ensures Reorder(types[i], defs).Ok? {
        MatchingReorders(types[i], defs);
      }
      if defs(name).Fields? {
        var names := defs(name).names;
        assert props[..|props|] == props;
        forall i | 0 <= i < |names| ensures FieldTy(names[i], props, types, defs).Ok? {
          assert names[i] in props;
        }
      }
    case ArrayTy(inner) => MatchingReorders(inner, defs);
    case FixedTy(inner, _) => MatchingReorders(inner, defs);
    case TupleTy(types) =>
      forall i | 0 <= i < |types| ensures Reorder(types[i], defs).Ok? {
        MatchingReorders(types[i], defs);
      }
    case _ =>
  }

  lemma {:induction false} DistinctCount(xs: seq<string>)
    requires Distinct(xs)
    ensures |set x | x in xs| == |xs|
  {
    if xs != [] {
      var init, x := xs[..|xs| - 1], xs[|xs| - 1];
      DistinctCount(init);
      assert (set y | y in xs) == (set y | y in init) + {x};
    }
  }

  lemma SameCount(xs: seq<string>, ys: seq<string>)
    requires Distinct(xs) && Distinct(ys) && SameNames(xs, ys)
    ensures |xs| == |ys|
  {
    DistinctCount(xs);
    DistinctCount(ys);
    assert (set x | x in xs) == (set y | y in ys);
  }

  lemma UniqueIndex(props: seq<string>, i: nat)
    requires Distinct(props) && i < |props|
    ensures IndexOf(props, |props|, props[i]) == Some(i)
  {
    assert props[..|props|] == props;
  }

  /** A struct reordered has the same fields, each with its type reordered, whatever position it moves to. */
  lemma ReorderedStruct(ty: Ty, defs: Definitions)
    requires ty.StructTy? && Matches(ty, defs) && Reorder(ty, defs).Ok?
    ensures var t := Reorder(ty, defs).value;
            && t.StructTy? && t.name == ty.name && SameNames(ty.props, t.props)
            && |t.types| == |t.props| == |ty.types|
            && forall i, j :: 0 <= i < |ty.props| && 0 <= j < |t.props| && ty.props[i] == t.props[j] ==>
                 Ok(t.types[j]) == Reorder(ty.types[i], defs)
  {
    var t := Reorder(ty, defs).value;
    forall i, j | 0 <= i < |ty.props| && 0 <= j < |t.props| && ty.props[i] == t.props[j]
      ensures Ok(t.types[j]) == Reorder(ty.types[i], defs)
    {
      UniqueIndex(ty.props, i);
      if defs(ty.name).Fields? {
        assert Ok(t.types[j]) == FieldTy(t.props[j], ty.props, ty.types, defs);
      }
    }
    if defs(ty.name).Fields? {
      SameCount(ty.props, t.props);
    }
  }

  /**
   A text reads the same under the reordered type: wherever a struct stands, each field finds, at
   its old and at its new position, texts that read the same.
   */
  ghost predicate TextStable(r: Reader, s: string, ty: Ty, defs: Definitions)
    decreases ty, 0
  {
    || Reorder(ty, defs) == Ok(ty)
    || (match ty
        case StructTy(_, props, types) =>
          var t := Reorder(ty, defs);
          Splits(r.parts(s), |types|) && |props| == |types|
          && t.Ok? && |t.value.props| == |t.value.types| == |types| ==>
            PartsStable(r, r.parts(s).value, props, types, t.value.props, t.value.types, defs)
        case TupleTy(types) =>
          Splits(r.parts(s), |types|) ==> TextsStable(r, r.parts(s).value, types, defs)
        case ArrayTy(inner) => r.elems(s).Some? ==> EachTextStable(r, r.elems(s).value, inner, defs)
        case FixedTy(inner, len) => Splits(r.elems(s), len) ==> EachTextStable(r, r.elems(s).value, inner, defs)
        case _ => true)
  }

  ghost predicate TextsStable(r: Reader, texts: seq<string>, types: seq<Ty>, defs: Definitions)
    requires |texts| == |types|
    decreases types
  {
    forall i :: 0 <= i < |types| ==> TextStable(r, texts[i], types[i], defs)
  }

  ghost predicate EachTextStable(r: Reader, texts: seq<string>, inner: Ty, defs: Definitions)
    decreases inner, 1
  {
    forall i :: 0 <= i < |texts| ==> TextStable(r, texts[i], inner, defs)
  }

  /** Each field's part, at its old and its new position. */
  ghost predicate PartsStable(r: Reader, parts: seq<string>, props: seq<string>, types: seq<Ty>,
                              names: seq<string>, ts: seq<Ty>, defs: Definitions)
    requires |parts| == |props| == |types| == |names| == |ts|
    decreases types
  {
    forall i, j :: 0 <= i < |types| && 0 <= j < |types| && props[i] == names[j] ==>
      if i == j then TextStable(r, parts[i], types[i], defs)
      else SameParse(Coerce(r, parts[i], types[i]), Coerce(r, parts[j], ts[j]))
  }

  /** A JSON value reads the same: objects always do, texts must be stable. */
  ghost predicate Stable(r: Reader, v: Json, ty: Ty, defs: Definitions)
    decreases ty, 0
  {
    match v
    case List(elems) =>
      (match ty
       case TupleTy(types) => |elems| == |types| ==> ElemsStable(r, elems, types, defs)
       case ArrayTy(inner) => EachStable(r, elems, inner, defs)
       case FixedTy(inner, len) => |elems| == len ==> EachStable(r, elems, inner, defs)
       case _ => true)
    case Object(fields) =>
      ty.StructTy? && |ty.props| == |ty.types| ==> FieldsStable(r, fields, ty.props, ty.types, defs)
    case _ => TextStable(r, r.text(v), ty, defs)
  }

  ghost predicate ElemsStable(r: Reader, elems: seq<Json>, types: seq<Ty>, defs: Definitions)
    requires |elems| == |types|
    decreases types
  {
    forall i :: 0 <= i < |types| ==> Stable(r, elems[i], types[i], defs)
  }

  ghost predicate EachStable(r: Reader, elems: seq<Json>, inner: Ty, defs: Definitions)
    decreases inner, 1
  {
    forall i :: 0 <= i < |elems| ==> Stable(r, elems[i], inner, defs)
  }

  ghost predicate FieldsStable(r: Reader, fields: map<string, Json>, props: seq<string>, types: seq<Ty>,
                               defs: Definitions)
    requires |props| == |types|
    decreases types
  {
    forall i :: 0 <= i < |types| && props[i] in fields ==> Stable(r, fields[props[i]], types[i], defs)
  }

  function Texts(r: Reader, texts: seq<string>, types: seq<Ty>): (rs: seq<Result<Val>>)
    requires |texts| == |types|
    ensures |rs| == |types| && forall i :: 0 <= i < |types| ==> rs[i] == Coerce(r, texts[i], types[i])
  {
    seq(|types|, i requires 0 <= i < |types| => Coerce(r, texts[i], types[i]))
  }

  function Repeated(ty: Ty, n: nat): (ts: seq<Ty>)
    ensures |ts| == n && forall i :: 0 <= i < n ==> ts[i] == ty
  {
    seq(n, _ => ty)
  }

  /** For texts: a stable one reads the same, and one that reads the same is stable. */
  lemma {:induction false} TextExact(r: Reader, s: string, ty: Ty, defs: Definitions)
    requires Matches(ty, defs) && Reorder(ty, defs).Ok?
    ensures Exact(TextStable(r, s, ty, defs), Coerce(r, s, ty), Coerce(r, s, Reorder(ty, defs).value))
    decreases ty, 1
  {
    if Reorder(ty, defs) != Ok(ty) {
      if ty.StructTy? {
        if Splits(r.parts(s), |ty.types|) {
          TextStructExact(r, s, r.parts(s).value, ty, defs);
        } else {
          ReorderedStruct(ty, defs);
        }
      } else if ty.TupleTy? {
        TextTupleExact(r, s, ty, defs);
      } else {
        TextArrayExact(r, s, ty, defs);
      }
    }
  }

  lemma {:induction false} TextTupleExact(r: Reader, s: string, ty: Ty, defs: Definitions)
    requires ty.TupleTy? && Matches(ty, defs) && Reorder(ty, defs).Ok? && Reorder(ty, defs) != Ok(ty)
    ensures Exact(TextStable(r, s, ty, defs), Coerce(r, s, ty), Coerce(r, s, Reorder(ty, defs).value))
    decreases ty, 0
  {
    if Splits(r.parts(s), |ty.types|) {
      var parts, ts := r.parts(s).value, ReorderAll(ty.types, defs).value;
      TextsExact(r, parts, ty.types, ts, defs);
      WrapExact(ty, TupleTy(ts), CoerceZip(r, parts, ty.types), CoerceZip(r, parts, ts));
    }
  }

  lemma {:induction false} TextArrayExact(r: Reader, s: string, ty: Ty, defs: Definitions)
    requires (ty.ArrayTy? || ty.FixedTy?) && Matches(ty, defs) && Reorder(ty, defs).Ok? && Reorder(ty, defs) != Ok(ty)
    ensures Exact(TextStable(r, s, ty, defs), Coerce(r, s, ty), Coerce(r, s, Reorder(ty, defs).value))
    decreases ty, 0
  {
    if r.elems(s).Some? {
      var elems, t := r.elems(s).value, Reorder(ty.inner, defs).value;
      TextEachExact(r, elems, ty.inner, defs);
      WrapExact(ty, Reorder(ty, defs).value, CoerceEach(r, elems, ty.inner), CoerceEach(r, elems, t));
    }
  }

  lemma {:induction false} TextsExact(r: Reader, texts: seq<string>, types: seq<Ty>, ts: seq<Ty>, defs: Definitions)
    requires |texts| == |types| == |ts| && forall i :: 0 <= i < |types| ==> Matches(types[i], defs)
    requires forall i :: 0 <= i < |types| ==> Reorder(types[i], defs) == Ok(ts[i])
    ensures AllExact(TextsStable(r, texts, types, defs), CoerceZip(r, texts, types), CoerceZip(r, texts, ts))
    decreases types, 0
  {
    forall i | 0 <= i < |types|
      ensures Exact(TextStable(r, texts[i], types[i], defs), Coerce(r, texts[i], types[i]), Coerce(r, texts[i], ts[i]))
    {
      TextExact(r, texts[i], types[i], defs);
    }
    InOrderExact(Texts(r, texts, types), Texts(r, texts, ts), CoerceZip(r, texts, types), CoerceZip(r, texts, ts));
  }

  lemma {:induction false} TextEachExact(r: Reader, texts: seq<string>, inner: Ty, defs: Definitions)
    requires Matches(inner, defs) && Reorder(inner, defs).Ok?
    ensures AllExact(EachTextStable(r, texts, inner, defs),
                     CoerceEach(r, texts, inner), CoerceEach(r, texts, Reorder(inner, defs).value))
    decreases inner, 2
  {
    var t, n := Reorder(inner, defs).value, |texts|;
    forall i | 0 <= i < n
      ensures Exact(TextStable(r, texts[i], inner, defs), Coerce(r, texts[i], inner), Coerce(r, texts[i], t))
    {
      TextExact(r, texts[i], inner, defs);
    }
    InOrderExact(Texts(r, texts, Repeated(inner, n)), Texts(r, texts, Repeated(t, n)),
                 CoerceEach(r, texts, inner), CoerceEach(r, texts, t));
  }

  lemma CoerceStruct(r: Reader, s: string, parts: seq<string>, ty: Ty)
    requires ty.StructTy? && r.parts(s) == Some(parts) && |parts| == |ty.types|
    ensures Coerce(r, s, ty) == Wrap(ty, CoerceZip(r, parts, ty.types))
    ensures Collected(Texts(r, parts, ty.types), CoerceZip(r, parts, ty.types))
  {
  }

  lemma StableStruct(r: Reader, s: string, parts: seq<string>, ty: Ty, t: Ty, defs: Definitions)
    requires ty.StructTy? && t.StructTy? && Reorder(ty, defs) == Ok(t) && t != ty
    requires r.parts(s) == Some(parts) && |parts| == |ty.props| == |ty.types| == |t.props| == |t.types|
    ensures TextStable(r, s, ty, defs) <==> PartsStable(r, parts, ty.props, ty.types, t.props, t.types, defs)
  {
  }

  lemma {:induction false} TextStructExact(r: Reader, s: string, parts: seq<string>, ty: Ty, defs: Definitions)
    requires ty.StructTy? && Matches(ty, defs) && Reorder(ty, defs).Ok? && Reorder(ty, defs) != Ok(ty)
    requires r.parts(s) == Some(parts) && |parts| == |ty.types|
    ensures Exact(TextStable(r, s, ty, defs), Coerce(r, s, ty), Coerce(r, s, Reorder(ty, defs).value))
    decreases ty, 0
  {
    var t := Reorder(ty, defs).value;
    ReorderedStruct(ty, defs);
    PartsExact(r, parts, ty.props, ty.types, t.props, t.types, defs);
    CoerceStruct(r, s, parts, ty);
    CoerceStruct(r, s, parts, t);
    StableStruct(r, s, parts, ty, t, defs);
    ByNameExact(ty, Texts(r, parts, ty.types), CoerceZip(r, parts, ty.types),
                t, Texts(r, parts, t.types), CoerceZip(r, parts, t.types));
  }

  lemma {:induction false} PartsExact(r: Reader, parts: seq<string>, props: seq<string>, types: seq<Ty>,
                                      names: seq<string>, ts: seq<Ty>, defs: Definitions)
    requires |parts| == |props| == |types| == |names| == |ts|
    requires forall i :: 0 <= i < |types| ==> Matches(types[i], defs)
    requires forall i, j :: 0 <= i < |props| && 0 <= j < |names| && props[i] == names[j] ==>
               Ok(ts[j]) == Reorder(types[i], defs)
    ensures var xs, ys := Texts(r, parts, types), Texts(r, parts, ts);
            && (PartsStable(r, parts, props, types, names, ts, defs) ==> FieldsSame(props, xs, names, ys))
            && (CoerceZip(r, parts, types).Ok? && FieldsSame(props, xs, names, ys) ==>
                  PartsStable(r, parts, props, types, names, ts, defs))
    decreases types, 0
  {
    forall i | 0 <= i < |types| && props[i] == names[i]
      ensures Exact(TextStable(r, parts[i], types[i], defs), Coerce(r, parts[i], types[i]), Coerce(r, parts[i], ts[i]))
    {
      TextExact(r, parts[i], types[i], defs);
    }
  }

  // ----- JSON values -----

  /**
   Parsing under the reordered type is the same as under the original, up to field order, if every
   text in the place of a struct is stable; and where the original parses, only then.
   */
  lemma {:induction false} ReorderExact(r: Reader, v: Json, ty: Ty, defs: Definitions)
    requires Matches(ty, defs)
    ensures Reorder(ty, defs).Ok?
    ensures Exact(Stable(r, v, ty, defs), ParseAs(r, v, ty), ParseAs(r, v, Reorder(ty, defs).value))
    decreases ty, 1
  {
    MatchingReorders(ty, defs);
    match v
    case List(elems) =>
      if ty.TupleTy? {
        TupleExact(r, elems, ty, defs);
      } else if ty.ArrayTy? || ty.FixedTy? {
        ArrayExact(r, elems, ty, defs);
      } else if ty.StructTy? {
        ReorderedStruct(ty, defs);
      }
    case Object(fields) =>
      if ty.StructTy? {
        ObjectExact(r, fields, ty, defs);
      }
    case _ => ScalarExact(r, v, ty, defs);
  }

  lemma {:induction false} ScalarExact(r: Reader, v: Json, ty: Ty, defs: Definitions)
    requires !v.List? && !v.Object? && Matches(ty, defs) && Reorder(ty, defs).Ok?
    ensures Exact(Stable(r, v, ty, defs), ParseAs(r, v, ty), ParseAs(r, v, Reorder(ty, defs).value))
  {
    if ty.StructTy? {
      ReorderedStruct(ty, defs);
    }
    TextExact(r, r.text(v), ty, defs);
  }

  function Parses(r: Reader, elems: seq<Json>, types: seq<Ty>): (rs: seq<Result<Val>>)
    requires |elems| == |types|
    ensures |rs| == |types| && forall i :: 0 <= i < |types| ==> rs[i] == ParseAs(r, elems[i], types[i])
  {
    seq(|types|, i requires 0 <= i < |types| => ParseAs(r, elems[i], types[i]))
  }

  lemma TupleFromElems(r: Reader, elems: seq<Json>, ty: Ty, t: Ty, defs: Definitions)
    requires ty.TupleTy? && t.TupleTy? && |elems| == |ty.types| == |t.types|
    requires AllExact(ElemsStable(r, elems, ty.types, defs), ParseZip(r, elems, ty.types), ParseZip(r, elems, t.types))
    ensures Exact(Stable(r, List(elems), ty, defs), ParseAs(r, List(elems), ty), ParseAs(r, List(elems), t))
  {
    WrapExact(ty, t, ParseZip(r, elems, ty.types), ParseZip(r, elems, t.types));
  }

  lemma {:induction false} TupleExact(r: Reader, elems: seq<Json>, ty: Ty, defs: Definitions)
    requires ty.TupleTy? && Matches(ty, defs) && Reorder(ty, defs).Ok?
    ensures Exact(Stable(r, List(elems), ty, defs),
                  ParseAs(r, List(elems), ty), ParseAs(r, List(elems), Reorder(ty, defs).value))
    decreases ty, 0
  {
    if |elems| == |ty.types| {
      var ts := ReorderAll(ty.types, defs).value;
      ElementsExact(r, elems, ty.types, ts, defs);
      TupleFromElems(r, elems, ty, TupleTy(ts), defs);
    }
  }

  lemma {:induction false} ArrayExact(r: Reader, elems: seq<Json>, ty: Ty, defs: Definitions)
    requires (ty.ArrayTy? || ty.FixedTy?) && Matches(ty, defs) && Reorder(ty, defs).Ok?
    ensures Exact(Stable(r, List(elems), ty, defs),
                  ParseAs(r, List(elems), ty), ParseAs(r, List(elems), Reorder(ty, defs).value))
    decreases ty, 0
  {
    var t := Reorder(ty.inner, defs).value;
    EachExact(r, elems, ty.inner, defs);
    WrapExact(ty, Reorder(ty, defs).value, ParseEach(r, elems, ty.inner), ParseEach(r, elems, t));
  }

  lemma {:induction false} ElementsExact(r: Reader, elems: seq<Json>, types: seq<Ty>, ts: seq<Ty>, defs: Definitions)
    requires |elems| == |types| == |ts| && forall i :: 0 <= i < |types| ==> Matches(types[i], defs)
    requires forall i :: 0 <= i < |types| ==> Reorder(types[i], defs) == Ok(ts[i])
    ensures AllExact(ElemsStable(r, elems, types, defs), ParseZip(r, elems, types), ParseZip(r, elems, ts))
    decreases types, 0
  {
    forall i | 0 <= i < |types|
      ensures Exact(Stable(r, elems[i], types[i], defs), ParseAs(r, elems[i], types[i]), ParseAs(r, elems[i], ts[i]))
    {
      ReorderExact(r, elems[i], types[i], defs);
    }
    InOrderExact(Parses(r, elems, types), Parses(r, elems, ts), ParseZip(r, elems, types), ParseZip(r, elems, ts));
  }

  lemma {:induction false} EachExact(r: Reader, elems: seq<Json>, inner: Ty, defs: Definitions)
    requires Matches(inner, defs) && Reorder(inner, defs).Ok?
    ensures AllExact(EachStable(r, elems, inner, defs),
                     ParseEach(r, elems, inner), ParseEach(r, elems, Reorder(inner, defs).value))
    decreases inner, 2
  {
    var t, n := Reorder(inner, defs).value, |elems|;
    forall i | 0 <= i < n
      ensures Exact(Stable(r, elems[i], inner, defs), ParseAs(r, elems[i], inner), ParseAs(r, elems[i], t))
    {
      ReorderExact(r, elems[i], inner, defs);
    }
    InOrderExact(Parses(r, elems, Repeated(inner, n)), Parses(r, elems, Repeated(t, n)),
                 ParseEach(r, elems, inner), ParseEach(r, elems, t));
  }

  function FieldParses(r: Reader, fields: map<string, Json>, props: seq<string>, types: seq<Ty>): (rs: seq<Result<Val>>)
    requires |props| == |types|
    ensures |rs| == |types| && forall i :: 0 <= i < |types| ==> rs[i] == ParseField(r, fields, props[i], types[i])
  {
    seq(|types|, i requires 0 <= i < |types| => ParseField(r, fields, props[i], types[i]))
  }

  /** What the fields of an object must do for the object. */
  lemma ObjectFromFields(r: Reader, fields: map<string, Json>, ty: Ty, t: Ty, defs: Definitions)
    requires ty.StructTy? && t.StructTy? && ty.name == t.name && |ty.props| == |ty.types| && |t.props| == |t.types|
    requires Distinct(ty.props) && SameNames(ty.props, t.props)
    requires var xs, ys := FieldParses(r, fields, ty.props, ty.types), FieldParses(r, fields, t.props, t.types);
             && (FieldsStable(r, fields, ty.props, ty.types, defs) ==> FieldsSame(ty.props, xs, t.props, ys))
             && (ParseFields(r, fields, ty.props, ty.types).Ok? && FieldsSame(ty.props, xs, t.props, ys) ==>
                   FieldsStable(r, fields, ty.props, ty.types, defs))
    ensures Exact(Stable(r, Object(fields), ty, defs), ParseAs(r, Object(fields), ty), ParseAs(r, Object(fields), t))
  {
    ByNameExact(ty, FieldParses(r, fields, ty.props, ty.types), ParseFields(r, fields, ty.props, ty.types),
                t, FieldParses(r, fields, t.props, t.types), ParseFields(r, fields, t.props, t.types));
  }

  lemma {:induction false} ObjectExact(r: Reader, fields: map<string, Json>, ty: Ty, defs: Definitions)
    requires ty.StructTy? && Matches(ty, defs) && Reorder(ty, defs).Ok?
    ensures Exact(Stable(r, Object(fields), ty, defs),
                  ParseAs(r, Object(fields), ty), ParseAs(r, Object(fields), Reorder(ty, defs).value))
    decreases ty, 0
  {
    var t := Reorder(ty, defs).value;
    ReorderedStruct(ty, defs);
    FieldsExact(r, fields, ty.props, ty.types, t.props, t.types, defs);
    ObjectFromFields(r, fields, ty, t, defs);
  }

  lemma {:induction false} FieldsExact(r: Reader, fields: map<string, Json>, props: seq<string>, types: seq<Ty>,
                                       names: seq<string>, ts: seq<Ty>, defs: Definitions)
    requires |props| == |types| && |names| == |ts| && SameNames(props, names)
    requires forall i :: 0 <= i < |types| ==> Matches(types[i], defs)
    requires forall i, j :: 0 <= i < |props| && 0 <= j < |names| && props[i] == names[j] ==>
               Ok(ts[j]) == Reorder(types[i], defs)
    ensures var xs, ys := FieldParses(r, fields, props, types), FieldParses(r, fields, names, ts);
            && (FieldsStable(r, fields, props, types, defs) ==> FieldsSame(props, xs, names, ys))
            && (ParseFields(r, fields, props, types).Ok? && FieldsSame(props, xs, names, ys) ==>
                  FieldsStable(r, fields, props, types, defs))
    decreases types, 0
  {
    var xs, ys := FieldParses(r, fields, props, types), FieldParses(r, fields, names, ts);
    forall i, j | 0 <= i < |props| && 0 <= j < |names| && props[i] == names[j]
      ensures props[i] in fields ==> Exact(Stable(r, fields[props[i]], types[i], defs), xs[i], ys[j])
      ensures props[i] !in fields ==> SameParse(xs[i], ys[j])
    {
      if props[i] in fields {
        ReorderExact(r, fields[props[i]], types[i], defs);
      }
    }
    forall i | 0 <= i < |props| ensures exists j :: 0 <= j < |names| && props[i] == names[j] {
      assert props[i] in names;
    }
  }

  /** Scalars stand only where reordering changes nothing; structs are thus given as objects. */
  predicate StructsAreObjects(v: Json, ty: Ty, defs: Definitions)
    decreases ty
  {
    match v
    case List(elems) =>
      (match ty
       case TupleTy(types) =>
         |elems| == |types| ==> forall i :: 0 <= i < |types| ==> StructsAreObjects(elems[i], types[i], defs)
       case ArrayTy(inner) => forall i :: 0 <= i < |elems| ==> StructsAreObjects(elems[i], inner, defs)
       case FixedTy(inner, len) =>
         |elems| == len ==> forall i :: 0 <= i < len ==> StructsAreObjects(elems[i], inner, defs)
       case _ => true)
    case Object(fields) =>
      ty.StructTy? && |ty.props| == |ty.types| ==>
        forall i :: 0 <= i < |ty.types| && ty.props[i] in fields ==>
          StructsAreObjects(fields[ty.props[i]], ty.types[i], defs)
    case _ => Reorder(ty, defs) == Ok(ty)
  }

  lemma {:induction false} ObjectsAreStable(r: Reader, v: Json, ty: Ty, defs: Definitions)
    requires StructsAreObjects(v, ty, defs)
    ensures Stable(r, v, ty, defs)
    decreases ty
  {
    match v
    case List(elems) =>
      if ty.TupleTy? && |elems| == |ty.types| {
        forall i | 0 <= i < |elems| ensures Stable(r, elems[i], ty.types[i], defs) {
          ObjectsAreStable(r, elems[i], ty.types[i], defs);
        }
      } else if ty.ArrayTy? || (ty.FixedTy? && |elems| == ty.len) {
        forall i | 0 <= i < |elems| ensures Stable(r, elems[i], ty.inner, defs) {
          ObjectsAreStable(r, elems[i], ty.inner, defs);
        }
      }
    case Object(fields) =>
      if ty.StructTy? && |ty.props| == |ty.types| {
        forall i | 0 <= i < |ty.types| && ty.props[i] in fields
          ensures Stable(r, fields[ty.props[i]], ty.types[i], defs)
        {
          ObjectsAreStable(r, fields[ty.props[i]], ty.types[i], defs);
        }
      }
    case _ =>
  }

  /** With structs given as objects, reordering preserves meaning whatever the reader does with text. */
  lemma ReorderKeepsMeaning(r: Reader, v: Json, ty: Ty, defs: Definitions)
    requires Matches(ty, defs) && StructsAreObjects(v, ty, defs)
    ensures Reorder(ty, defs).Ok?
    ensures SameParse(ParseAs(r, v, ty), ParseAs(r, v, Reorder(ty, defs).value))
  {
    ObjectsAreStable(r, v, ty, defs);
    ReorderExact(r, v, ty, defs);
  }

  // ----- A struct given as text -----

  lemma SwappedReorders(defs: Definitions, name: string, f: string, g: string, ty: Ty)
    requires f != g && defs(name) == Fields([g, f]) && Scalar(ty)
    ensures Matches(StructTy(name, [f, g], [ty, ty]), defs)
    ensures Reorder(StructTy(name, [f, g], [ty, ty]), defs) == Ok(StructTy(name, [g, f], [ty, ty]))
  {
    var t := StructTy(name, [f, g], [ty, ty]);
    assert Matches(t, defs);
    MatchingReorders(t, defs);
    ReorderedStruct(t, defs);
    var t' := Reorder(t, defs).value;
    assert t.props[0] == t'.props[1] && t.props[1] == t'.props[0];
    assert Reorder(ty, defs) == Ok(ty);
    assert t'.types == [ty, ty];
  }

  /**
   A text of two fields of one type, defined in the other order, is read with the fields swapped:
   the value is the same if and only if both fields hold the same word.
   */
  lemma TextSwapsFields(r: Reader, v: Json, defs: Definitions, name: string, f: string, g: string,
                        p: string, q: string, ty: Ty, x: nat, y: nat)
    requires f != g && defs(name) == Fields([g, f]) && Scalar(ty)
    requires v.String? && r.parts(r.text(v)) == Some([p, q])
    requires r.leaf(p, ty) == Ok(LeafVal(x)) && r.leaf(q, ty) == Ok(LeafVal(y))
    ensures var t := StructTy(name, [f, g], [ty, ty]);
            && Reorder(t, defs).Ok?
            && ParseAs(r, v, t) == Ok(StructVal(name, [f, g], [LeafVal(x), LeafVal(y)]))
            && ParseAs(r, v, Reorder(t, defs).value) == Ok(StructVal(name, [g, f], [LeafVal(x), LeafVal(y)]))
            && (SameParse(ParseAs(r, v, t), ParseAs(r, v, Reorder(t, defs).value)) <==> x == y)
  {
    SwappedReorders(defs, name, f, g, ty);
    TwoFieldText(r, v, name, [f, g], p, q, ty);
    TwoFieldText(r, v, name, [g, f], p, q, ty);
    SwappedValues(name, f, g, x, y);
  }

  lemma TwoFieldText(r: Reader, v: Json, name: string, props: seq<string>, p: string, q: string, ty: Ty)
    requires Scalar(ty) && v.String? && r.parts(r.text(v)) == Some([p, q]) && r.leaf(p, ty).Ok? && r.leaf(q, ty).Ok?
    ensures ParseAs(r, v, StructTy(name, props, [ty, ty]))
         == Ok(StructVal(name, props, [r.leaf(p, ty).value, r.leaf(q, ty).value]))
  {
    var t := StructTy(name, props, [ty, ty]);
    CoerceStruct(r, r.text(v), [p, q], t);
    TwoTexts(r, p, q, ty);
    assert ParseAs(r, v, t) == Coerce(r, r.text(v), t);
  }

  lemma TwoTexts(r: Reader, p: string, q: string, ty: Ty)
    requires Scalar(ty) && r.leaf(p, ty).Ok? && r.leaf(q, ty).Ok?
    ensures CoerceZip(r, [p, q], [ty, ty]) == Ok([r.leaf(p, ty).value, r.leaf(q, ty).value])
  {
    var vs := CoerceZip(r, [p, q], [ty, ty]);
    assert Coerce(r, p, ty) == r.leaf(p, ty) && Coerce(r, q, ty) == r.leaf(q, ty);
    assert forall i :: 0 <= i < 2 ==> Coerce(r, [p, q][i], [ty, ty][i]).Ok?;
    assert Ok(vs.value[0]) == Coerce(r, [p, q][0], [ty, ty][0]) && Ok(vs.value[1]) == Coerce(r, [p, q][1], [ty, ty][1]);
    assert vs.value == [r.leaf(p, ty).value, r.leaf(q, ty).value];
  }

  lemma SwappedValues(name: string, f: string, g: string, x: nat, y: nat)
    requires f != g
    ensures var vals := [LeafVal(x), LeafVal(y)];
            SameValue(StructVal(name, [f, g], vals), StructVal(name, [g, f], vals)) <==> x == y
  {
    var props, names, vals := [f, g], [g, f], [LeafVal(x), LeafVal(y)];
    assert props[0] == names[1] && props[1] == names[0];
    SameStructs(name, props, vals, names, vals);
    if x == y {
      forall i, j | 0 <= i < 2 && 0 <= j < 2 ensures SameValue(vals[i], vals[j]) {
        assert vals[i] == vals[j];
      }
      assert SameValue(StructVal(name, props, vals), StructVal(name, names, vals));
    } else {
      assert !SameValue(vals[0], vals[1]);
      assert !SameValue(StructVal(name, props, vals), StructVal(name, names, vals));
    }
  }
}
