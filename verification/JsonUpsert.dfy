/** `upsert_json_value`: inserting into a JSON document at a dot-separated key, in place. */
module JsonUpsert {
  import opened Common
  import opened JsonValue

  type Path = seq<string>

  // ----- Keys -----

  function Split(s: string): (r: seq<string>)
    ensures r != []
  {
    if s == [] then [""]
    else
      var rest := Split(s[1..]);
      if s[0] == '.' then [""] + rest else [[s[0]] + rest[0]] + rest[1..]
  }

  function NonEmpty(ss: seq<string>): seq<string> {
    if ss == [] then [] else (if ss[0] == "" then [] else [ss[0]]) + NonEmpty(ss[1..])
  }

  function Segments(s: string): Path { NonEmpty(Split(s)) }

  function Canonicalize(path: string): string {
    if path != [] && path[0] == '$' then path else "$" + path
  }

  predicate Rooted(s: string) { |s| >= 2 && s[0] == '$' && s[1] == '.' }

  /** The path a key denotes. */
  function Parts(key: string): Path {
    var canonical := Canonicalize(key);
    Segments(if Rooted(canonical) then canonical[2..] else key)
  }

  lemma NonEmptyCons(x: string, rest: seq<string>)
    ensures NonEmpty([x] + rest) == (if x == "" then [] else [x]) + NonEmpty(rest)
  {
    assert ([x] + rest)[1..] == rest;
  }

  lemma LeadingDot(s: string)
    ensures Split("." + s) == [""] + Split(s)
    ensures Segments("." + s) == Segments(s)
  {
    assert ("." + s)[1..] == s;
    NonEmptyCons("", Split(s));
  }

  lemma LeadingRoot(s: string)
    ensures Segments("$." + s) == ["$"] + Segments(s)
  {
    assert ("$." + s)[1..] == "." + s;
    LeadingDot(s);
    var rest := Split("." + s);
    assert rest[1..] == Split(s) && ['$'] + rest[0] == "$";
    assert Split("$." + s) == ["$"] + Split(s);
    NonEmptyCons("$", Split(s));
  }

  lemma PartsOfPlain(k: string)
    ensures Parts(k) == if Rooted(k) then Segments(k[2..]) else Segments(k)
  {
    if k != [] && k[0] == '.' {
      assert Canonicalize(k)[2..] == k[1..];
      assert k == "." + k[1..];
      LeadingDot(k[1..]);
    }
  }

  /** `k`, `.k` and `$.k` denote the same path if and only if `k` does not itself start with `$.`. */
  lemma KeyFormsAgree(k: string)
    ensures Parts("." + k) == Parts("$." + k)
    ensures Parts(k) == Parts("." + k) <==> !Rooted(k)
  {
    assert Canonicalize("." + k)[2..] == k && Canonicalize("$." + k)[2..] == k;
    PartsOfPlain(k);
    if Rooted(k) {
      assert k == "$." + k[2..];
      LeadingRoot(k[2..]);
    }
  }

  predicate AllDots(s: string) { forall i :: 0 <= i < |s| ==> s[i] == '.' }

  lemma {:induction false} NoSegments(s: string)
    ensures Segments(s) == [] <==> AllDots(s)
  {
    if s != [] {
      NoSegments(s[1..]);
      assert s == [s[0]] + s[1..];
      if s[0] == '.' {
        LeadingDot(s[1..]);
        assert AllDots(s[1..]) ==> AllDots(s);
        assert AllDots(s) ==> forall i :: 0 <= i < |s[1..]| ==> s[1..][i] == s[i + 1];
      } else {
        assert Split(s)[0] != "";
      }
    }
  }

  /** The keys refused as empty: dots only, after `$.` if that is how they start. `$` itself is accepted. */
  lemma RefusedKeys(k: string)
    ensures Parts(k) == [] <==> AllDots(if Rooted(k) then k[2..] else k)
    ensures Parts("$") == ["$"]
  {
    PartsOfPlain(k);
    NoSegments(if Rooted(k) then k[2..] else k);
    assert "$"[1..] == "" && [""][1..] == [] && ['$'] + "" == "$";
    assert Split("$") == ["$"] + [];
    NonEmptyCons("$", []);
  }

  // ----- Documents -----

  function At(j: Json, p: Path): Option<Json> {
    if p == [] then Some(j)
    else if j.Object? && p[0] in j.fields then At(j.fields[p[0]], p[1..])
    else None
  }

  /** Replaces what stands at an existing path. */
  function Put(j: Json, p: Path, v: Json): Json
    requires At(j, p).Some?
  {
    if p == [] then v else Object(j.fields[p[0] := Put(j.fields[p[0]], p[1..], v)])
  }

  function Child(fields: map<string, Json>, k: string): Json {
    if k in fields then fields[k] else Object(map[])
  }

  /** The document after the upsert: missing parents become objects, anything else on the way is an error. */
  function Upsert(j: Json, p: Path, v: Json): Result<Json>
    requires p != []
    decreases p
  {
    if !j.Object? then Err
    else if |p| == 1 then Ok(Object(j.fields[p[0] := v]))
    else
      var c :- Upsert(Child(j.fields, p[0]), p[1..], v);
      Ok(Object(j.fields[p[0] := c]))
  }

  lemma {:induction false} PutAt(j: Json, p: Path, v: Json, w: Json)
    requires At(j, p).Some?
    ensures At(Put(j, p, v), p) == Some(v)
    ensures Put(Put(j, p, v), p, w) == Put(j, p, w)
  {
    if p != [] {
      PutAt(j.fields[p[0]], p[1..], v, w);
      var k := p[0];
      assert j.fields[k := Put(j.fields[k], p[1..], v)][k := Put(j.fields[k], p[1..], w)]
          == j.fields[k := Put(j.fields[k], p[1..], w)];
    }
  }

  /** An upsert along an existing path happens at the end of that path. */
  lemma {:induction false} UpsertBelow(j: Json, p: Path, q: Path, v: Json)
    requires q != [] && At(j, p).Some?
    ensures Upsert(j, p + q, v)
         == if Upsert(At(j, p).value, q, v).Ok? then Ok(Put(j, p, Upsert(At(j, p).value, q, v).value)) else Err
  {
    if p == [] {
      assert p + q == q;
    } else {
      assert (p + q)[1..] == p[1..] + q;
      UpsertBelow(j.fields[p[0]], p[1..], q, v);
    }
  }

  lemma {:induction false} AtAppend(j: Json, p: Path, q: Path)
    ensures At(j, p + q) == if At(j, p).Some? then At(At(j, p).value, q) else None
  {
    if p == [] {
      assert p + q == q;
    } else if j.Object? && p[0] in j.fields {
      assert (p + q)[1..] == p[1..] + q;
      AtAppend(j.fields[p[0]], p[1..], q);
    }
  }

  // ----- In place -----

  class Document {
    var root: Json

    constructor (root: Json)
      ensures this.root == root
    {
      this.root := root;
    }

    /** Steps from `cursor` into `segment`, creating an empty object if nothing is there. */
    method Descend(cursor: Path, segment: string, ghost rest: Path, ghost value: Json)
      requires rest != [] && At(root, cursor).Some? && At(root, cursor).value.Object?
      modifies this
      ensures At(root, cursor + [segment]).Some?
      ensures Upsert(root, cursor + [segment] + rest, value) == old(Upsert(root, cursor + [segment] + rest, value))
      ensures root == old(root) || At(root, cursor + [segment]) == Some(Object(map[]))
      ensures old(At(root, cursor)) == Some(Object(map[])) ==> At(root, cursor + [segment]) == Some(Object(map[]))
    {
      var here := At(root, cursor).value.fields;
      AtAppend(root, cursor, [segment]);
      if segment !in here {
        ghost var q := [segment] + rest;
        ghost var there := here[segment := Object(map[])];
        assert cursor + [segment] + rest == cursor + q;
        UpsertBelow(root, cursor, q, value);
        PutAt(root, cursor, Object(there), Object(there));
        assert q[1..] == rest;
        ghost var below := Upsert(Object(map[]), rest, value);
        assert Child(here, segment) == Child(there, segment) == Object(map[]);
        assert below.Ok? ==> here[segment := below.value] == there[segment := below.value];
        assert Upsert(Object(there), q, value) == Upsert(Object(here), q, value);
        if below.Ok? {
          PutAt(root, cursor, Object(there), Object(here[segment := below.value]));
        }
        root := Put(root, cursor, Object(here[segment := Object(map[])]));
        UpsertBelow(root, cursor, q, value);
        AtAppend(root, cursor, [segment]);
        assert At(Object(there), [segment]) == Some(Object(map[])) by {
          assert [segment][1..] == [];
        }
      }
    }

    /** The loop over the parents; `reached` is where it stopped, before `parts[i]`. */
    method Walk(parts: Path, ghost value: Json) returns (reached: bool, ghost i: nat)
      requires parts != []
      modifies this
      ensures i < |parts| && At(root, parts[..i]).Some?
      ensures reached <==> At(root, parts[..i]).value.Object?
      ensures reached ==> i == |parts| - 1
      ensures !reached ==> root == old(root)
      ensures Upsert(root, parts, value) == old(Upsert(root, parts, value))
    {
      var k := 0;
      while k < |parts| - 1
        invariant 0 <= k <= |parts| - 1 && At(root, parts[..k]).Some?
        invariant Upsert(root, parts, value) == old(Upsert(root, parts, value))
        invariant root == old(root) || At(root, parts[..k]) == Some(Object(map[]))
      {
        if !At(root, parts[..k]).value.Object? {
          return false, k;
        }
        assert parts[..k + 1] == parts[..k] + [parts[k]];
        assert parts == parts[..k + 1] + parts[k + 1..];
        Descend(parts[..k], parts[k], parts[k + 1..], value);
        k := k + 1;
      }
      return At(root, parts[..k]).value.Object?, k;
    }

    /** `upsert_json_value`: an error leaves the document as it was. */
    method UpsertKey(key: string, value: Json) returns (ok: bool)
      modifies this
      ensures ok <==> Parts(key) != [] && Upsert(old(root), Parts(key), value).Ok?
      ensures root == if ok then Upsert(old(root), Parts(key), value).value else old(root)
    {
      var parts := Parts(key);
      if parts == [] {
        return false;
      }
      ghost var i;
      ok, i := Walk(parts, value);
      assert parts == parts[..i] + parts[i..];
      UpsertBelow(root, parts[..i], parts[i..], value);
      if ok {
        var n := |parts| - 1;
        root := Put(root, parts[..n], Object(At(root, parts[..n]).value.fields[parts[n] := value]));
      }
    }
  }

  // ----- Laws -----

  /** An upsert fails exactly when something on the way is there and is not an object. */
  lemma {:induction false} FailsIffBlocked(j: Json, p: Path, v: Json)
    requires p != []
    ensures Upsert(j, p, v).Err? <==>
              exists i :: 0 <= i < |p| && At(j, p[..i]).Some? && !At(j, p[..i]).value.Object?
    decreases p
  {
    if !j.Object? {
      assert At(j, p[..0]) == Some(j);
    } else if |p| == 1 {
      assert p[..0] == [];
    } else {
      var c := Child(j.fields, p[0]);
      FailsIffBlocked(c, p[1..], v);
      if p[0] !in j.fields {
        forall i | 0 <= i < |p[1..]| ensures At(c, p[1..][..i]).Some? ==> At(c, p[1..][..i]).value.Object? {
          EmptyHasOnlyRoot(p[1..][..i]);
        }
      }
      if Upsert(c, p[1..], v).Err? {
        var i :| 0 <= i < |p[1..]| && At(c, p[1..][..i]).Some? && !At(c, p[1..][..i]).value.Object?;
        assert p[..i + 1][1..] == p[1..][..i];
        assert At(j, p[..i + 1]) == At(c, p[1..][..i]);
      }
      if i :| 0 <= i < |p| && At(j, p[..i]).Some? && !At(j, p[..i]).value.Object? {
        assert i > 0;
        assert p[..i][1..] == p[1..][..i - 1];
        assert At(c, p[1..][..i - 1]).Some? && !At(c, p[1..][..i - 1]).value.Object?;
      }
    }
  }

  lemma EmptyHasOnlyRoot(p: Path)
    ensures At(Object(map[]), p) == if p == [] then Some(Object(map[])) else None
  {
  }

  /** The new value stands at the path, and everything in it below. */
  lemma {:induction false} ReadsBack(j: Json, p: Path, v: Json, q: Path)
    requires p != [] && Upsert(j, p, v).Ok?
    ensures At(Upsert(j, p, v).value, p + q) == At(v, q)
    decreases p
  {
    assert (p + q)[1..] == p[1..] + q;
    if |p| == 1 {
      assert p[1..] + q == q;
    } else {
      ReadsBack(Child(j.fields, p[0]), p[1..], v, q);
    }
  }

  predicate Diverge(p: Path, q: Path) { !(p <= q) && !(q <= p) }

  /** Paths not through the upserted one are unchanged. */
  lemma {:induction false} OthersUnchanged(j: Json, p: Path, v: Json, q: Path)
    requires p != [] && Upsert(j, p, v).Ok? && Diverge(p, q)
    ensures At(Upsert(j, p, v).value, q) == At(j, q)
    decreases p
  {
    if p[0] == q[0] {
      assert p == [p[0]] + p[1..] && q == [q[0]] + q[1..];
      assert |p| > 1;
      var c := Child(j.fields, p[0]);
      OthersUnchanged(c, p[1..], v, q[1..]);
      if p[0] !in j.fields {
        EmptyHasOnlyRoot(q[1..]);
      }
    }
  }

  /** A second upsert at the same path erases the first. */
  lemma {:induction false} LastWins(j: Json, p: Path, v: Json, w: Json)
    requires p != [] && Upsert(j, p, v).Ok?
    ensures Upsert(Upsert(j, p, v).value, p, w) == Upsert(j, p, w)
    decreases p
  {
    var k := p[0];
    if |p| == 1 {
      assert j.fields[k := v][k := w] == j.fields[k := w];
    } else {
      LastWins(Child(j.fields, k), p[1..], v, w);
      var c := Upsert(Child(j.fields, k), p[1..], v).value;
      var d := Upsert(Child(j.fields, k), p[1..], w);
      assert d.Ok? ==> j.fields[k := c][k := d.value] == j.fields[k := d.value];
    }
  }
}
