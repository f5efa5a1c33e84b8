/** JavaScript values as the configuration engine sees them, and the deep
    merge (lodash `merge`) that layers them into one Helm values document. */
module Json {

  datatype Option<+T> = None | Some(value: T)

  datatype Result<+T, +E> = Ok(value: T) | Err(error: E) {
    predicate IsFailure() { Err? }
    function PropagateFailure<U>(): Result<U, E> requires Err? { Err(error) }
    function Extract(): T requires Ok? { value }
  }

  /** A JSON-like JavaScript value. Numbers are integers or NaN. */
  datatype Json =
    | JNull
    | JBool(b: bool)
    | JNum(n: int)
    | JNaN
    | JStr(s: string)
    | JArr(items: seq<Json>)
    | JObj(fields: map<string, Json>)

  /** JavaScript truthiness. */
  predicate Truthy(v: Json) {
    match v
    case JNull => false
    case JBool(b) => b
    case JNum(n) => n != 0
    case JNaN => false
    case JStr(s) => s != ""
    case _ => true
  }

  /** Property access `v[key]`; None stands for `undefined`. */
  function Field(v: Json, key: string): (r: Option<Json>)
    ensures r.Some? <==> v.JObj? && key in v.fields
    ensures r.Some? ==> r.value == v.fields[key]
  {
    if v.JObj? && key in v.fields then Some(v.fields[key]) else None
  }

  /** lodash `get(v, path)` over object keys; None when the path leaves the objects. */
  function Lookup(v: Json, path: seq<string>): (r: Option<Json>)
    ensures path == [] ==> r == Some(v)
    ensures |path| == 1 ==> r == Field(v, path[0])
    ensures r.Some? && path != [] ==> v.JObj? && path[0] in v.fields
    decreases |path|
  {
    if path == [] then Some(v)
    else match Field(v, path[0])
      case None => None
      case Some(w) => Lookup(w, path[1..])
  }

  /** Property access on a value that may be undefined: `undefined` has no
      properties. */
  function Get(v: Option<Json>, key: string): (r: Option<Json>)
    ensures r.Some? <==> v.Some? && v.value.JObj? && key in v.value.fields
  {
    if v.Some? then Field(v.value, key) else None
  }

  /** Looking up a longer path is one more property access on the result. */
  lemma {:induction false} LookupGet(v: Json, path: seq<string>, key: string)
    ensures Lookup(v, path + [key]) == Get(Lookup(v, path), key)
    decreases |path|
  {
    if path == [] {
      assert [] + [key] == [key];
    } else {
      assert (path + [key])[1..] == path[1..] + [key];
      match Field(v, path[0])
      case None =>
      case Some(w) => LookupGet(w, path[1..], key);
    }
  }

  /** A path of four keys is four property accesses. */
  lemma LookupFour(v: Json, a: string, b: string, c: string, e: string)
    ensures Lookup(v, [a, b, c, e]) == Get(Get(Get(Field(v, a), b), c), e)
  {
    assert [a][1..] == [];
    assert Lookup(v, [a]) == Field(v, a);
    assert [a] + [b] == [a, b];
    LookupGet(v, [a], b);
    assert [a, b] + [c] == [a, b, c];
    LookupGet(v, [a, b], c);
    assert [a, b, c] + [e] == [a, b, c, e];
    LookupGet(v, [a, b, c], e);
  }

  /** A leaf is anything the deep merge does not descend into. */
  predicate IsLeaf(v: Json) { !v.JObj? && !v.JArr? }

  /** lodash `merge` of one source value `b` onto a destination value `a`:
      objects merge key by key, arrays index by index, anything else in `b`
      replaces what was in `a`. */
  function Merge(a: Json, b: Json): (r: Json)
    ensures !(a.JObj? && b.JObj?) && !(a.JArr? && b.JArr?) ==> r == b
    ensures a.JObj? && b.JObj? ==> r.JObj? && r.fields.Keys == a.fields.Keys + b.fields.Keys
    ensures a.JObj? && b.JObj? ==> forall k :: k in a.fields && k !in b.fields ==> r.fields[k] == a.fields[k]
    ensures a.JArr? && b.JArr? ==>
              r.JArr? && |r.items| == (if |a.items| < |b.items| then |b.items| else |a.items|)
              && forall i :: |b.items| <= i < |a.items| ==> r.items[i] == a.items[i]
    decreases b
  {
    match (a, b)
    case (JObj(ma), JObj(mb)) =>
      JObj(map k | k in ma.Keys + mb.Keys ::
             if k in mb then (if k in ma then Merge(ma[k], mb[k]) else mb[k]) else ma[k])
    case (JArr(xa), JArr(xb)) =>
      var n := if |xa| < |xb| then |xb| else |xa|;
      JArr(seq(n, i requires 0 <= i < n =>
             if i < |xb| then (if i < |xa| then Merge(xa[i], xb[i]) else xb[i]) else xa[i]))
    case _ => b
  }

  /** Merging the fields of one object into those of another. */
  function MergeFields(a: map<string, Json>, b: map<string, Json>): (r: map<string, Json>)
    ensures r.Keys == a.Keys + b.Keys
    ensures forall k :: k in r ==> r[k] == if k in b then (if k in a then Merge(a[k], b[k]) else b[k]) else a[k]
  {
    Merge(JObj(a), JObj(b)).fields
  }

  /** A key only the earlier object has keeps its value. */
  lemma MergeFieldsLeft(a: map<string, Json>, b: map<string, Json>, k: string)
    requires k in a && k !in b
    ensures k in MergeFields(a, b) && MergeFields(a, b)[k] == a[k]
  {
  }

  /** A key only the later object has takes its value. */
  lemma MergeFieldsRight(a: map<string, Json>, b: map<string, Json>, k: string)
    requires k !in a && k in b
    ensures k in MergeFields(a, b) && MergeFields(a, b)[k] == b[k]
  {
  }

  /** The keys a top-level `merge` source contributes, modelled for objects
      only: any other source contributes none here. That is lodash's behaviour
      for `undefined`, numbers and booleans; for a string or an array lodash
      would contribute its index keys, which this model does not represent. */
  function ObjectFields(v: Json): (r: map<string, Json>)
    ensures v.JObj? ==> r == v.fields
    ensures !v.JObj? ==> r == map[]
  {
    if v.JObj? then v.fields else map[]
  }

  /** Merging a value onto itself changes nothing. */
  lemma {:induction false} MergeSelf(a: Json)
    ensures Merge(a, a) == a
    decreases a
  {
    match a
    case JObj(m) =>
      forall k | k in m ensures Merge(m[k], m[k]) == m[k] { MergeSelf(m[k]); }
      assert Merge(a, a).fields == m;
    case JArr(xs) =>
      forall i | 0 <= i < |xs| ensures Merge(xs[i], xs[i]) == xs[i] { MergeSelf(xs[i]); }
      assert Merge(a, a).items == xs;
    case _ =>
  }

  /** Merging the same layer a second time changes nothing. */
  lemma {:induction false} MergeIdempotent(a: Json, b: Json)
    ensures Merge(Merge(a, b), b) == Merge(a, b)
    decreases b
  {
    match (a, b)
    case (JObj(ma), JObj(mb)) =>
      var m := Merge(a, b).fields;
      forall k | k in mb
        ensures Merge(m[k], mb[k]) == m[k]
      {
        if k in ma { MergeIdempotent(ma[k], mb[k]); } else { MergeSelf(mb[k]); }
      }
      assert Merge(Merge(a, b), b).fields == m;
    case (JArr(xa), JArr(xb)) =>
      var xs := Merge(a, b).items;
      forall i | 0 <= i < |xb|
        ensures Merge(xs[i], xb[i]) == xs[i]
      {
        if i < |xa| { MergeIdempotent(xa[i], xb[i]); } else { MergeSelf(xb[i]); }
      }
      assert Merge(Merge(a, b), b).items == xs;
    case _ =>
      MergeSelf(b);
  }

  /** Every leaf the source `b` sets ends up in the merged value: later layers win. */
  lemma {:induction false} MergeLeafWins(a: Json, b: Json, path: seq<string>, v: Json)
    requires Lookup(b, path) == Some(v) && IsLeaf(v)
    ensures Lookup(Merge(a, b), path) == Some(v)
    decreases |path|
  {
    if path == [] {
    } else {
      var k := path[0];
      var mb := b.fields;
      if a.JObj? && k in a.fields {
        MergeLeafWins(a.fields[k], mb[k], path[1..], v);
      }
    }
  }

  /** `b` does not touch `path`: it has no key along it, or it stops at an object
      that in turn does not touch the rest of the path. */
  predicate Avoids(b: Json, path: seq<string>)
    decreases |path|
  {
    |path| > 0 && b.JObj? &&
    (path[0] !in b.fields || (b.fields[path[0]].JObj? && Avoids(b.fields[path[0]], path[1..])))
  }

  /** A value at a path the source does not touch survives the merge. */
  lemma {:induction false} MergeKeepsUntouched(a: Json, b: Json, path: seq<string>, v: Json)
    requires Lookup(a, path) == Some(v) && Avoids(b, path)
    ensures Lookup(Merge(a, b), path) == Some(v)
    decreases |path|
  {
    var k := path[0];
    if k in b.fields {
      MergeKeepsUntouched(a.fields[k], b.fields[k], path[1..], v);
    }
  }
}
