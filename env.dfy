/** The conversions between the API's shapes of key/value data: environment
    variables as a list of pairs or as an object, and the top-level deployment
    fields that the legacy API keeps as properties. */
module Environment {
  import opened Json
  import opened Catalog

  /** No two pairs share a key, as in the entries of an object. */
  predicate DistinctKeys(pairs: seq<Property>) {
    forall i, j :: 0 <= i < j < |pairs| ==> pairs[i].key != pairs[j].key
  }

  /** The keys of a list of pairs. */
  function PairKeys(pairs: seq<Property>): set<string> {
    set i | 0 <= i < |pairs| :: pairs[i].key
  }

  /** `envArrayToObject(arr)`: `fromPairs` of the `[key, value]` pairs, set
      one after the other. */
  function EnvArrayToObject(arr: seq<Property>): (r: map<string, Json>)
    ensures r.Keys == PairKeys(arr)
    decreases |arr|
  {
    if arr == [] then map[]
    else
      var prefix := arr[..|arr| - 1];
      var last := arr[|arr| - 1];
      assert PairKeys(arr) == PairKeys(prefix) + {last.key} by {
        assert forall i :: 0 <= i < |prefix| ==> prefix[i] == arr[i];
      }
      EnvArrayToObject(prefix)[last.key := last.value]
  }

  /** Every key holds the value of the last pair that has it. */
  lemma {:induction false} EnvArrayLastPair(arr: seq<Property>, i: nat)
    requires i < |arr| && forall j :: i < j < |arr| ==> arr[j].key != arr[i].key
    ensures EnvArrayToObject(arr)[arr[i].key] == arr[i].value
    decreases |arr|
  {
    if i < |arr| - 1 {
      var prefix := arr[..|arr| - 1];
      assert prefix[i] == arr[i];
      assert forall j :: i < j < |prefix| ==> prefix[j] == arr[j];
      EnvArrayLastPair(prefix, i);
    }
  }

  /** `envObjectToArray(obj)`: one single-key object per entry, in the order
      the object enumerates its keys. The object is given as that list of
      entries. */
  function EnvObjectToArray(entries: seq<Property>): (r: seq<Json>)
    requires DistinctKeys(entries)
    ensures |r| == |entries|
    ensures forall i :: 0 <= i < |r| ==> r[i] == JObj(map[entries[i].key := entries[i].value])
  {
    seq(|entries|, i requires 0 <= i < |entries| => JObj(map[entries[i].key := entries[i].value]))
  }

  /** `Object.assign({}, ...items)`: the fields of all items, a later one
      overwriting an earlier one. */
  function Assign(items: seq<Json>): map<string, Json>
    decreases |items|
  {
    if items == [] then map[] else Assign(items[..|items| - 1]) + ObjectFields(items[|items| - 1])
  }

  /** The single-key objects of `envObjectToArray` hold exactly the entries of
      the object: assigning them together rebuilds it, and it is the object
      `envArrayToObject` builds from the same pairs. */
  lemma {:induction false} EnvObjectRoundTrip(entries: seq<Property>)
    requires DistinctKeys(entries)
    ensures Assign(EnvObjectToArray(entries)) == EnvArrayToObject(entries)
    decreases |entries|
  {
    if entries != [] {
      var prefix := entries[..|entries| - 1];
      var last := entries[|entries| - 1];
      var items := EnvObjectToArray(entries);
      ToArrayPrefix(entries);
      EnvObjectRoundTrip(prefix);
      var m := EnvArrayToObject(prefix);
      assert Assign(items) == m + map[last.key := last.value];
      UnionSingleton(m, last.key, last.value);
    }
  }

  /** Assigning a single-key object is an update of that key. */
  lemma UnionSingleton(m: map<string, Json>, k: string, v: Json)
    ensures m + map[k := v] == m[k := v]
  {
  }

  /** The array of a shorter list of entries is a prefix of the array. */
  lemma ToArrayPrefix(entries: seq<Property>)
    requires DistinctKeys(entries) && entries != []
    ensures DistinctKeys(entries[..|entries| - 1])
    ensures EnvObjectToArray(entries)[..|entries| - 1] == EnvObjectToArray(entries[..|entries| - 1])
  {
    var prefix := entries[..|entries| - 1];
    assert forall i :: 0 <= i < |prefix| ==> prefix[i] == entries[i];
  }

  /** With distinct keys, a key is in the object built by `envArrayToObject`
      exactly when `find` locates a pair with that key, and it holds that
      pair's value. */
  lemma EnvArrayFind(arr: seq<Property>, k: string)
    requires DistinctKeys(arr)
    ensures k in EnvArrayToObject(arr) <==> FindProperty(arr, k).Some?
    ensures k in EnvArrayToObject(arr) ==> EnvArrayToObject(arr)[k] == FindProperty(arr, k).value.value
  {
    var r := EnvArrayToObject(arr);
    if k in r {
      var i :| 0 <= i < |arr| && arr[i].key == k;
      EnvArrayLastPair(arr, i);
      var p := FindProperty(arr, k).value;
      var i' :| 0 <= i' < |arr| && arr[i'] == p && p.key == k && forall j :: 0 <= j < i' ==> arr[j].key != k;
      assert i' == i;
    } else {
      assert forall i :: 0 <= i < |arr| ==> arr[i].key in PairKeys(arr);
    }
  }

  /** A later pair overrides an earlier one with the same key. */
  lemma EnvArrayLastWins(k: string, v: Json, w: Json)
    ensures EnvArrayToObject([Property(k, v), Property(k, w)]) == map[k := w]
  {
    var arr := [Property(k, v), Property(k, w)];
    assert PairKeys(arr) == {k} by {
      assert arr[0].key == k && arr[1].key == k;
    }
    EnvArrayLastPair(arr, 1);
  }

  // ---------------------------------------------------------------------
  // Legacy properties

  /** A top-level field that is set and truthy. */
  predicate IsSet(fields: map<string, Json>, name: string) {
    name in fields && Truthy(fields[name])
  }

  /** `mapDeploymentToProperties(dep)`: each truthy field among `extraAu`,
      `airflowVersion` and `alertEmails` is copied under its legacy property
      key; nothing else is. */
  function MapDeploymentToProperties(d: Deployment): (r: map<string, Json>)
    ensures r.Keys <= {PropertyExtraAu, PropertyComponentVersion, PropertyAlertEmails}
    ensures PropertyExtraAu in r <==> IsSet(d.fields, "extraAu")
    ensures PropertyComponentVersion in r <==> IsSet(d.fields, "airflowVersion")
    ensures PropertyAlertEmails in r <==> IsSet(d.fields, "alertEmails")
    ensures PropertyExtraAu in r ==> r[PropertyExtraAu] == d.fields["extraAu"]
    ensures PropertyComponentVersion in r ==> r[PropertyComponentVersion] == d.fields["airflowVersion"]
    ensures PropertyAlertEmails in r ==> r[PropertyAlertEmails] == d.fields["alertEmails"]
  {
    var m0: map<string, Json> := map[];
    var m1 := if IsSet(d.fields, "extraAu") then m0[PropertyExtraAu := d.fields["extraAu"]] else m0;
    var m2 := if IsSet(d.fields, "airflowVersion") then m1[PropertyComponentVersion := d.fields["airflowVersion"]] else m1;
    if IsSet(d.fields, "alertEmails") then m2[PropertyAlertEmails := d.fields["alertEmails"]] else m2
  }

  /** The first two rules of `mapPropertiesToDeployment`: a truthy `extra_au`
      or `component_version` property becomes the `extraAu` or
      `airflowVersion` field. */
  function PropertiesToDeployment(obj: map<string, Json>): (r: map<string, Json>)
    ensures r.Keys <= {"extraAu", "airflowVersion"}
    ensures "extraAu" in r <==> IsSet(obj, PropertyExtraAu)
    ensures "airflowVersion" in r <==> IsSet(obj, PropertyComponentVersion)
    ensures "extraAu" in r ==> r["extraAu"] == obj[PropertyExtraAu]
    ensures "airflowVersion" in r ==> r["airflowVersion"] == obj[PropertyComponentVersion]
  {
    var m0: map<string, Json> := map[];
    var m1 := if IsSet(obj, PropertyExtraAu) then m0["extraAu" := obj[PropertyExtraAu]] else m0;
    if IsSet(obj, PropertyComponentVersion) then m1["airflowVersion" := obj[PropertyComponentVersion]] else m1
  }

  /** Mapping a deployment's fields to properties and back gives its truthy
      `extraAu` and `airflowVersion` fields back, and no others. */
  lemma PropertiesRoundTrip(d: Deployment)
    ensures var back := PropertiesToDeployment(MapDeploymentToProperties(d));
            ("extraAu" in back <==> IsSet(d.fields, "extraAu"))
            && ("airflowVersion" in back <==> IsSet(d.fields, "airflowVersion"))
            && ("extraAu" in back ==> back["extraAu"] == d.fields["extraAu"])
            && ("airflowVersion" in back ==> back["airflowVersion"] == d.fields["airflowVersion"])
  {
  }
}
