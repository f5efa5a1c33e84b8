/** `deploymentOverrides(deployment)`: the deployment's own `config`, with
    numeric CPU and memory amounts given their units and every component's
    requests and limits made equal. */
module DeploymentOverrides {
  import opened Json
  import opened JsNumbers
  import opened Catalog
  import opened Resources

  /** lodash `isNumber`: integers and NaN alike. */
  predicate IsNumber(v: Json) { v.JNum? || v.JNaN? }

  /** One leaf of a requests or limits group: a number under `cpu` becomes
      `"<n>m"`, a number under `memory` becomes `"<n>Mi"`, anything else stays. */
  function NormalizeLeaf(key: string, v: Json): (r: Json)
    ensures (key == "cpu" || key == "memory") ==> !IsNumber(r)
    ensures ((key != "cpu" && key != "memory") || !IsNumber(v)) ==> r == v
  {
    if key == "cpu" && IsNumber(v) then WithUnit(v, "m")
    else if key == "memory" && IsNumber(v) then WithUnit(v, "Mi")
    else v
  }

  /** The template string `${v}<unit>` of a number. */
  function WithUnit(v: Json, unit: string): (r: Json)
    requires IsNumber(v)
    ensures r.JStr? && EndsWith(r.s, unit)
    ensures v.JNum? && (unit == [] || !IsDigit(unit[0])) ==> ParseInt(r.s) == Fin(v.n)
    ensures v.JNaN? ==> r.s == "NaN" + unit
  {
    ShowRoundTrip(if v.JNum? then Fin(v.n) else NaN, unit);
    JStr(Show(if v.JNum? then Fin(v.n) else NaN) + unit)
  }

  /** A group whose `cpu` and `memory` amounts, where present, are not bare numbers. */
  predicate Wrapped(g: map<string, Json>) {
    forall k :: k in g && (k == "cpu" || k == "memory") ==> !IsNumber(g[k])
  }

  /** The inner `mapValues(val2, ...)`: a group's leaves normalised one by one.
      Only an object group has entries here; lodash would map a string or an
      array group over its index keys, which this model does not represent. */
  function NormalizeGroup(v: Json): (r: map<string, Json>)
    ensures r.Keys == ObjectFields(v).Keys
    ensures Wrapped(r)
    ensures forall k :: k in r && k != "cpu" && k != "memory" ==> r[k] == v.fields[k]
  {
    map k | k in ObjectFields(v) :: NormalizeLeaf(k, ObjectFields(v)[k])
  }

  /** The outer `mapValues(val1.resources, ...)`: every group normalised, so
      every group becomes an object. */
  function NormalizeResources(res: Json): (r: map<string, Json>)
    ensures r.Keys == ObjectFields(res).Keys
    ensures forall k :: k in r ==> r[k].JObj? && Wrapped(r[k].fields)
  {
    map k | k in ObjectFields(res) :: JObj(NormalizeGroup(ObjectFields(res)[k]))
  }

  /** `component.resources.requests = limits` when the limits are truthy, else
      `limits = requests` when the requests are truthy. */
  function Symmetrize(res: map<string, Json>): (r: map<string, Json>)
    ensures forall k :: k in res && k != "requests" && k != "limits" ==> k in r && r[k] == res[k]
    ensures r.Keys <= res.Keys + {"requests", "limits"}
  {
    if "limits" in res && Truthy(res["limits"]) then res["requests" := res["limits"]]
    else if "requests" in res && Truthy(res["requests"]) then res["limits" := res["requests"]]
    else res
  }

  /** `val1.resources` is truthy, which selects a config entry for normalisation. */
  predicate HasResources(v: Json) {
    v.JObj? && "resources" in v.fields && Truthy(v.fields["resources"])
  }

  /** The resources block a selected entry ends up with. */
  function NormalizedBlock(res: Json): map<string, Json> {
    Symmetrize(NormalizeResources(res))
  }

  /** One entry of `config`: an entry with truthy resources is copied with its
      resources normalised; every other entry is returned as it is. */
  function NormalizeComponent(v: Json): (r: Json)
    ensures !HasResources(v) ==> r == v
    ensures HasResources(v) ==> r.JObj? && r.fields.Keys == v.fields.Keys
    ensures HasResources(v) ==> forall k :: k in v.fields && k != "resources" ==> r.fields[k] == v.fields[k]
    ensures HasResources(v) ==> r.fields["resources"] == JObj(NormalizedBlock(v.fields["resources"]))
  {
    if HasResources(v) then JObj(v.fields["resources" := JObj(NormalizedBlock(v.fields["resources"]))])
    else v
  }

  /** `deploymentOverrides(deployment)` on the deployment's `config`. An entry
      that is null cannot be read and is an error; otherwise every entry is
      kept under its own key. */
  function Overrides(cfg: map<string, Json>): (r: Result<map<string, Json>, ConfigError>)
    ensures r.Err? <==> exists k :: k in cfg && cfg[k] == JNull
    ensures r.Ok? ==> r.value.Keys == cfg.Keys
    ensures r.Ok? ==> forall k :: k in cfg ==> r.value[k] == NormalizeComponent(cfg[k])
  {
    if exists k :: k in cfg && cfg[k] == JNull then Err(NullConfigEntry)
    else Ok(map k | k in cfg :: NormalizeComponent(cfg[k]))
  }

  // ---------------------------------------------------------------------
  // Properties

  /** A numeric amount gets its unit, and `parseInt` reads the number back. */
  lemma NormalizeLeafReadsBack(n: int)
    ensures var cpu := NormalizeLeaf("cpu", JNum(n));
            cpu.JStr? && EndsWith(cpu.s, "m") && ParseInt(cpu.s) == Fin(n)
    ensures var memory := NormalizeLeaf("memory", JNum(n));
            memory.JStr? && EndsWith(memory.s, "Mi") && ParseInt(memory.s) == Fin(n)
  {
    var cpu := NormalizeLeaf("cpu", JNum(n)).s;
    var memory := NormalizeLeaf("memory", JNum(n)).s;
    ParseIntRoundTrip(n, "m");
    ParseIntRoundTrip(n, "Mi");
    assert cpu[|cpu| - 1..] == "m";
    assert memory[|memory| - 2..] == "Mi";
  }

  /** A normalised component keeps its requests and limits equal. */
  lemma ComponentSymmetric(v: Json)
    ensures ResourcesSymmetric(NormalizeComponent(v))
  {
    if HasResources(v) {
      var n := NormalizeResources(v.fields["resources"]);
      SymmetrizeObjects(n);
      assert NormalizeComponent(v).fields["resources"] == JObj(Symmetrize(n));
    }
  }

  /** When every group is an object, `Symmetrize` leaves requests and limits
      both present and equal, or both absent. */
  lemma SymmetrizeObjects(n: map<string, Json>)
    requires forall k :: k in n ==> n[k].JObj?
    ensures var r := Symmetrize(n);
            ("requests" in r <==> "limits" in r) && ("requests" in r ==> r["requests"] == r["limits"])
  {
    if "limits" in n {
      assert Truthy(n["limits"]);
    } else if "requests" in n {
      assert Truthy(n["requests"]);
    }
  }

  /** Every entry of the overrides keeps requests equal to limits. */
  lemma OverridesSymmetric(cfg: map<string, Json>)
    requires Overrides(cfg).Ok?
    ensures AllSymmetric(Overrides(cfg).value)
  {
    forall k | k in cfg ensures ResourcesSymmetric(Overrides(cfg).value[k]) {
      ComponentSymmetric(cfg[k]);
    }
  }

  /** Limits win: when a block carries limits, its requests and limits both
      become the normalised limits, whatever the requests were. */
  lemma BlockLimitsWin(res: Json)
    requires res.JObj? && "limits" in res.fields
    ensures var out := NormalizedBlock(res); var limits := JObj(NormalizeGroup(res.fields["limits"]));
            "limits" in out && "requests" in out && out["limits"] == limits && out["requests"] == limits
  {
    var n := NormalizeResources(res);
    assert n["limits"] == JObj(NormalizeGroup(res.fields["limits"]));
  }

  /** Without limits, truthy requests are copied to the limits. */
  lemma BlockRequestsFallback(res: Json)
    requires res.JObj? && "limits" !in res.fields && "requests" in res.fields
    ensures var out := NormalizedBlock(res); var requests := JObj(NormalizeGroup(res.fields["requests"]));
            "limits" in out && "requests" in out && out["limits"] == requests && out["requests"] == requests
  {
    var n := NormalizeResources(res);
    assert "limits" !in n && n["requests"] == JObj(NormalizeGroup(res.fields["requests"]));
  }

  /** The block of a selected entry as it appears in the overrides. */
  lemma OverridesBlock(cfg: map<string, Json>, name: string)
    requires Overrides(cfg).Ok? && name in cfg && HasResources(cfg[name])
    ensures Get(Field(JObj(Overrides(cfg).value), name), "resources")
            == Some(JObj(NormalizedBlock(cfg[name].fields["resources"])))
  {
  }

  /** In the overrides, an entry's limits win over its requests. */
  lemma LimitsWin(cfg: map<string, Json>, name: string, limits: Json)
    requires Overrides(cfg).Ok? && name in cfg && HasResources(cfg[name])
    requires Get(Get(Some(cfg[name]), "resources"), "limits") == Some(limits)
    ensures var block := Get(Field(JObj(Overrides(cfg).value), name), "resources");
            && Get(block, "limits") == Some(JObj(NormalizeGroup(limits)))
            && Get(block, "requests") == Some(JObj(NormalizeGroup(limits)))
  {
    OverridesBlock(cfg, name);
    BlockLimitsWin(cfg[name].fields["resources"]);
  }

  /** A numeric CPU limit of a component in its config reaches both its
      limits and its requests as `"<n>m"`. */
  lemma OverridesCpu(cfg: map<string, Json>, name: string, n: int)
    requires Overrides(cfg).Ok? && name in cfg && HasResources(cfg[name])
    requires Get(Get(Get(Some(cfg[name]), "resources"), "limits"), "cpu") == Some(JNum(n))
    ensures Lookup(JObj(Overrides(cfg).value), [name, "resources", "limits", "cpu"]) == Some(JStr(IntToString(n) + "m"))
    ensures Lookup(JObj(Overrides(cfg).value), [name, "resources", "requests", "cpu"]) == Some(JStr(IntToString(n) + "m"))
  {
    var limits := Get(Get(Some(cfg[name]), "resources"), "limits").value;
    assert NormalizeGroup(limits)["cpu"] == JStr(IntToString(n) + "m");
    LimitsWin(cfg, name, limits);
    LookupFour(JObj(Overrides(cfg).value), name, "resources", "limits", "cpu");
    LookupFour(JObj(Overrides(cfg).value), name, "resources", "requests", "cpu");
  }

  /** Every group under a normalised block has its `cpu` and `memory` amounts
      wrapped with units. */
  lemma BlockWrapped(res: Json)
    ensures forall k :: k in NormalizedBlock(res) ==> NormalizedBlock(res)[k].JObj? && Wrapped(NormalizedBlock(res)[k].fields)
  {
    var n := NormalizeResources(res);
    var s := Symmetrize(n);
    assert forall k :: k in s ==> s[k] in n.Values;
  }

  /** Normalising a group a second time changes nothing. */
  lemma GroupIdempotent(v: Json)
    ensures NormalizeGroup(JObj(NormalizeGroup(v))) == NormalizeGroup(v)
  {
    var g := NormalizeGroup(v);
    assert forall k :: k in g ==> NormalizeLeaf(k, g[k]) == g[k];
    assert NormalizeGroup(JObj(g)) == g;
  }

  /** A block whose groups are already normalised objects. */
  predicate NormalGroups(res: map<string, Json>) {
    forall k :: k in res ==> res[k].JObj? && NormalizeGroup(res[k]) == res[k].fields
  }

  /** The groups of a normalised block are normalised groups. */
  lemma ResourcesNormal(res: Json)
    ensures NormalGroups(NormalizeResources(res))
  {
    var n := NormalizeResources(res);
    forall k | k in n ensures n[k].JObj? && NormalizeGroup(n[k]) == n[k].fields {
      GroupIdempotent(res.fields[k]);
    }
  }

  /** Normalising a block of normalised groups changes nothing. */
  lemma ResourcesFixed(m: map<string, Json>)
    requires NormalGroups(m)
    ensures NormalizeResources(JObj(m)) == m
  {
  }

  /** Copying requests or limits keeps the groups normalised, and a second
      copy changes nothing. */
  lemma SymmetrizeNormal(m: map<string, Json>)
    requires NormalGroups(m)
    ensures NormalGroups(Symmetrize(m))
    ensures Symmetrize(Symmetrize(m)) == Symmetrize(m)
  {
    if "limits" in m {
      assert m["limits"].JObj?;
    } else if "requests" in m {
      assert m["requests"].JObj?;
    }
  }

  /** Normalising a normalised block a second time changes nothing. */
  lemma BlockIdempotent(res: Json)
    ensures NormalizedBlock(JObj(NormalizedBlock(res))) == NormalizedBlock(res)
  {
    var n := NormalizeResources(res);
    ResourcesNormal(res);
    SymmetrizeNormal(n);
    ResourcesFixed(Symmetrize(n));
  }

  /** Normalising an entry a second time changes nothing. */
  lemma ComponentIdempotent(v: Json)
    ensures NormalizeComponent(NormalizeComponent(v)) == NormalizeComponent(v)
  {
    if HasResources(v) {
      var w := NormalizeComponent(v);
      BlockIdempotent(v.fields["resources"]);
      assert HasResources(w);
      assert w.fields["resources" := JObj(NormalizedBlock(w.fields["resources"]))] == w.fields;
    }
  }

  /** A config whose entries are already normalised is its own override. */
  lemma OverridesFixed(cfg: map<string, Json>)
    requires forall k :: k in cfg ==> cfg[k] != JNull && NormalizeComponent(cfg[k]) == cfg[k]
    ensures Overrides(cfg) == Ok(cfg)
  {
    assert (map k | k in cfg :: NormalizeComponent(cfg[k])) == cfg;
  }

  /** Applying the overrides to their own result gives the same result. */
  lemma OverridesIdempotent(cfg: map<string, Json>)
    requires Overrides(cfg).Ok?
    ensures Overrides(Overrides(cfg).value) == Overrides(cfg)
  {
    var out := Overrides(cfg).value;
    forall k | k in out ensures out[k] != JNull && NormalizeComponent(out[k]) == out[k] {
      ComponentIdempotent(cfg[k]);
    }
    OverridesFixed(out);
  }

  /** The example's amounts with their units. */
  lemma ExampleLeaves()
    ensures NormalizeLeaf("cpu", JNum(500)) == JStr("500m")
    ensures NormalizeLeaf("memory", JNum(1024)) == JStr("1024Mi")
  {
    assert IntToString(500) == "500" by {
      assert NatToString(5) == "5";
      assert NatToString(50) == NatToString(5) + "0";
      assert NatToString(500) == NatToString(50) + "0";
    }
    assert IntToString(1024) == "1024" by {
      assert NatToString(1) == "1";
      assert NatToString(10) == NatToString(1) + "0";
      assert NatToString(102) == NatToString(10) + "2";
      assert NatToString(1024) == NatToString(102) + "4";
    }
  }

  /** Numeric limits of 500 millicores and 1024 MiB become `"500m"` and
      `"1024Mi"`, and the requests are set to the same. */
  lemma ExampleBlock()
    ensures var limits := JObj(map["cpu" := JNum(500), "memory" := JNum(1024)]);
            var wrapped := JObj(map["cpu" := JStr("500m"), "memory" := JStr("1024Mi")]);
            NormalizedBlock(JObj(map["limits" := limits])) == map["limits" := wrapped, "requests" := wrapped]
  {
    var limits := JObj(map["cpu" := JNum(500), "memory" := JNum(1024)]);
    var wrapped := JObj(map["cpu" := JStr("500m"), "memory" := JStr("1024Mi")]);
    ExampleGroup();
    assert NormalizeResources(JObj(map["limits" := limits])) == map["limits" := wrapped];
  }

  /** The limits group of the example, normalised leaf by leaf. */
  lemma ExampleGroup()
    ensures NormalizeGroup(JObj(map["cpu" := JNum(500), "memory" := JNum(1024)]))
            == map["cpu" := JStr("500m"), "memory" := JStr("1024Mi")]
  {
    var g := NormalizeGroup(JObj(map["cpu" := JNum(500), "memory" := JNum(1024)]));
    assert g.Keys == {"cpu", "memory"};
    assert g["cpu"] == NormalizeLeaf("cpu", JNum(500));
    assert g["memory"] == NormalizeLeaf("memory", JNum(1024));
    ExampleLeaves();
  }

  /** The example block inside its component. */
  lemma ExampleComponent()
    ensures var limits := JObj(map["cpu" := JNum(500), "memory" := JNum(1024)]);
            var wrapped := JObj(map["cpu" := JStr("500m"), "memory" := JStr("1024Mi")]);
            NormalizeComponent(JObj(map["resources" := JObj(map["limits" := limits])]))
              == JObj(map["resources" := JObj(map["limits" := wrapped, "requests" := wrapped])])
  {
    var limits := JObj(map["cpu" := JNum(500), "memory" := JNum(1024)]);
    var v := JObj(map["resources" := JObj(map["limits" := limits])]);
    ExampleBlock();
    assert HasResources(v);
  }

  /** The overrides of a config with a single entry. */
  lemma OverridesSingle(name: string, v: Json)
    requires v != JNull
    ensures Overrides(map[name := v]) == Ok(map[name := NormalizeComponent(v)])
  {
    assert Overrides(map[name := v]).value == map[name := NormalizeComponent(v)];
  }

  /** The same, as the overrides of a config with one `workers` entry. */
  lemma OverridesExample()
    ensures var limits := JObj(map["cpu" := JNum(500), "memory" := JNum(1024)]);
            var wrapped := JObj(map["cpu" := JStr("500m"), "memory" := JStr("1024Mi")]);
            var cfg := map["workers" := JObj(map["resources" := JObj(map["limits" := limits])])];
            Overrides(cfg)
              == Ok(map["workers" := JObj(map["resources" := JObj(map["limits" := wrapped, "requests" := wrapped])])])
  {
    var limits := JObj(map["cpu" := JNum(500), "memory" := JNum(1024)]);
    var cfg := map["workers" := JObj(map["resources" := JObj(map["limits" := limits])])];
    var wrapped := JObj(map["cpu" := JStr("500m"), "memory" := JStr("1024Mi")]);
    var out := JObj(map["resources" := JObj(map["limits" := wrapped, "requests" := wrapped])]);
    ExampleComponent();
    OverridesSingle("workers", cfg["workers"]);
  }
}
