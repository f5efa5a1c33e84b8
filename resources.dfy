/** Astro-unit conversion and the per-component resource blocks built from the
    component catalog (`auToResources`, `mapResources`, `defaultResources`,
    `limitRange`). */
module Resources {
  import opened Json
  import opened JsNumbers
  import opened Catalog

  /** A resource amount as the source writes it: a bare number or a
      unit-suffixed string such as `"1000m"` or `"4096Mi"`. */
  datatype Quantity = Num(n: int) | Str(s: string) {
    function ToJson(): Json {
      match this
      case Num(n) => JNum(n)
      case Str(s) => JStr(s)
    }

    /** The number `parseInt` reads from this amount. */
    function Amount(): JsNum {
      match this
      case Num(n) => Fin(n)
      case Str(s) => ParseInt(s)
    }
  }

  datatype ResourceAmount = ResourceAmount(cpu: Quantity, memory: Quantity) {
    function ToJson(): Json {
      JObj(map["cpu" := cpu.ToJson(), "memory" := memory.ToJson()])
    }
  }

  predicate EndsWith(s: string, suffix: string) {
    |suffix| <= |s| && s[|s| - |suffix|..] == suffix
  }

  /** `auToResources(au, size, includeUnits)`: `size` astro units of CPU and
      memory, as bare numbers or as `m` / `Mi` strings. Either way the amounts
      read back are exactly `au.cpu * size` and `au.memory * size`. */
  function AuToResources(au: AstroUnit, size: int, includeUnits: bool): (r: ResourceAmount)
    ensures r.cpu.Amount() == Fin(au.cpu * size) && r.memory.Amount() == Fin(au.memory * size)
    ensures r.cpu.Str? == includeUnits && r.memory.Str? == includeUnits
  {
    if includeUnits then
      ParseIntRoundTrip(au.cpu * size, "m");
      ParseIntRoundTrip(au.memory * size, "Mi");
      ResourceAmount(Str(IntToString(au.cpu * size) + "m"), Str(IntToString(au.memory * size) + "Mi"))
    else
      ResourceAmount(Num(au.cpu * size), Num(au.memory * size))
  }

  /** With units, the strings are the amounts followed by `m` and `Mi`. */
  lemma AuToResourcesUnits(au: AstroUnit, size: int)
    ensures EndsWith(AuToResources(au, size, true).cpu.s, "m")
    ensures EndsWith(AuToResources(au, size, true).memory.s, "Mi")
  {
    var r := AuToResources(au, size, true);
    assert r.cpu.s[|r.cpu.s| - 1..] == "m";
    assert r.memory.s[|r.memory.s| - 2..] == "Mi";
  }

  /** Zero astro units are `"0m"` and `"0Mi"`. */
  lemma AuToResourcesZero(au: AstroUnit)
    ensures AuToResources(au, 0, true) == ResourceAmount(Str("0m"), Str("0Mi"))
    ensures AuToResources(au, 0, false) == ResourceAmount(Num(0), Num(0))
  {
    assert au.cpu * 0 == 0 && au.memory * 0 == 0;
    assert IntToString(0) == ['0'];
    assert ['0'] + "m" == "0m" && ['0'] + "Mi" == "0Mi";
  }

  /** The conversion is linear in the size. */
  lemma {:induction false} AuToResourcesLinear(au: AstroUnit, a: int, b: int, includeUnits: bool)
    ensures AuToResources(au, a + b, includeUnits).cpu.Amount()
            == AuToResources(au, a, includeUnits).cpu.Amount().Plus(AuToResources(au, b, includeUnits).cpu.Amount())
    ensures AuToResources(au, a + b, includeUnits).memory.Amount()
            == AuToResources(au, a, includeUnits).memory.Amount().Plus(AuToResources(au, b, includeUnits).memory.Amount())
  {
    assert au.cpu * (a + b) == au.cpu * a + au.cpu * b;
    assert au.memory * (a + b) == au.memory * a + au.memory * b;
  }

  /** A component value keeps its requests and limits equal: under an object
      `resources`, `requests` is present exactly when `limits` is, and then
      they are the same. */
  predicate ResourcesSymmetric(v: Json) {
    v.JObj? && "resources" in v.fields && v.fields["resources"].JObj? ==>
      var r := v.fields["resources"].fields;
      ("requests" in r <==> "limits" in r) && ("requests" in r ==> r["requests"] == r["limits"])
  }

  /** Every entry of a values document keeps its requests and limits equal. */
  predicate AllSymmetric(doc: map<string, Json>) {
    forall k :: k in doc ==> ResourcesSymmetric(doc[k])
  }

  /** Deep-merging two symmetric component values gives a symmetric one. */
  lemma MergeKeepsSymmetric(a: Json, b: Json)
    requires ResourcesSymmetric(a) && ResourcesSymmetric(b)
    ensures ResourcesSymmetric(Merge(a, b))
  {
    if a.JObj? && b.JObj? && "resources" in a.fields && "resources" in b.fields {
      var ra, rb := a.fields["resources"], b.fields["resources"];
      assert Merge(a, b).fields["resources"] == Merge(ra, rb);
      if ra.JObj? && rb.JObj? && "limits" in ra.fields && "limits" in rb.fields {
        assert Merge(ra, rb).fields["requests"] == Merge(ra.fields["requests"], rb.fields["requests"]);
      }
    }
  }

  /** Merging two symmetric documents gives a symmetric document. */
  lemma MergeFieldsKeepsSymmetric(a: map<string, Json>, b: map<string, Json>)
    requires AllSymmetric(a) && AllSymmetric(b)
    ensures AllSymmetric(MergeFields(a, b))
  {
    forall k | k in a && k in b ensures ResourcesSymmetric(Merge(a[k], b[k])) {
      MergeKeepsSymmetric(a[k], b[k]);
    }
  }

  /** The names of a list of extras. */
  function ExtraNames(extras: seq<Extra>): (names: set<string>)
    ensures forall k :: k in names <==> exists i :: 0 <= i < |extras| && extras[i].name == k
  {
    set i | 0 <= i < |extras| :: extras[i].name
  }

  /** `merge(acc, ...extras.map(e => ({[e.name]: e[auType]})))`, merged left to right. */
  function MergeExtras(acc: map<string, Json>, extras: seq<Extra>, t: AuType): (r: map<string, Json>)
    ensures r.Keys == acc.Keys + ExtraNames(extras)
    decreases |extras|
  {
    if extras == [] then acc
    else
      var e := extras[0];
      assert ExtraNames(extras) == {e.name} + ExtraNames(extras[1..]);
      MergeExtras(MergeFields(acc, map[e.name := JNum(e.sizes.Of(t))]), extras[1..], t)
  }

  /** The position of the last extra of a name. */
  function LastExtra(extras: seq<Extra>, k: string): (i: nat)
    requires k in ExtraNames(extras)
    ensures i < |extras| && extras[i].name == k
    ensures forall j :: i < j < |extras| ==> extras[j].name != k
    decreases |extras|
  {
    if k in ExtraNames(extras[1..]) then
      var i := LastExtra(extras[1..], k);
      assert extras[1 + i] == extras[1..][i];
      assert forall j :: 1 + i < j < |extras| ==> extras[j] == extras[1..][j - 1];
      1 + i
    else
      assert forall j :: 0 < j < |extras| ==> extras[j] == extras[1..][j - 1];
      0
  }

  /** Each extra sets its own key to its size, and the last extra of a name wins. */
  lemma {:induction false} MergeExtrasLastWins(acc: map<string, Json>, extras: seq<Extra>, t: AuType, k: string)
    requires k in ExtraNames(extras)
    ensures MergeExtras(acc, extras, t)[k] == JNum(extras[LastExtra(extras, k)].sizes.Of(t))
    decreases |extras|
  {
    var e := extras[0];
    var acc' := MergeFields(acc, map[e.name := JNum(e.sizes.Of(t))]);
    assert MergeExtras(acc, extras, t) == MergeExtras(acc', extras[1..], t);
    if k in ExtraNames(extras[1..]) {
      MergeExtrasLastWins(acc', extras[1..], t, k);
      assert extras[LastExtra(extras, k)] == extras[1..][LastExtra(extras[1..], k)];
    } else {
      assert k == e.name;
      MergeExtrasKeeps(acc', extras[1..], t, k);
    }
  }

  /** Keys no extra names keep the value they had. */
  lemma {:induction false} MergeExtrasKeeps(acc: map<string, Json>, extras: seq<Extra>, t: AuType, k: string)
    requires k in acc && k !in ExtraNames(extras)
    ensures MergeExtras(acc, extras, t)[k] == acc[k]
    decreases |extras|
  {
    if extras != [] {
      var e := extras[0];
      var acc' := MergeFields(acc, map[e.name := JNum(e.sizes.Of(t))]);
      assert k != e.name && acc'[k] == acc[k];
      assert ExtraNames(extras) == {e.name} + ExtraNames(extras[1..]);
      MergeExtrasKeeps(acc', extras[1..], t, k);
    }
  }

  /** The `resources` block `mapResources` gives every component: requests and
      limits are the same `auToResources` amount. */
  function DefaultBlock(au: AstroUnit, t: AuType, includeUnits: bool, comp: Component): Json {
    var amount := AuToResources(au, comp.au.Of(t), includeUnits).ToJson();
    JObj(map["requests" := amount, "limits" := amount])
  }

  /** `mapResources(au, auType, includeUnits, comp)`: one key, the component's
      name, holding its resources block and one key per extra. */
  function MapResources(au: AstroUnit, t: AuType, includeUnits: bool, comp: Component): (r: map<string, Json>)
    ensures r.Keys == {comp.name} && r[comp.name].JObj?
    ensures r[comp.name].fields.Keys == {"resources"} + ExtraNames(comp.extra)
    ensures "resources" !in ExtraNames(comp.extra) ==>
              r[comp.name].fields["resources"] == DefaultBlock(au, t, includeUnits, comp)
    ensures ResourcesSymmetric(r[comp.name])
  {
    var block := map["resources" := DefaultBlock(au, t, includeUnits, comp)];
    var merged := MergeExtras(block, comp.extra, t);
    assert if "resources" in ExtraNames(comp.extra) then merged["resources"].JNum?
           else merged["resources"] == DefaultBlock(au, t, includeUnits, comp) by {
      if "resources" !in ExtraNames(comp.extra) {
        MergeExtrasKeeps(block, comp.extra, t, "resources");
      } else {
        MergeExtrasLastWins(block, comp.extra, t, "resources");
      }
    }
    map[comp.name := JObj(merged)]
  }

  /** Each extra of a component contributes its own key holding its size for
      the chosen column; of two extras with one name, the later wins. */
  lemma MapResourcesExtra(au: AstroUnit, t: AuType, includeUnits: bool, comp: Component, k: string)
    requires k in ExtraNames(comp.extra)
    ensures MapResources(au, t, includeUnits, comp)[comp.name].fields[k]
            == JNum(comp.extra[LastExtra(comp.extra, k)].sizes.Of(t))
  {
    MergeExtrasLastWins(map["resources" := DefaultBlock(au, t, includeUnits, comp)], comp.extra, t, k);
  }

  /** The names of a list of components. */
  function ComponentNames(comps: seq<Component>): (names: set<string>)
    ensures forall k :: k in names <==> exists i :: 0 <= i < |comps| && comps[i].name == k
  {
    set i | 0 <= i < |comps| :: comps[i].name
  }

  /** `merge(...comps.map(mapResources(au, t, includeUnits)))`, merged left to right. */
  function MergeComponents(au: AstroUnit, t: AuType, includeUnits: bool, comps: seq<Component>): (r: map<string, Json>)
    ensures r.Keys == ComponentNames(comps)
    decreases |comps|
  {
    if comps == [] then map[]
    else
      var prefix := comps[..|comps| - 1];
      var last := comps[|comps| - 1];
      assert ComponentNames(comps) == ComponentNames(prefix) + {last.name} by {
        assert forall i :: 0 <= i < |prefix| ==> prefix[i] == comps[i];
      }
      MergeFields(MergeComponents(au, t, includeUnits, prefix), MapResources(au, t, includeUnits, last))
  }

  /** Every entry of the merged defaults keeps requests equal to limits, even
      when two catalog components share a name. */
  lemma {:induction false} MergeComponentsSymmetric(au: AstroUnit, t: AuType, includeUnits: bool, comps: seq<Component>)
    ensures AllSymmetric(MergeComponents(au, t, includeUnits, comps))
    decreases |comps|
  {
    if comps != [] {
      var prefix := comps[..|comps| - 1];
      var last := comps[|comps| - 1];
      MergeComponentsSymmetric(au, t, includeUnits, prefix);
      MergeFieldsKeepsSymmetric(MergeComponents(au, t, includeUnits, prefix), MapResources(au, t, includeUnits, last));
    }
  }

  /** `defaultResources(type, includeUnits)` over the catalog's components. */
  function DefaultResources(c: Catalog, t: AuType, includeUnits: bool): (r: map<string, Json>)
    ensures r.Keys == ComponentNames(c.components)
    ensures AllSymmetric(r)
  {
    MergeComponentsSymmetric(c.astroUnit, t, includeUnits, c.components);
    MergeComponents(c.astroUnit, t, includeUnits, c.components)
  }

  /** With distinct component names, each component's entry in the default
      resources is exactly what `mapResources` gives it. */
  lemma {:induction false} MergeComponentsDistinct(au: AstroUnit, t: AuType, includeUnits: bool, comps: seq<Component>, i: nat)
    requires forall p, q :: 0 <= p < q < |comps| ==> comps[p].name != comps[q].name
    requires i < |comps|
    ensures MergeComponents(au, t, includeUnits, comps)[comps[i].name]
            == MapResources(au, t, includeUnits, comps[i])[comps[i].name]
    decreases |comps|
  {
    var prefix := comps[..|comps| - 1];
    var last := comps[|comps| - 1];
    var before := MergeComponents(au, t, includeUnits, prefix);
    var own := MapResources(au, t, includeUnits, last);
    if i < |comps| - 1 {
      assert prefix[i] == comps[i];
      DistinctPrefix(comps);
      MergeComponentsDistinct(au, t, includeUnits, prefix, i);
      assert comps[i].name != last.name && comps[i].name in before;
      MergeFieldsLeft(before, own, comps[i].name);
    } else {
      assert last.name !in ComponentNames(prefix) by {
        forall p | 0 <= p < |prefix| ensures prefix[p].name != last.name {
          assert prefix[p] == comps[p];
        }
      }
      MergeFieldsRight(before, own, last.name);
    }
  }

  /** Names distinct in a list are distinct in its prefix. */
  lemma DistinctPrefix(comps: seq<Component>)
    requires comps != []
    requires forall p, q :: 0 <= p < q < |comps| ==> comps[p].name != comps[q].name
    ensures var prefix := comps[..|comps| - 1];
            forall p, q :: 0 <= p < q < |prefix| ==> prefix[p].name != prefix[q].name
  {
    var prefix := comps[..|comps| - 1];
    assert forall p :: 0 <= p < |prefix| ==> prefix[p] == comps[p];
  }

  /** The Pod entry of the limit range: an upper bound only. */
  function PodLimit(max: Json): (r: Json)
    ensures Field(r, "type") == Some(JStr("Pod")) && Field(r, "max") == Some(max)
  {
    JObj(map["type" := JStr("Pod"), "max" := max])
  }

  /** The Container entry of the limit range: its default limit, default
      request and minimum are one and the same amount. */
  function ContainerLimit(min: Json): (r: Json)
    ensures Field(r, "type") == Some(JStr("Container")) && Field(r, "min") == Some(min)
    ensures Field(r, "default") == Some(min) && Field(r, "defaultRequest") == Some(min)
  {
    JObj(map["type" := JStr("Container"), "default" := min, "defaultRequest" := min, "min" := min])
  }

  /** `limitRange()`: nothing in a shared namespace; otherwise a Pod bound of
      at most `maxPodAu` units and a Container bound of one unit. */
  function LimitRange(c: Catalog): (r: map<string, Json>)
    ensures c.singleNamespace ==> r == map[]
    ensures !c.singleNamespace ==>
              r == map["limits" := JArr([PodLimit(AuToResources(c.astroUnit, c.maxPodAu, true).ToJson()),
                                        ContainerLimit(AuToResources(c.astroUnit, 1, true).ToJson())])]
  {
    if c.singleNamespace then map[]
    else
      var max := AuToResources(c.astroUnit, c.maxPodAu, true);
      var min := AuToResources(c.astroUnit, 1, true);
      map["limits" := JArr([PodLimit(max.ToJson()), ContainerLimit(min.ToJson())])]
  }

  /** The limit range's amounts read back as astro units: the Pod bound is
      `maxPodAu` units, and the Container minimum, default and default request
      are one unit. */
  lemma LimitRangeAmounts(c: Catalog)
    requires !c.singleNamespace
    ensures var items := LimitRange(c)["limits"].items;
            var pod := items[0].fields["max"].fields;
            var container := items[1].fields["min"].fields;
            && ParseInt(pod["cpu"].s) == Fin(c.astroUnit.cpu * c.maxPodAu)
            && ParseInt(pod["memory"].s) == Fin(c.astroUnit.memory * c.maxPodAu)
            && ParseInt(container["cpu"].s) == Fin(c.astroUnit.cpu)
            && ParseInt(container["memory"].s) == Fin(c.astroUnit.memory)
  {
    var max := AuToResources(c.astroUnit, c.maxPodAu, true);
    var min := AuToResources(c.astroUnit, 1, true);
    assert c.astroUnit.cpu * 1 == c.astroUnit.cpu && c.astroUnit.memory * 1 == c.astroUnit.memory;
  }
}
