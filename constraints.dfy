/** `constraints(deployment)`: namespace quotas, pgbouncer pool sizes and the
    pod-launching flag, derived from the deployment's executor, its components,
    their sidecars and any purchased extra astro units. */
module DeploymentConstraints {
  import opened Json
  import opened JsNumbers
  import opened Catalog
  import opened Resources

  /** The `{cpu, memory, pods}` accumulator of the primary fold. */
  datatype Totals = Totals(cpu: JsNum, memory: JsNum, pods: JsNum) {
    function Add(o: Totals): Totals {
      Totals(cpu.Plus(o.cpu), memory.Plus(o.memory), pods.Plus(o.pods))
    }
  }

  const Zero := Totals(Fin(0), Fin(0), Fin(0))

  /** The `{cpu, memory}` accumulator of the sidecar fold. */
  datatype Overhead = Overhead(cpu: JsNum, memory: JsNum) {
    function Add(o: Overhead): Overhead {
      Overhead(cpu.Plus(o.cpu), memory.Plus(o.memory))
    }
  }

  /** `get(deployment, "config.executor", CeleryExecutor)`. */
  function ExecutorName(d: Deployment): (r: Json)
    ensures "executor" in d.config ==> Lookup(JObj(d.config), ["executor"]) == Some(r)
    ensures "executor" !in d.config ==> r == JStr(ExecutorCelery)
  {
    assert ["executor"][1..] == [];
    if "executor" in d.config then d.config["executor"] else JStr(ExecutorCelery)
  }

  /** `generateDefaultDeploymentConfig()`: the config of a new deployment. */
  function DefaultDeploymentConfig(): (r: map<string, Json>)
    ensures r.Keys == {"executor"}
    ensures Lookup(JObj(r), ["executor"]) == Some(JStr(ExecutorCelery))
  {
    assert ["executor"][1..] == [];
    map["executor" := JStr(ExecutorCelery)]
  }

  /** A new deployment's default config names the executor that a deployment
      without any config falls back to, and it is the CeleryExecutor. */
  lemma DefaultConfigExecutor(d: Deployment)
    ensures ExecutorName(d.(config := DefaultDeploymentConfig())) == ExecutorName(d.(config := map[]))
    ensures ExecutorName(d.(config := map[])) == JStr(ExecutorCelery)
  {
  }

  /** The deployment's executor from the catalog; a name the catalog does not
      list (or a name that is not a string) is an error. */
  function ResolveExecutor(c: Catalog, d: Deployment): (r: Result<Executor, ConfigError>)
    ensures r.Ok? ==> r.value in c.executors && ExecutorName(d) == JStr(r.value.name)
    ensures r.Err? <==> forall i :: 0 <= i < |c.executors| ==> ExecutorName(d) != JStr(c.executors[i].name)
  {
    match FindExecutor(c.executors, ExecutorName(d))
    case None => Err(ExecutorNotFound(ExecutorName(d)))
    case Some(e) => Ok(e)
  }

  /** `get(deployment, "config.<c>.resources.limits")`. */
  function ConfigLimits(d: Deployment, name: string): Option<Json> {
    Get(Get(Field(JObj(d.config), name), "resources"), "limits")
  }

  /** `get(deployment, "config.<c>.replicas")`. */
  function ConfigReplicas(d: Deployment, name: string): Option<Json> {
    Get(Field(JObj(d.config), name), "replicas")
  }

  /** The limits a component is sized by: `config.<c>.resources.limits` of the
      deployment when set, else the component's default astro units. */
  function ComponentLimits(au: AstroUnit, d: Deployment, comp: Component): (r: Json)
    ensures ConfigLimits(d, comp.name).Some? ==> r == ConfigLimits(d, comp.name).value
    ensures ConfigLimits(d, comp.name).None? ==>
              && ParseIntOf(Field(r, "cpu")) == Fin(au.cpu * comp.au.defaultAu)
              && ParseIntOf(Field(r, "memory")) == Fin(au.memory * comp.au.defaultAu)
  {
    match ConfigLimits(d, comp.name)
    case Some(v) => v
    case None =>
      ParseIntOfFormatted(au.cpu * comp.au.defaultAu, "m");
      ParseIntOfFormatted(au.memory * comp.au.defaultAu, "Mi");
      AuToResources(au, comp.au.defaultAu, true).ToJson()
  }

  /** `get(deployment, "config.<c>.replicas", 1)`, as a number. */
  function Replicas(d: Deployment, name: string): (r: JsNum)
    ensures ConfigReplicas(d, name).None? ==> r == Fin(1)
    ensures ConfigReplicas(d, name).Some? && ConfigReplicas(d, name).value.JNum? ==>
              r == Fin(ConfigReplicas(d, name).value.n)
  {
    match ConfigReplicas(d, name)
    case Some(v) => ToNumber(v)
    case None => Fin(1)
  }

  /** What one component adds to the primary totals: its limits times its
      replicas, and its replicas as pods. */
  function Contribution(c: Catalog, d: Deployment, name: string): (r: Result<Totals, ConfigError>)
    ensures r.Err? <==> FindComponent(c.components, name).None?
                        || ConfigLimits(d, name) == Some(JNull)
  {
    match FindComponent(c.components, name)
    case None => Err(ComponentNotFound(name))
    case Some(comp) =>
      var limits := ComponentLimits(c.astroUnit, d, comp);
      if limits.JNull? then Err(NullLimits(name))
      else
        var replicas := Replicas(d, name);
        Ok(Totals(ParseIntOf(Field(limits, "cpu")).Times(replicas),
                  ParseIntOf(Field(limits, "memory")).Times(replicas),
                  replicas))
  }

  /** The primary fold over the executor's components, left to right; the first
      component that cannot be read aborts it. */
  function Total(c: Catalog, d: Deployment, names: seq<string>): (r: Result<Totals, ConfigError>)
    ensures r.Err? ==> exists i :: 0 <= i < |names| && Contribution(c, d, names[i]) == Err(r.error)
    decreases |names|
  {
    if names == [] then Ok(Zero)
    else
      assert forall i :: 0 <= i < |names| - 1 ==> names[..|names| - 1][i] == names[i];
      var acc :- Total(c, d, names[..|names| - 1]);
      var x :- Contribution(c, d, names[|names| - 1]);
      Ok(acc.Add(x))
  }

  /** `get(deployment, "<c>.replicas", 1)`: the sidecar fold reads replicas from
      the top level of the deployment record, not from its `config`. */
  function SidecarReplicas(d: Deployment, name: string): JsNum {
    match Get(Field(JObj(d.fields), name), "replicas")
    case Some(v) => ToNumber(v)
    case None => Fin(1)
  }

  /** The sidecar overhead one component brings. Only `workers` depends on the
      record: it counts its sidecar units once per top-level replica, and a
      replica count that is not a number makes its overhead NaN. */
  function SidecarOf(c: Catalog, d: Deployment, executor: string, name: string): (r: Overhead)
    ensures var u := SidecarUnits(executor, name);
            name !in d.fields ==> r == Overhead(Fin(c.astroUnit.cpu * u), Fin(c.astroUnit.memory * u))
    ensures SidecarReplicas(d, ComponentWorkers).Fin? ==>
              var k := SidecarReplicas(d, ComponentWorkers).v;
              var u := SidecarUnits(executor, name) + (if name == ComponentWorkers then k - 1 else 0);
              r == Overhead(Fin(c.astroUnit.cpu * u), Fin(c.astroUnit.memory * u))
    ensures name == ComponentWorkers && SidecarReplicas(d, ComponentWorkers).NaN? ==>
              r.cpu.NaN? && r.memory.NaN?
  {
    var au := c.astroUnit;
    if executor == ExecutorLocal && name == ComponentScheduler then
      Overhead(Fin(au.cpu * 2), Fin(au.memory * 2))
    else if name == ComponentWorkers then
      var replicas := SidecarReplicas(d, name);
      Overhead(Fin(au.cpu).Times(replicas), Fin(au.memory).Times(replicas))
    else if name == ComponentPgbouncer then
      Overhead(Fin(au.cpu), Fin(au.memory))
    else
      Overhead(Fin(0), Fin(0))
  }

  /** "Workers add an astro unit per replica": a numeric top-level
      `workers.replicas` of k scales the workers' sidecar overhead by k. */
  lemma SidecarOfWorkers(c: Catalog, d: Deployment, executor: string, k: int)
    requires Get(Field(JObj(d.fields), ComponentWorkers), "replicas") == Some(JNum(k))
    ensures SidecarOf(c, d, executor, ComponentWorkers)
            == Overhead(Fin(c.astroUnit.cpu * k), Fin(c.astroUnit.memory * k))
  {
    assert SidecarReplicas(d, ComponentWorkers) == Fin(k);
  }

  /** The sidecar fold over the executor's components. When the record carries
      no replica counts of its own at the top level, the overhead is the astro
      unit times the summed sidecar units. When the top-level `workers.replicas`
      reads as the number k, each `workers` entry counts k units instead of one;
      when it reads as NaN, a `workers` entry makes the whole overhead NaN. */
  function Sidecars(c: Catalog, d: Deployment, executor: string, names: seq<string>): (r: Overhead)
    ensures var u := SidecarUnitsSum(executor, names);
            (forall i :: 0 <= i < |names| ==> names[i] !in d.fields) ==>
              r == Overhead(Fin(c.astroUnit.cpu * u), Fin(c.astroUnit.memory * u))
    ensures SidecarReplicas(d, ComponentWorkers).Fin? ==>
              var k := SidecarReplicas(d, ComponentWorkers).v;
              var u := SidecarUnitsSum(executor, names) + (k - 1) * Occurrences(names, ComponentWorkers);
              r == Overhead(Fin(c.astroUnit.cpu * u), Fin(c.astroUnit.memory * u))
    ensures ComponentWorkers in names && SidecarReplicas(d, ComponentWorkers).NaN? ==>
              r.cpu.NaN? && r.memory.NaN?
    decreases |names|
  {
    if names == [] then
      assert c.astroUnit.cpu * 0 == 0 && c.astroUnit.memory * 0 == 0;
      Overhead(Fin(0), Fin(0))
    else
      var prefix := names[..|names| - 1];
      var last := names[|names| - 1];
      assert forall i :: 0 <= i < |prefix| ==> prefix[i] == names[i];
      assert names == prefix + [last];
      AddScaledOverhead(c.astroUnit, SidecarUnitsSum(executor, prefix), SidecarUnits(executor, last));
      ScaledUnits(c.astroUnit, executor, prefix, last, SidecarReplicas(d, ComponentWorkers));
      Sidecars(c, d, executor, prefix).Add(SidecarOf(c, d, executor, last))
  }

  /** The value of the first `extra_au` property, 0 when the deployment has none. */
  function ExtraAu(d: Deployment): (r: Json)
    ensures (forall i :: 0 <= i < |d.properties| ==> d.properties[i].key != PropertyExtraAu) ==> r == JNum(0)
    ensures forall i :: 0 <= i < |d.properties| && d.properties[i].key == PropertyExtraAu
                        && (forall j :: 0 <= j < i ==> d.properties[j].key != PropertyExtraAu)
                        ==> r == d.properties[i].value
  {
    match FindProperty(d.properties, PropertyExtraAu)
    case Some(p) => p.value
    case None => JNum(0)
  }

  /** The capacity purchased as extra astro units: the astro unit times their
      number, or NaN throughout when `extraAu` is not a number. */
  function ExtraCapacity(au: AstroUnit, extraAu: Json): (r: Totals)
    ensures var n := ToNumber(extraAu);
            && (n.Fin? ==> r == Totals(Fin(au.cpu * n.v), Fin(au.memory * n.v), Fin(au.pods * n.v)))
            && (n.NaN? ==> r == Totals(NaN, NaN, NaN))
  {
    var n := ToNumber(extraAu);
    Totals(Fin(au.cpu).Times(n), Fin(au.memory).Times(n), Fin(au.pods).Times(n))
  }

  /** Everything the quotas and pool sizes are computed from. */
  datatype Sizing = Sizing(executor: Executor, total: Totals, sidecars: Overhead, extraAu: Json, extra: Totals)

  /** The sizing of a deployment. It fails when the executor is unknown or
      when a component of the executor cannot be read; otherwise it holds both
      folds over the executor's components and the extra capacity, which is
      zero without an `extra_au` property. */
  function Size(c: Catalog, d: Deployment): (r: Result<Sizing, ConfigError>)
    ensures r.Ok? <==> ResolveExecutor(c, d).Ok?
                        && forall i :: 0 <= i < |ResolveExecutor(c, d).value.components| ==>
                             Readable(c, d, ResolveExecutor(c, d).value.components[i])
    ensures ResolveExecutor(c, d).Err? ==> r == Err(ResolveExecutor(c, d).error)
    ensures r.Ok? ==> var e := ResolveExecutor(c, d).value;
              && r.value.executor == e
              && r.value.total == Total(c, d, e.components).value
              && r.value.sidecars == Sidecars(c, d, e.name, e.components)
              && r.value.extraAu == ExtraAu(d)
              && r.value.extra == ExtraCapacity(c.astroUnit, ExtraAu(d))
    ensures r.Ok? && FindProperty(d.properties, PropertyExtraAu).None? ==> r.value.extra == Zero
    ensures r.Ok? && ToNumber(ExtraAu(d)).Fin? ==>
              var n := ToNumber(ExtraAu(d)).v;
              var au := c.astroUnit;
              r.value.extra == Totals(Fin(au.cpu * n), Fin(au.memory * n), Fin(au.pods * n))
  {
    var executor :- ResolveExecutor(c, d);
    TotalOk(c, d, executor.components);
    assert c.astroUnit.cpu * 0 == 0 && c.astroUnit.memory * 0 == 0 && c.astroUnit.pods * 0 == 0;
    var total :- Total(c, d, executor.components);
    var sidecars := Sidecars(c, d, executor.name, executor.components);
    var extraAu := ExtraAu(d);
    Ok(Sizing(executor, total, sidecars, extraAu, ExtraCapacity(c.astroUnit, extraAu)))
  }

  /** Quotas double the primary and sidecar totals and add the extra capacity. */
  function QuotaCpu(s: Sizing): JsNum {
    s.total.cpu.Doubled().Plus(s.sidecars.cpu.Doubled()).Plus(s.extra.cpu)
  }

  function QuotaMemory(s: Sizing): JsNum {
    s.total.memory.Doubled().Plus(s.sidecars.memory.Doubled()).Plus(s.extra.memory)
  }

  function QuotaPods(s: Sizing): JsNum {
    s.total.pods.Doubled().Plus(s.extra.pods)
  }

  /** `Math.floor(conns * totalAu)` with `totalAu = (total.cpu + extra.cpu) / au.cpu`,
      computed exactly. */
  function PoolSize(conns: int, s: Sizing, auCpu: int): (r: JsNum)
    requires auCpu > 0
    ensures r.Fin? <==> s.total.cpu.Plus(s.extra.cpu).Fin?
    ensures r.Fin? ==> r.v * auCpu <= conns * s.total.cpu.Plus(s.extra.cpu).v < (r.v + 1) * auCpu
  {
    var used := s.total.cpu.Plus(s.extra.cpu);
    if used.NaN? then NaN
    else
      var q := (conns * used.v) / auCpu;
      assert q * auCpu <= conns * used.v < (q + 1) * auCpu by {
        FloorDivision(conns * used.v, auCpu);
      }
      Fin(q)
  }

  lemma FloorDivision(x: int, y: int)
    requires y > 0
    ensures (x / y) * y <= x < (x / y + 1) * y
  {
  }

  /** The `quotas` block: requests equal limits, and the CPU and memory strings
      read back as the quota numbers. */
  function QuotasJson(s: Sizing): (r: Json)
    ensures r.JObj? && r.fields.Keys == {"pods", "requests.cpu", "requests.memory", "limits.cpu", "limits.memory"}
    ensures var q := r.fields;
            && q["requests.cpu"] == q["limits.cpu"] && q["requests.memory"] == q["limits.memory"]
            && q["pods"] == NumJson(QuotaPods(s))
            && q["limits.cpu"].JStr? && q["limits.memory"].JStr?
            && (QuotaCpu(s).Fin? ==> ParseInt(q["limits.cpu"].s) == QuotaCpu(s))
            && (QuotaMemory(s).Fin? ==> ParseInt(q["limits.memory"].s) == QuotaMemory(s))
  {
    var cpu := JStr(Show(QuotaCpu(s)) + "m");
    var memory := JStr(Show(QuotaMemory(s)) + "Mi");
    ShowRoundTrip(QuotaCpu(s), "m");
    ShowRoundTrip(QuotaMemory(s), "Mi");
    JObj(map["pods" := NumJson(QuotaPods(s)),
             "requests.cpu" := cpu, "requests.memory" := memory,
             "limits.cpu" := cpu, "limits.memory" := memory])
  }

  /** The `pgbouncer` block: both pool sizes are the connections per astro unit
      times the astro units in use, rounded down; NaN when the astro units in
      use are. */
  function PgbouncerJson(au: AstroUnit, s: Sizing): (r: Json)
    requires au.cpu > 0
    ensures r.JObj? && r.fields.Keys == {"metadataPoolSize", "maxClientConn"}
    ensures var used := s.total.cpu.Plus(s.extra.cpu);
            && (used.Fin? ==> (r.fields["metadataPoolSize"] == JNum((au.actualConns * used.v) / au.cpu)
                                && r.fields["maxClientConn"] == JNum((au.airflowConns * used.v) / au.cpu)))
            && (used.NaN? ==> r.fields["metadataPoolSize"] == JNaN && r.fields["maxClientConn"] == JNaN)
  {
    var used := s.total.cpu.Plus(s.extra.cpu);
    var p := PoolSize(au.actualConns, s, au.cpu);
    var q := PoolSize(au.airflowConns, s, au.cpu);
    assert used.Fin? ==> p.v == (au.actualConns * used.v) / au.cpu && q.v == (au.airflowConns * used.v) / au.cpu by {
      if used.Fin? {
        FloorUnique(au.actualConns * used.v, au.cpu, p.v);
        FloorUnique(au.airflowConns * used.v, au.cpu, q.v);
      }
    }
    JObj(map["metadataPoolSize" := NumJson(p), "maxClientConn" := NumJson(q)])
  }

  /** `extraAu > 0`. */
  predicate AllowsPodLaunching(extraAu: Json) {
    Positive(ToNumber(extraAu))
  }

  /** `constraints(deployment)`. In a single shared namespace nothing is
      enforced and the block is empty; otherwise it holds the quotas, the
      pgbouncer pool sizes, and `allowPodLaunching` exactly when extra astro
      units were purchased. */
  function Constraints(c: Catalog, d: Deployment): (r: Result<map<string, Json>, ConfigError>)
    requires !c.singleNamespace ==> c.astroUnit.cpu > 0
    ensures c.singleNamespace ==> r == Ok(map[])
    ensures !c.singleNamespace ==> (r.Ok? <==> Size(c, d).Ok?)
    ensures !c.singleNamespace && r.Ok? ==>
              && "quotas" in r.value && "pgbouncer" in r.value
              && r.value["quotas"] == QuotasJson(Size(c, d).value)
              && r.value["pgbouncer"] == PgbouncerJson(c.astroUnit, Size(c, d).value)
              && ("allowPodLaunching" in r.value <==> AllowsPodLaunching(ExtraAu(d)))
              && ("allowPodLaunching" in r.value ==> r.value["allowPodLaunching"] == JBool(true))
    ensures r.Ok? ==> r.value.Keys <= {"quotas", "pgbouncer", "allowPodLaunching"}
  {
    if c.singleNamespace then Ok(map[])
    else
      var s :- Size(c, d);
      Ok(ConstraintsOf(c.astroUnit, s))
  }

  /** The block of a deployment with its own namespace, from its sizing. */
  function ConstraintsOf(au: AstroUnit, s: Sizing): (r: map<string, Json>)
    requires au.cpu > 0
    ensures "quotas" in r && "pgbouncer" in r
    ensures "allowPodLaunching" in r <==> AllowsPodLaunching(s.extraAu)
    ensures r.Keys <= {"quotas", "pgbouncer", "allowPodLaunching"}
  {
    var res := map["quotas" := QuotasJson(s), "pgbouncer" := PgbouncerJson(au, s)];
    if AllowsPodLaunching(s.extraAu) then res["allowPodLaunching" := JBool(true)] else res
  }

  /** The constraints carry no `resources` block, so they keep requests equal
      to limits wherever they are merged. */
  lemma ConstraintsSymmetric(c: Catalog, d: Deployment)
    requires !c.singleNamespace ==> c.astroUnit.cpu > 0
    requires Constraints(c, d).Ok?
    ensures AllSymmetric(Constraints(c, d).value)
  {
    if !c.singleNamespace {
      ConstraintsOfSymmetric(c.astroUnit, Size(c, d).value);
    }
  }

  /** None of the constraint blocks has a `resources` entry. */
  lemma ConstraintsOfSymmetric(au: AstroUnit, s: Sizing)
    requires au.cpu > 0
    ensures AllSymmetric(ConstraintsOf(au, s))
  {
    var r := ConstraintsOf(au, s);
    assert forall k :: k in r ==> !r[k].JObj? || "resources" !in r[k].fields;
  }

  // ---------------------------------------------------------------------
  // The primary fold

  /** A component the primary fold can read: the catalog lists it and its
      limits are not null. */
  predicate Readable(c: Catalog, d: Deployment, name: string) {
    FindComponent(c.components, name).Some?
    && ConfigLimits(d, name) != Some(JNull)
  }

  /** One step of the fold: it succeeds when the fold over the prefix does and
      the last component can be read. */
  lemma TotalStep(c: Catalog, d: Deployment, names: seq<string>)
    requires names != []
    ensures Total(c, d, names).Ok? <==> Total(c, d, names[..|names| - 1]).Ok? && Readable(c, d, names[|names| - 1])
  {
  }

  /** One step of the fold, when it succeeds: the prefix's totals plus the last
      component's contribution. */
  lemma TotalStepOk(c: Catalog, d: Deployment, names: seq<string>)
    requires names != []
    requires Total(c, d, names[..|names| - 1]).Ok? && Contribution(c, d, names[|names| - 1]).Ok?
    ensures Total(c, d, names)
            == Ok(Total(c, d, names[..|names| - 1]).value.Add(Contribution(c, d, names[|names| - 1]).value))
  {
  }

  /** Every component of a successful fold can be read. */
  lemma {:induction false} TotalOkReadable(c: Catalog, d: Deployment, names: seq<string>, i: int)
    requires Total(c, d, names).Ok? && 0 <= i < |names|
    ensures Readable(c, d, names[i])
    decreases |names|
  {
    TotalStep(c, d, names);
    var prefix := names[..|names| - 1];
    if i < |prefix| {
      assert prefix[i] == names[i];
      TotalOkReadable(c, d, prefix, i);
    } else {
      assert i == |names| - 1;
    }
  }

  /** A failed fold has a component it cannot read. */
  lemma {:induction false} TotalErrUnreadable(c: Catalog, d: Deployment, names: seq<string>) returns (i: int)
    requires Total(c, d, names).Err?
    ensures 0 <= i < |names| && !Readable(c, d, names[i])
    decreases |names|
  {
    TotalStep(c, d, names);
    var prefix := names[..|names| - 1];
    if Total(c, d, prefix).Err? {
      i := TotalErrUnreadable(c, d, prefix);
      assert prefix[i] == names[i];
    } else {
      i := |names| - 1;
    }
  }

  /** The fold succeeds exactly when every component can be read. */
  lemma TotalOk(c: Catalog, d: Deployment, names: seq<string>)
    ensures Total(c, d, names).Ok? <==> forall i :: 0 <= i < |names| ==> Readable(c, d, names[i])
  {
    if Total(c, d, names).Ok? {
      forall i | 0 <= i < |names| ensures Readable(c, d, names[i]) {
        TotalOkReadable(c, d, names, i);
      }
    } else {
      var i := TotalErrUnreadable(c, d, names);
    }
  }

  /** Folding over two lists of components one after the other adds their totals. */
  lemma {:induction false} TotalAppend(c: Catalog, d: Deployment, xs: seq<string>, ys: seq<string>)
    ensures Total(c, d, xs + ys).Ok? <==> Total(c, d, xs).Ok? && Total(c, d, ys).Ok?
    ensures Total(c, d, xs + ys).Ok? ==>
              Total(c, d, xs + ys).value == Total(c, d, xs).value.Add(Total(c, d, ys).value)
    decreases |ys|
  {
    if ys == [] {
      assert xs + ys == xs;
    } else {
      var ys' := ys[..|ys| - 1];
      assert (xs + ys)[..|xs + ys| - 1] == xs + ys';
      assert (xs + ys)[|xs + ys| - 1] == ys[|ys| - 1];
      TotalAppend(c, d, xs, ys');
    }
  }

  /** The sum of the default astro units of the named components. */
  function DefaultAuSum(c: Catalog, names: seq<string>): int
    requires forall i :: 0 <= i < |names| ==> FindComponent(c.components, names[i]).Some?
    decreases |names|
  {
    if names == [] then 0
    else DefaultAuSum(c, names[..|names| - 1]) + FindComponent(c.components, names[|names| - 1]).value.au.defaultAu
  }

  /** A component the deployment does not configure counts its default astro
      units once. */
  lemma ContributionOfDefault(c: Catalog, d: Deployment, name: string)
    requires FindComponent(c.components, name).Some? && name !in d.config
    ensures var def := FindComponent(c.components, name).value.au.defaultAu;
            Contribution(c, d, name) == Ok(Totals(Fin(c.astroUnit.cpu * def), Fin(c.astroUnit.memory * def), Fin(1)))
  {
    var au := c.astroUnit;
    var def := FindComponent(c.components, name).value.au.defaultAu;
    assert ConfigLimits(d, name) == None && ConfigReplicas(d, name) == None;
    ParseIntOfFormatted(au.cpu * def, "m");
    ParseIntOfFormatted(au.memory * def, "Mi");
  }

  /** With no deployment overrides, the primary totals are the default astro
      units of the executor's components, one pod each. */
  lemma {:induction false} TotalOfDefaults(c: Catalog, d: Deployment, names: seq<string>)
    requires forall i :: 0 <= i < |names| ==> FindComponent(c.components, names[i]).Some? && names[i] !in d.config
    ensures var sum := DefaultAuSum(c, names);
            Total(c, d, names) == Ok(Totals(Fin(c.astroUnit.cpu * sum), Fin(c.astroUnit.memory * sum), Fin(|names|)))
    decreases |names|
  {
    if names != [] {
      var prefix := names[..|names| - 1];
      var last := names[|names| - 1];
      assert forall i :: 0 <= i < |prefix| ==> prefix[i] == names[i];
      TotalOfDefaults(c, d, prefix);
      ContributionOfDefault(c, d, last);
      TotalStepOk(c, d, names);
      var s := DefaultAuSum(c, prefix);
      var def := FindComponent(c.components, last).value.au.defaultAu;
      var au := c.astroUnit;
      var t := Total(c, d, prefix).value;
      var x := Contribution(c, d, last).value;
      assert t == Totals(Fin(au.cpu * s), Fin(au.memory * s), Fin(|prefix|));
      assert x == Totals(Fin(au.cpu * def), Fin(au.memory * def), Fin(1));
      assert DefaultAuSum(c, names) == s + def;
      AddScaled(au, s, def, |prefix|);
    }
  }

  /** Adding one more default-sized component to default-sized totals. */
  lemma AddScaled(au: AstroUnit, s: int, def: int, n: int)
    ensures Totals(Fin(au.cpu * s), Fin(au.memory * s), Fin(n)).Add(Totals(Fin(au.cpu * def), Fin(au.memory * def), Fin(1)))
            == Totals(Fin(au.cpu * (s + def)), Fin(au.memory * (s + def)), Fin(n + 1))
  {
    assert au.cpu * s + au.cpu * def == au.cpu * (s + def);
    assert au.memory * s + au.memory * def == au.memory * (s + def);
  }

  /** `k` replicas: `config.<c>.replicas` is the number `k`, or it is absent
      and `k` is 1. */
  predicate ReplicaCount(d: Deployment, name: string, k: int) {
    ConfigReplicas(d, name) == Some(JNum(k)) || (ConfigReplicas(d, name).None? && k == 1)
  }

  /** A component whose config sets replicas but no limits is sized by its
      default astro units, once per replica. */
  lemma ContributionOfScaledDefault(c: Catalog, d: Deployment, name: string, k: int)
    requires FindComponent(c.components, name).Some?
    requires ConfigLimits(d, name).None? && ReplicaCount(d, name, k)
    ensures var def := FindComponent(c.components, name).value.au.defaultAu;
            var au := c.astroUnit;
            Contribution(c, d, name) == Ok(Totals(Fin(au.cpu * def * k), Fin(au.memory * def * k), Fin(k)))
  {
    var comp := FindComponent(c.components, name).value;
    var limits := ComponentLimits(c.astroUnit, d, comp);
    assert ParseIntOf(Field(limits, "cpu")) == Fin(c.astroUnit.cpu * comp.au.defaultAu);
    assert ParseIntOf(Field(limits, "memory")) == Fin(c.astroUnit.memory * comp.au.defaultAu);
    assert Replicas(d, name) == Fin(k);
  }

  /** Limits set on the deployment override the defaults: CPU `"<n>m"` and
      memory `"<m>Mi"` with `k` replicas count `n * k`, `m * k` and `k` pods. */
  lemma ContributionOfOverride(c: Catalog, d: Deployment, name: string, n: int, m: int, k: int)
    requires FindComponent(c.components, name).Some?
    requires ConfigLimits(d, name).Some?
    requires Field(ConfigLimits(d, name).value, "cpu") == Some(JStr(IntToString(n) + "m"))
    requires Field(ConfigLimits(d, name).value, "memory") == Some(JStr(IntToString(m) + "Mi"))
    requires ReplicaCount(d, name, k)
    ensures Contribution(c, d, name) == Ok(Totals(Fin(n * k), Fin(m * k), Fin(k)))
  {
    var limits := ConfigLimits(d, name).value;
    assert ComponentLimits(c.astroUnit, d, FindComponent(c.components, name).value) == limits;
    assert Replicas(d, name) == Fin(k);
    ParseIntOfFormatted(n, "m");
    ParseIntOfFormatted(m, "Mi");
  }

  /** Bare numbers as limits are read as they are: `parseInt(n)` is `n`. */
  lemma ContributionOfNumericLimits(c: Catalog, d: Deployment, name: string, n: int, m: int, k: int)
    requires FindComponent(c.components, name).Some?
    requires ConfigLimits(d, name).Some?
    requires Field(ConfigLimits(d, name).value, "cpu") == Some(JNum(n))
    requires Field(ConfigLimits(d, name).value, "memory") == Some(JNum(m))
    requires ReplicaCount(d, name, k)
    ensures Contribution(c, d, name) == Ok(Totals(Fin(n * k), Fin(m * k), Fin(k)))
  {
    var limits := ConfigLimits(d, name).value;
    assert ComponentLimits(c.astroUnit, d, FindComponent(c.components, name).value) == limits;
    assert Replicas(d, name) == Fin(k);
  }

  // ---------------------------------------------------------------------
  // The sidecar fold

  /** Astro units of sidecar overhead per component: two for the scheduler
      under the LocalExecutor (log server and log trimmer), one per worker
      replica, one for pgbouncer's metrics exporter, none otherwise. */
  function SidecarUnits(executor: string, name: string): nat {
    if executor == ExecutorLocal && name == ComponentScheduler then 2
    else if name == ComponentWorkers || name == ComponentPgbouncer then 1
    else 0
  }

  function SidecarUnitsSum(executor: string, names: seq<string>): nat
    decreases |names|
  {
    if names == [] then 0
    else SidecarUnitsSum(executor, names[..|names| - 1]) + SidecarUnits(executor, names[|names| - 1])
  }

  /** How many times `x` occurs in `names`. */
  function Occurrences(names: seq<string>, x: string): (r: nat)
    ensures r <= |names|
    ensures r == 0 <==> x !in names
    decreases |names|
  {
    if names == [] then 0
    else
      assert forall i :: 0 <= i < |names| - 1 ==> names[..|names| - 1][i] == names[i];
      Occurrences(names[..|names| - 1], x) + (if names[|names| - 1] == x then 1 else 0)
  }

  /** The step of the scaled sidecar sum: k worker replicas add k - 1 units
      beyond the unscaled sum for each `workers` entry. */
  lemma ScaledUnits(au: AstroUnit, executor: string, prefix: seq<string>, last: string, replicas: JsNum)
    ensures replicas.Fin? ==>
              var k := replicas.v;
              var up := SidecarUnitsSum(executor, prefix) + (k - 1) * Occurrences(prefix, ComponentWorkers);
              var ul := SidecarUnits(executor, last) + (if last == ComponentWorkers then k - 1 else 0);
              var names := prefix + [last];
              && names[..|names| - 1] == prefix
              && up + ul == SidecarUnitsSum(executor, names) + (k - 1) * Occurrences(names, ComponentWorkers)
              && Overhead(Fin(au.cpu * up), Fin(au.memory * up)).Add(Overhead(Fin(au.cpu * ul), Fin(au.memory * ul)))
                 == Overhead(Fin(au.cpu * (up + ul)), Fin(au.memory * (up + ul)))
  {
    var names := prefix + [last];
    assert names[..|names| - 1] == prefix;
    if replicas.Fin? {
      var k := replicas.v;
      var o := Occurrences(prefix, ComponentWorkers);
      var w := if last == ComponentWorkers then 1 else 0;
      assert Occurrences(names, ComponentWorkers) == o + w;
      assert (k - 1) * o + (k - 1) * w == (k - 1) * (o + w);
      var up := SidecarUnitsSum(executor, prefix) + (k - 1) * o;
      var ul := SidecarUnits(executor, last) + (if last == ComponentWorkers then k - 1 else 0);
      AddScaledOverhead(au, up, ul);
    }
  }

  lemma AddScaledOverhead(au: AstroUnit, s: int, u: int)
    ensures Overhead(Fin(au.cpu * s), Fin(au.memory * s)).Add(Overhead(Fin(au.cpu * u), Fin(au.memory * u)))
            == Overhead(Fin(au.cpu * (s + u)), Fin(au.memory * (s + u)))
  {
    assert au.cpu * s + au.cpu * u == au.cpu * (s + u);
    assert au.memory * s + au.memory * u == au.memory * (s + u);
  }

  /** The sidecar overhead does not depend on the deployment's `config`: in
      particular `config.workers.replicas` does not scale the workers'
      log-trimming sidecars, although it scales the workers' own totals. */
  lemma {:induction false} SidecarsIgnoreConfig(c: Catalog, d: Deployment, cfg: map<string, Json>, executor: string, names: seq<string>)
    ensures Sidecars(c, d, executor, names) == Sidecars(c, d.(config := cfg), executor, names)
    decreases |names|
  {
    if names != [] {
      SidecarsIgnoreConfig(c, d, cfg, executor, names[..|names| - 1]);
    }
  }

  // ---------------------------------------------------------------------
  // Quotas, pool sizes, pod launching

  /** Each quota is twice the primary total plus twice the sidecars plus the
      extra capacity of `au * extraAu`. */
  lemma QuotaFormula(au: AstroUnit, s: Sizing)
    requires s.extra == ExtraCapacity(au, s.extraAu)
    ensures var n := ToNumber(s.extraAu);
            && (s.total.cpu.Fin? && s.sidecars.cpu.Fin? && n.Fin? ==>
                  QuotaCpu(s) == Fin(2 * s.total.cpu.v + 2 * s.sidecars.cpu.v + au.cpu * n.v))
            && (s.total.memory.Fin? && s.sidecars.memory.Fin? && n.Fin? ==>
                  QuotaMemory(s) == Fin(2 * s.total.memory.v + 2 * s.sidecars.memory.v + au.memory * n.v))
            && (s.total.pods.Fin? && n.Fin? ==> QuotaPods(s) == Fin(2 * s.total.pods.v + au.pods * n.v))
            && (n.NaN? ==> QuotaCpu(s).NaN? && QuotaMemory(s).NaN? && QuotaPods(s).NaN?)
  {
  }

  /** Without extra astro units and without sidecars, the CPU quota reads back
      as exactly twice the components' CPU limits times their replicas. */
  lemma SafetyMargin(c: Catalog, d: Deployment)
    requires !c.singleNamespace && c.astroUnit.cpu > 0
    requires Constraints(c, d).Ok?
    requires FindProperty(d.properties, PropertyExtraAu).None?
    requires Size(c, d).value.sidecars.cpu == Fin(0)
    requires Size(c, d).value.total.cpu.Fin?
    ensures ParseInt(Constraints(c, d).value["quotas"].fields["limits.cpu"].s) == Fin(2 * Size(c, d).value.total.cpu.v)
  {
    var s := Size(c, d).value;
    assert s.extraAu == JNum(0) && s.extra == ExtraCapacity(c.astroUnit, s.extraAu);
    CpuQuotaWithoutExtras(c.astroUnit, s);
  }

  /** The CPU quota string of a sizing without extra astro units or sidecars
      reads back as twice the primary total. */
  lemma CpuQuotaWithoutExtras(au: AstroUnit, s: Sizing)
    requires s.extraAu == JNum(0) && s.extra == ExtraCapacity(au, s.extraAu)
    requires s.sidecars.cpu == Fin(0) && s.total.cpu.Fin?
    ensures ParseInt(QuotasJson(s).fields["limits.cpu"].s) == Fin(2 * s.total.cpu.v)
  {
    QuotaFormula(au, s);
  }

  /** The pod-launching flag follows the `extra_au` property: absent without
      it, and for a numeric value present exactly when it is positive. */
  lemma PodLaunching(c: Catalog, d: Deployment)
    requires !c.singleNamespace && c.astroUnit.cpu > 0
    requires Constraints(c, d).Ok?
    ensures FindProperty(d.properties, PropertyExtraAu).None? ==> "allowPodLaunching" !in Constraints(c, d).value
    ensures forall n: int :: ExtraAu(d) == JNum(n) ==> ("allowPodLaunching" in Constraints(c, d).value <==> n > 0)
  {
  }

  /** The catalog of the examples: astro units of 1000 millicores, 4096 MiB and
      5 pods, a one-unit scheduler, and a LocalExecutor that runs only it. */
  function ExampleCatalog(): Catalog {
    Catalog(AstroUnit(1000, 4096, 5, 5, 25), 4,
            [Component(ComponentScheduler, AuSizes(1, 1), [])],
            [Executor(ExecutorLocal, [ComponentScheduler])],
            JObj(map[]), None, "example.com", "platform", false)
  }

  /** A LocalExecutor deployment on the example catalog: the scheduler counts
      one astro unit and its log sidecars two. */
  lemma ExampleSize(d: Deployment)
    requires d.config == map["executor" := JStr(ExecutorLocal)] && d.fields == map[]
    ensures Size(ExampleCatalog(), d).Ok?
    ensures Size(ExampleCatalog(), d).value.total == Totals(Fin(1000), Fin(4096), Fin(1))
    ensures Size(ExampleCatalog(), d).value.sidecars == Overhead(Fin(2000), Fin(8192))
  {
    var c := ExampleCatalog();
    var names := [ComponentScheduler];
    assert ResolveExecutor(c, d) == Ok(c.executors[0]);
    TotalOfDefaults(c, d, names);
    assert DefaultAuSum(c, names) == 1;
    assert SidecarUnitsSum(ExecutorLocal, names) == 2;
  }

  lemma ExampleStrings()
    ensures Show(Fin(6000)) == "6000" && Show(Fin(24576)) == "24576"
  {
    assert NatToString(6000) == "6000" by {
      assert NatToString(6) == "6";
      assert NatToString(60) == "60";
      assert NatToString(600) == "600";
    }
    assert NatToString(24576) == "24576" by {
      assert NatToString(2) == "2";
      assert NatToString(24) == "24";
      assert NatToString(245) == "245";
      assert NatToString(2457) == "2457";
    }
  }

  /** A LocalExecutor deployment of a single one-unit scheduler on astro units
      of 1000 millicores and 4096 MiB: the scheduler counts 1000m, its log
      sidecars 2000m, and doubling gives a CPU quota of "6000m" for 2 pods. */
  lemma LocalSchedulerExample(d: Deployment)
    requires d == Deployment("r", [], map["executor" := JStr(ExecutorLocal)], map[])
    ensures Constraints(ExampleCatalog(), d).Ok?
    ensures Constraints(ExampleCatalog(), d).value["quotas"]
            == JObj(map["pods" := JNum(2),
                        "requests.cpu" := JStr("6000m"), "requests.memory" := JStr("24576Mi"),
                        "limits.cpu" := JStr("6000m"), "limits.memory" := JStr("24576Mi")])
    ensures "allowPodLaunching" !in Constraints(ExampleCatalog(), d).value
  {
    var c := ExampleCatalog();
    ExampleSize(d);
    var s := Size(c, d).value;
    assert s.extra == Totals(Fin(0), Fin(0), Fin(0));
    ExampleQuotas(s);
  }

  lemma ExampleQuotas(s: Sizing)
    requires s.total == Totals(Fin(1000), Fin(4096), Fin(1))
    requires s.sidecars == Overhead(Fin(2000), Fin(8192))
    requires s.extra == Totals(Fin(0), Fin(0), Fin(0))
    ensures QuotasJson(s)
            == JObj(map["pods" := JNum(2),
                        "requests.cpu" := JStr("6000m"), "requests.memory" := JStr("24576Mi"),
                        "limits.cpu" := JStr("6000m"), "limits.memory" := JStr("24576Mi")])
  {
    assert QuotaCpu(s) == Fin(6000);
    assert QuotaMemory(s) == Fin(24576);
    ExampleStrings();
    assert "6000" + "m" == "6000m" && "24576" + "Mi" == "24576Mi";
  }

  /** Two extra astro units of 5 pods each add 10 pods to the quota. */
  lemma ExtraPodsExample(d: Deployment)
    requires d == Deployment("r", [Property(PropertyExtraAu, JNum(2))], map["executor" := JStr(ExecutorLocal)], map[])
    ensures Constraints(ExampleCatalog(), d).Ok?
    ensures Size(ExampleCatalog(), d).value.extra.pods == Fin(10)
    ensures Constraints(ExampleCatalog(), d).value["quotas"].fields["pods"] == JNum(12)
    ensures Constraints(ExampleCatalog(), d).value["allowPodLaunching"] == JBool(true)
  {
    var c := ExampleCatalog();
    ExampleSize(d);
  }

  /** The integer `q` with `q * y <= x < (q + 1) * y` is `x / y`. */
  lemma FloorUnique(x: int, y: int, q: int)
    requires y > 0 && q * y <= x < (q + 1) * y
    ensures q == x / y
  {
    FloorDivision(x, y);
  }
}
