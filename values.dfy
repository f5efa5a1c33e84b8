/** `generateHelmValues(deployment, values)`: the small records built from the
    platform settings (`ingress`, `registry`, `elasticsearch`) and the deep
    merge of all layers into one Helm values document, lowest precedence first. */
module Values {
  import opened Json
  import opened JsNumbers
  import opened Catalog
  import opened Resources
  import opened DeploymentConstraints
  import opened DeploymentOverrides

  /** `ingress()`: the platform's base domain and the ingress class of its
      release. */
  function Ingress(c: Catalog): (r: map<string, Json>)
    ensures r.Keys == {"ingress"}
    ensures AllSymmetric(r)
    ensures Lookup(JObj(r), ["ingress", "baseDomain"]) == Some(JStr(c.baseDomain))
    ensures Lookup(JObj(r), ["ingress", "class"]) == Some(JStr(c.releaseName + "-nginx"))
  {
    assert ["ingress", "baseDomain"][1..] == ["baseDomain"] && ["ingress", "class"][1..] == ["class"];
    map["ingress" := JObj(map["baseDomain" := JStr(c.baseDomain), "class" := JStr(c.releaseName + "-nginx")])]
  }

  /** `registry(deployment)`: the deployment's connection to the image registry
      of the platform's base domain. */
  function Registry(c: Catalog, d: Deployment): (r: map<string, Json>)
    ensures r.Keys == {"registry"}
    ensures AllSymmetric(r)
    ensures Lookup(JObj(r), ["registry", "connection", "user"]) == Some(JStr(d.releaseName))
    ensures Lookup(JObj(r), ["registry", "connection", "host"]) == Some(JStr("registry." + c.baseDomain))
    ensures Lookup(JObj(r), ["registry", "connection", "email"]) == Some(JStr("admin@" + c.baseDomain))
  {
    assert forall k: string :: ["registry", "connection", k][1..] == ["connection", k]
                                 && ["connection", k][1..] == [k];
    map["registry" := JObj(map["connection" := JObj(map[
      "user" := JStr(d.releaseName),
      "host" := JStr("registry." + c.baseDomain),
      "email" := JStr("admin@" + c.baseDomain)])])]
  }

  /** The search connection is set and truthy. */
  predicate HasSearch(c: Catalog) {
    c.searchConnection.Some? && Truthy(c.searchConnection.value)
  }

  /** `merge({user: releaseName}, connection)`: the configured connection, with
      the release name as the user unless the connection names one. */
  function SearchConnection(conn: Json, releaseName: string): (r: Json)
    ensures r.JObj? && "user" in r.fields
    ensures r.fields.Keys == {"user"} + ObjectFields(conn).Keys
    ensures "user" in ObjectFields(conn) ==> r.fields["user"] == conn.fields["user"]
    ensures "user" !in ObjectFields(conn) ==> r.fields["user"] == JStr(releaseName)
    ensures forall k :: k in ObjectFields(conn) ==> r.fields[k] == conn.fields[k]
  {
    JObj(MergeFields(map["user" := JStr(releaseName)], ObjectFields(conn)))
  }

  /** `elasticsearch(deployment)`: nothing without a search connection;
      otherwise the connection and the workers' persistence switched off, since
      logs are shipped from stdout. */
  function Elasticsearch(c: Catalog, d: Deployment): (r: map<string, Json>)
    ensures !HasSearch(c) ==> r == map[]
    ensures HasSearch(c) ==> r.Keys == {"elasticsearch", "workers"}
    ensures HasSearch(c) ==>
              && Lookup(JObj(r), ["elasticsearch", "connection"])
                 == Some(SearchConnection(c.searchConnection.value, d.releaseName))
              && Lookup(JObj(r), ["workers", "persistence", "enabled"]) == Some(JBool(false))
    ensures AllSymmetric(r)
  {
    if HasSearch(c) then
      map["elasticsearch" := JObj(map["connection" := SearchConnection(c.searchConnection.value, d.releaseName)]),
          "workers" := JObj(map["persistence" := JObj(map["enabled" := JBool(false)])])]
    else map[]
  }

  // ---------------------------------------------------------------------
  // The merge chain

  /** The layers `generateHelmValues` deep-merges, lowest precedence first. A
      layer that is not an object contributes no keys. */
  datatype Layers = Layers(
    base: map<string, Json>,           // `config.get("deployments.helm") || {}`
    values: map<string, Json>,         // the values passed in
    ingress: map<string, Json>,
    defaults: map<string, Json>,       // `defaultResources()`
    limitRange: map<string, Json>,
    constraints: map<string, Json>,
    registry: map<string, Json>,
    elasticsearch: map<string, Json>,
    overrides: map<string, Json>)      // `deploymentOverrides(deployment)`
  {
    /** `merge({}, base, values, ingress(), ..., deploymentOverrides(d))`. */
    function Merged(): (r: map<string, Json>)
      ensures r.Keys == AllKeys()
    {
      MergeFields(MergeFields(MergeFields(MergeFields(MergeFields(MergeFields(MergeFields(MergeFields(MergeFields(
        map[], base), values), ingress), defaults), limitRange), constraints), registry), elasticsearch), overrides)
    }

    /** The keys of all layers together. */
    function AllKeys(): set<string> {
      base.Keys + values.Keys + ingress.Keys + defaults.Keys + limitRange.Keys + constraints.Keys
        + registry.Keys + elasticsearch.Keys + overrides.Keys
    }

    /** Every layer keeps requests equal to limits. */
    predicate Symmetric() {
      AllSymmetric(base) && AllSymmetric(values) && AllSymmetric(ingress) && AllSymmetric(defaults)
      && AllSymmetric(limitRange) && AllSymmetric(constraints) && AllSymmetric(registry)
      && AllSymmetric(elasticsearch) && AllSymmetric(overrides)
    }

    /** No layer above the values passed in touches `path`. */
    predicate AvoidedAboveValues(path: seq<string>) {
      Avoids(JObj(ingress), path) && Avoids(JObj(defaults), path) && Avoids(JObj(limitRange), path)
      && Avoids(JObj(constraints), path) && Avoids(JObj(registry), path)
      && Avoids(JObj(elasticsearch), path) && Avoids(JObj(overrides), path)
    }
  }

  /** The layers of `generateHelmValues`, given the constraints and the
      overrides it computed. */
  function BuildLayers(c: Catalog, d: Deployment, values: Json, cons: map<string, Json>, ov: map<string, Json>)
    : (r: Layers)
    ensures r.overrides == ov && r.values == ObjectFields(values) && r.constraints == cons
    ensures && r.base == ObjectFields(c.helmBase) && r.ingress == Ingress(c)
            && r.defaults == DefaultResources(c, Default, true) && r.limitRange == LimitRange(c)
            && r.registry == Registry(c, d) && r.elasticsearch == Elasticsearch(c, d)
    ensures (AllSymmetric(ObjectFields(c.helmBase)) && AllSymmetric(ObjectFields(values))
             && AllSymmetric(cons) && AllSymmetric(ov)) ==> r.Symmetric()
  {
    assert AllSymmetric(LimitRange(c));
    Layers(ObjectFields(c.helmBase), ObjectFields(values), Ingress(c), DefaultResources(c, Default, true),
           LimitRange(c), cons, Registry(c, d), Elasticsearch(c, d), ov)
  }

  /** `generateHelmValues(deployment, values)`. It fails when `constraints`
      fails and, after that, when `deploymentOverrides` does. */
  function GenerateHelmValues(c: Catalog, d: Deployment, values: Json): (r: Result<Json, ConfigError>)
    requires !c.singleNamespace ==> c.astroUnit.cpu > 0
    ensures r.Ok? <==> Constraints(c, d).Ok? && Overrides(d.config).Ok?
    ensures Constraints(c, d).Err? ==> r == Err(Constraints(c, d).error)
    ensures Constraints(c, d).Ok? && Overrides(d.config).Err? ==> r == Err(NullConfigEntry)
    ensures r.Ok? ==> r.value == JObj(BuildLayers(c, d, values, Constraints(c, d).value, Overrides(d.config).value).Merged())
  {
    var cons :- Constraints(c, d);
    var ov :- Overrides(d.config);
    Ok(JObj(BuildLayers(c, d, values, cons, ov).Merged()))
  }

  /** The layers of a successful call. */
  function HelmLayers(c: Catalog, d: Deployment, values: Json): Layers
    requires !c.singleNamespace ==> c.astroUnit.cpu > 0
    requires GenerateHelmValues(c, d, values).Ok?
  {
    BuildLayers(c, d, values, Constraints(c, d).value, Overrides(d.config).value)
  }

  // ---------------------------------------------------------------------
  // Properties of the merge chain

  /** A leaf the later object sets is in the merge of two objects. */
  lemma FieldsLeafWins(a: map<string, Json>, b: map<string, Json>, path: seq<string>, v: Json)
    requires Lookup(JObj(b), path) == Some(v) && IsLeaf(v)
    ensures Lookup(JObj(MergeFields(a, b)), path) == Some(v)
  {
    MergeLeafWins(JObj(a), JObj(b), path, v);
  }

  /** A value of the earlier object survives where the later one does not touch it. */
  lemma FieldsKeepUntouched(a: map<string, Json>, b: map<string, Json>, path: seq<string>, v: Json)
    requires Lookup(JObj(a), path) == Some(v) && Avoids(JObj(b), path)
    ensures Lookup(JObj(MergeFields(a, b)), path) == Some(v)
  {
    MergeKeepsUntouched(JObj(a), JObj(b), path, v);
  }

  /** Merging layers that each keep requests equal to limits keeps them equal. */
  lemma LayersSymmetric(ls: Layers)
    requires ls.Symmetric()
    ensures AllSymmetric(ls.Merged())
  {
    var m := MergeFields(map[], ls.base);
    MergeFieldsKeepsSymmetric(map[], ls.base);
    MergeFieldsKeepsSymmetric(m, ls.values);
    m := MergeFields(m, ls.values);
    MergeFieldsKeepsSymmetric(m, ls.ingress);
    m := MergeFields(m, ls.ingress);
    MergeFieldsKeepsSymmetric(m, ls.defaults);
    m := MergeFields(m, ls.defaults);
    MergeFieldsKeepsSymmetric(m, ls.limitRange);
    m := MergeFields(m, ls.limitRange);
    MergeFieldsKeepsSymmetric(m, ls.constraints);
    m := MergeFields(m, ls.constraints);
    MergeFieldsKeepsSymmetric(m, ls.registry);
    m := MergeFields(m, ls.registry);
    MergeFieldsKeepsSymmetric(m, ls.elasticsearch);
    m := MergeFields(m, ls.elasticsearch);
    MergeFieldsKeepsSymmetric(m, ls.overrides);
  }

  /** The overrides come last: every leaf they set is in the merge. */
  lemma OverridesWin(ls: Layers, path: seq<string>, v: Json)
    requires Lookup(JObj(ls.overrides), path) == Some(v) && IsLeaf(v)
    ensures Lookup(JObj(ls.Merged()), path) == Some(v)
  {
    var below := MergeFields(MergeFields(MergeFields(MergeFields(MergeFields(MergeFields(MergeFields(MergeFields(
      map[], ls.base), ls.values), ls.ingress), ls.defaults), ls.limitRange), ls.constraints), ls.registry), ls.elasticsearch);
    FieldsLeafWins(below, ls.overrides, path, v);
  }

  /** A leaf of the values passed in survives when no later layer touches its
      path. */
  lemma ValuesWin(ls: Layers, path: seq<string>, v: Json)
    requires Lookup(JObj(ls.values), path) == Some(v) && IsLeaf(v)
    requires ls.AvoidedAboveValues(path)
    ensures Lookup(JObj(ls.Merged()), path) == Some(v)
  {
    var m := MergeFields(map[], ls.base);
    FieldsLeafWins(m, ls.values, path, v);
    m := MergeFields(m, ls.values);
    FieldsKeepUntouched(m, ls.ingress, path, v);
    m := MergeFields(m, ls.ingress);
    FieldsKeepUntouched(m, ls.defaults, path, v);
    m := MergeFields(m, ls.defaults);
    FieldsKeepUntouched(m, ls.limitRange, path, v);
    m := MergeFields(m, ls.limitRange);
    FieldsKeepUntouched(m, ls.constraints, path, v);
    m := MergeFields(m, ls.constraints);
    FieldsKeepUntouched(m, ls.registry, path, v);
    m := MergeFields(m, ls.registry);
    FieldsKeepUntouched(m, ls.elasticsearch, path, v);
    m := MergeFields(m, ls.elasticsearch);
    FieldsKeepUntouched(m, ls.overrides, path, v);
  }

  /** The document's keys are those of all layers together; in particular every
      catalog component and every entry of the deployment's config has one. */
  lemma HelmKeys(c: Catalog, d: Deployment, values: Json)
    requires !c.singleNamespace ==> c.astroUnit.cpu > 0
    requires GenerateHelmValues(c, d, values).Ok?
    ensures GenerateHelmValues(c, d, values).value.fields.Keys
            == ObjectFields(c.helmBase).Keys + ObjectFields(values).Keys + {"ingress"}
               + ComponentNames(c.components) + LimitRange(c).Keys + Constraints(c, d).value.Keys
               + {"registry"} + Elasticsearch(c, d).Keys + d.config.Keys
  {
    var ls := HelmLayers(c, d, values);
    assert ls.Merged().Keys == ls.AllKeys();
  }

  /** Requests equal limits for every entry of the document, provided the base
      settings and the values passed in keep them equal. */
  lemma HelmSymmetric(c: Catalog, d: Deployment, values: Json)
    requires !c.singleNamespace ==> c.astroUnit.cpu > 0
    requires GenerateHelmValues(c, d, values).Ok?
    requires AllSymmetric(ObjectFields(c.helmBase)) && AllSymmetric(ObjectFields(values))
    ensures AllSymmetric(GenerateHelmValues(c, d, values).value.fields)
  {
    OverridesSymmetric(d.config);
    ConstraintsSymmetric(c, d);
    assert AllSymmetric(LimitRange(c));
    LayersSymmetric(HelmLayers(c, d, values));
  }

  /** In a single shared namespace the document has no quotas, pool sizes,
      pod-launching flag or limit range, unless a layer the engine does not
      compute (the base settings, the values passed in, the catalog or the
      deployment's config) brings those keys itself. */
  lemma SingleNamespace(c: Catalog, d: Deployment, values: Json, k: string)
    requires c.singleNamespace
    requires k in {"quotas", "pgbouncer", "allowPodLaunching", "limits"}
    requires GenerateHelmValues(c, d, values).Ok?
    requires k !in ObjectFields(c.helmBase) && k !in ObjectFields(values)
    requires k !in ComponentNames(c.components) && k !in d.config
    ensures k !in GenerateHelmValues(c, d, values).value.fields
  {
    EngineKeys(c, d, k);
    assert Constraints(c, d).value == map[];
    HelmKeys(c, d, values);
  }

  /** The keys the engine keeps for a namespace of its own are none of those
      of the ingress, registry and elasticsearch layers. */
  lemma EngineKeys(c: Catalog, d: Deployment, k: string)
    requires k in {"quotas", "pgbouncer", "allowPodLaunching", "limits"}
    ensures k !in Ingress(c) && k !in Registry(c, d) && k !in Elasticsearch(c, d)
  {
    assert |k| == 6 || |k| == 9 || |k| == 17;
  }

  /** With a namespace per deployment, the document always has quotas, pool
      sizes and a limit range. */
  lemma OwnNamespace(c: Catalog, d: Deployment, values: Json)
    requires !c.singleNamespace && c.astroUnit.cpu > 0
    requires GenerateHelmValues(c, d, values).Ok?
    ensures var keys := GenerateHelmValues(c, d, values).value.fields.Keys;
            "quotas" in keys && "pgbouncer" in keys && "limits" in keys
  {
    HelmKeys(c, d, values);
  }

  /** The deployment's overrides come last: every leaf they set is in the
      document. */
  lemma OverridesReachDocument(c: Catalog, d: Deployment, values: Json, path: seq<string>, v: Json)
    requires !c.singleNamespace ==> c.astroUnit.cpu > 0
    requires GenerateHelmValues(c, d, values).Ok?
    requires Lookup(JObj(Overrides(d.config).value), path) == Some(v) && IsLeaf(v)
    ensures Lookup(GenerateHelmValues(c, d, values).value, path) == Some(v)
  {
    OverridesWin(HelmLayers(c, d, values), path, v);
  }

  /** A numeric CPU limit in the deployment's config ends up, with its unit,
      as both the limit and the request of that component in the document. */
  lemma OverrideCpuInDocument(c: Catalog, d: Deployment, values: Json, name: string, n: int)
    requires !c.singleNamespace ==> c.astroUnit.cpu > 0
    requires GenerateHelmValues(c, d, values).Ok?
    requires name in d.config && HasResources(d.config[name])
    requires Get(Get(Get(Some(d.config[name]), "resources"), "limits"), "cpu") == Some(JNum(n))
    ensures Lookup(GenerateHelmValues(c, d, values).value, [name, "resources", "limits", "cpu"])
            == Some(JStr(IntToString(n) + "m"))
    ensures Lookup(GenerateHelmValues(c, d, values).value, [name, "resources", "requests", "cpu"])
            == Some(JStr(IntToString(n) + "m"))
  {
    OverridesCpu(d.config, name, n);
    OverridesReachDocument(c, d, values, [name, "resources", "limits", "cpu"], JStr(IntToString(n) + "m"));
    OverridesReachDocument(c, d, values, [name, "resources", "requests", "cpu"], JStr(IntToString(n) + "m"));
  }

  /** A leaf of the values passed in survives unless a later layer touches its
      path. */
  lemma ValuesSurvive(c: Catalog, d: Deployment, values: Json, path: seq<string>, v: Json)
    requires !c.singleNamespace ==> c.astroUnit.cpu > 0
    requires GenerateHelmValues(c, d, values).Ok?
    requires Lookup(JObj(ObjectFields(values)), path) == Some(v) && IsLeaf(v)
    requires HelmLayers(c, d, values).AvoidedAboveValues(path)
    ensures Lookup(GenerateHelmValues(c, d, values).value, path) == Some(v)
  {
    ValuesWin(HelmLayers(c, d, values), path, v);
  }
}
