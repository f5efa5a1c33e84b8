/** The static configuration catalog and the deployment record the engine reads.
    The catalog stands for what `config.get(...)` returns in the source; it is
    passed explicitly to every operation. */
module Catalog {
  import opened Json

  /** Names fixed by the platform's constants module. */
  const ExecutorLocal := "LocalExecutor"
  const ExecutorCelery := "CeleryExecutor"
  const ComponentScheduler := "scheduler"
  const ComponentWorkers := "workers"
  const ComponentPgbouncer := "pgbouncer"
  const PropertyExtraAu := "extra_au"
  const PropertyComponentVersion := "component_version"
  const PropertyAlertEmails := "alert_emails"
  const DefaultNextImageTag := "cli-1"

  /** One astro unit: millicores, MiB and pods per unit, and database
      connections per unit. */
  datatype AstroUnit = AstroUnit(cpu: int, memory: int, pods: int, actualConns: int, airflowConns: int)

  /** Which column of a component's sizes to use: `default` or `limit`. */
  datatype AuType = Default | Limit

  /** A component's size in astro units, per column. */
  datatype AuSizes = AuSizes(defaultAu: int, limitAu: int) {
    function Of(t: AuType): int {
      match t
      case Default => defaultAu
      case Limit => limitAu
    }
  }

  /** A named value that a component carries beside its resources. */
  datatype Extra = Extra(name: string, sizes: AuSizes)

  datatype Component = Component(name: string, au: AuSizes, extra: seq<Extra>)

  datatype Executor = Executor(name: string, components: seq<string>)

  datatype Catalog = Catalog(
    astroUnit: AstroUnit,               // deployments.astroUnit
    maxPodAu: int,                      // deployments.maxPodAu
    components: seq<Component>,         // deployments.components
    executors: seq<Executor>,           // deployments.executors
    helmBase: Json,                     // deployments.helm
    searchConnection: Option<Json>,     // deployments.elasticsearch.connection
    baseDomain: string,                 // helm.baseDomain
    releaseName: string,                // helm.releaseName
    singleNamespace: bool)              // helm.singleNamespace

  /** A deployment property, a key/value pair. */
  datatype Property = Property(key: string, value: Json)

  /** A deployment record: its release name, its properties, its `config`
      object, and the remaining top-level fields of the record. */
  datatype Deployment = Deployment(
    releaseName: string,
    properties: seq<Property>,
    config: map<string, Json>,
    fields: map<string, Json>)

  /** The TypeErrors the source throws on a record or catalog it cannot read. */
  datatype ConfigError =
    | ExecutorNotFound(executor: Json)      // no executor of that name: `executorConfig.components` of undefined
    | ComponentNotFound(component: string)  // no component of that name: `component.au` of `{}`
    | NullLimits(component: string)         // `config.<c>.resources.limits` is null and cannot be destructured
    | NullConfigEntry                       // an entry of `config` is null: `val1.resources` of null

  /** lodash `find(executors, ["name", name])`: the first executor of that name. */
  function FindExecutor(executors: seq<Executor>, name: Json): (r: Option<Executor>)
    ensures r.None? <==> forall i :: 0 <= i < |executors| ==> name != JStr(executors[i].name)
    ensures r.Some? ==> exists i :: 0 <= i < |executors| && executors[i] == r.value && name == JStr(r.value.name)
                                    && forall j :: 0 <= j < i ==> name != JStr(executors[j].name)
    decreases |executors|
  {
    if executors == [] then None
    else if name == JStr(executors[0].name) then Some(executors[0])
    else
      var r := FindExecutor(executors[1..], name);
      assert r.Some? ==> exists i :: 1 <= i < |executors| && executors[i] == r.value && name == JStr(r.value.name)
                                      && forall j :: 0 <= j < i ==> name != JStr(executors[j].name) by {
        if r.Some? {
          var i :| 0 <= i < |executors[1..]| && executors[1..][i] == r.value && name == JStr(r.value.name)
                   && forall j :: 0 <= j < i ==> name != JStr(executors[1..][j].name);
          assert executors[i + 1] == r.value;
        }
      }
      r
  }

  /** lodash `find(components, ["name", name])`: the first component of that name. */
  function FindComponent(components: seq<Component>, name: string): (r: Option<Component>)
    ensures r.None? <==> forall i :: 0 <= i < |components| ==> components[i].name != name
    ensures r.Some? ==> exists i :: 0 <= i < |components| && components[i] == r.value && r.value.name == name
                                    && forall j :: 0 <= j < i ==> components[j].name != name
    decreases |components|
  {
    if components == [] then None
    else if components[0].name == name then Some(components[0])
    else
      var r := FindComponent(components[1..], name);
      assert r.Some? ==> exists i :: 1 <= i < |components| && components[i] == r.value && r.value.name == name
                                      && forall j :: 0 <= j < i ==> components[j].name != name by {
        if r.Some? {
          var i :| 0 <= i < |components[1..]| && components[1..][i] == r.value && r.value.name == name
                   && forall j :: 0 <= j < i ==> components[1..][j].name != name;
          assert components[i + 1] == r.value;
        }
      }
      r
  }

  /** lodash `find(properties, ["key", key])`: the first property with that key. */
  function FindProperty(properties: seq<Property>, key: string): (r: Option<Property>)
    ensures r.None? <==> forall i :: 0 <= i < |properties| ==> properties[i].key != key
    ensures r.Some? ==> exists i :: 0 <= i < |properties| && properties[i] == r.value && r.value.key == key
                                    && forall j :: 0 <= j < i ==> properties[j].key != key
    decreases |properties|
  {
    if properties == [] then None
    else if properties[0].key == key then Some(properties[0])
    else
      var r := FindProperty(properties[1..], key);
      assert r.Some? ==> exists i :: 1 <= i < |properties| && properties[i] == r.value && r.value.key == key
                                      && forall j :: 0 <= j < i ==> properties[j].key != key by {
        if r.Some? {
          var i :| 0 <= i < |properties[1..]| && properties[1..][i] == r.value && r.value.key == key
                   && forall j :: 0 <= j < i ==> properties[1..][j].key != key;
          assert properties[i + 1] == r.value;
        }
      }
      r
  }
}
