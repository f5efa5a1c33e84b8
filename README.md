# Deployment configuration engine of houston-api, in Dafny

This project models the engine that houston-api uses to turn a deployment
record and the platform's static settings into the values document of an
Airflow deployment's Helm chart (`src/lib/deployments/config/index.js`). It
also models the helpers in the same file that reshape deployment data and
name image tags. The source is pure. It is modelled as datatypes, functions
and lemmas, one module per concern:

- `Json` (json.dfy): JavaScript values and lodash's `get` and `merge`.
- `JsNumbers` (numbers.dfy): NaN-aware integer arithmetic, template-literal
  formatting, `parseInt`, and the `Number()` coercion.
- `Catalog` (catalog.dfy): the platform settings that `config.get` reads
  (astro unit, components, executors, Helm base values, search connection,
  base domain, release name, single-namespace switch), the deployment record,
  the lodash `find` lookups, and the errors the source throws.
- `Resources` (resources.dfy): `auToResources`, `mapResources`,
  `defaultResources` and `limitRange`, and the invariant that requests equal
  limits.
- `DeploymentConstraints` (constraints.dfy): `constraints`, meaning its two
  folds, the quotas, the pgbouncer pool sizes and the pod-launching flag.
- `DeploymentOverrides` (overrides.dfy): `deploymentOverrides`.
- `Values` (values.dfy): `ingress`, `registry`, `elasticsearch` and the merge
  chain of `generateHelmValues`.
- `Environment` (env.dfy): `envArrayToObject`, `envObjectToArray`, and
  `mapDeploymentToProperties` with its inverse.
- `ImageTags` (tags.dfy): `findLatestTag` and `generateNextTag`.

The settings come in as a `Catalog` parameter. The source reads each
setting with `config.get`. Its TypeErrors become `Err` results of type
`ConfigError`:

- an executor the catalog does not list;
- a component the catalog does not list;
- `null` limits in the deployment's config;
- a `null` entry in the deployment's config.

The source constants come from `src/constants`, which is not part of this
model. They are written out in `Catalog` with these values:

- the executors `LocalExecutor` and `CeleryExecutor`;
- the components `scheduler`, `workers` and `pgbouncer`;
- the properties `extra_au`, `component_version` and `alert_emails`;
- the default tag `cli-1`.

## Model

| member | source | states |
|---|---|---|
| Json.Field | src/lib/deployments/config/index.js:137-141 | a property access finds a value exactly when the value is an object with that key |
| Json.Get | src/lib/deployments/config/index.js:137-144 | a property access on `undefined` is `undefined` |
| Json.Lookup | src/lib/deployments/config/index.js:137-144 | `get` on the empty path is the value itself, on one key it is a property access, and a value found on a longer path means the first key is a key of an object |
| Json.LookupGet | src/lib/deployments/config/index.js:137-141 | `get` on a longer path is one more property access on the shorter path's result |
| Json.MergeFields | src/lib/deployments/config/index.js:40-52 | merging two objects gives the union of their keys; a key in both is deep-merged, and a key in one keeps that one's value |
| Json.Merge | src/lib/deployments/config/index.js:40-52 | a source value that is neither an object merged onto an object nor an array merged onto an array replaces the destination; two objects merge over the union of their keys, keeping the keys only the destination has; two arrays merge over the longer length, keeping the tail only the destination has |
| Json.MergeFieldsLeft | src/lib/deployments/config/index.js:40-52 | a key only the earlier object has keeps its value |
| Json.MergeFieldsRight | src/lib/deployments/config/index.js:40-52 | a key only the later object has takes its value |
| Json.ObjectFields | src/lib/deployments/config/index.js:37 | a source that is not an object contributes no keys to a merge |
| Json.MergeSelf | src/lib/deployments/config/index.js:40-52 | merging a value onto itself changes nothing |
| Json.MergeIdempotent | src/lib/deployments/config/index.js:40-52 | merging the same layer twice gives the result of merging it once |
| Json.MergeLeafWins | src/lib/deployments/config/index.js:40-52 | every leaf a later layer sets appears at its path in the merge |
| Json.MergeKeepsUntouched | src/lib/deployments/config/index.js:40-52 | a value survives the merge at a path the later layer does not touch |
| JsNumbers.NatToStringDigits | src/lib/deployments/config/index.js:347 | the decimal form of a natural number is a non-empty run of digits |
| JsNumbers.DigitsRoundTrip | src/lib/deployments/config/index.js:148-149 | reading back the digits of a formatted natural number gives the number |
| JsNumbers.ParseIntRoundTrip | src/lib/deployments/config/index.js:148-149 | `parseInt` of a formatted integer followed by a non-digit suffix such as `m` or `Mi` is that integer |
| JsNumbers.ParseNatural | src/lib/deployments/config/index.js:148-149 | the same for a natural number |
| JsNumbers.ParseNegative | src/lib/deployments/config/index.js:148-149 | the same for a negative number written with a minus sign |
| JsNumbers.ParseInt | src/lib/deployments/config/index.js:148-149 | `parseInt` yields a number only when the string holds a digit |
| JsNumbers.ParseIntFinite | src/lib/deployments/config/index.js:148-149 | `parseInt` yields a number exactly when a digit follows the leading blanks and the optional sign, and the number carries that sign |
| JsNumbers.ShowRoundTrip | src/lib/deployments/config/index.js:204-205 | the template string of a finite number, followed by a suffix that does not start with a digit, reads back as the number |
| JsNumbers.ParseIntOf | src/lib/deployments/config/index.js:148-149 | `parseInt` of a number is that number; `parseInt` of `undefined` is NaN |
| JsNumbers.ParseIntOfNumber | src/lib/deployments/config/index.js:148-149 | `parseInt` of a number reads the number's decimal string |
| JsNumbers.ParseIntOfFormatted | src/lib/deployments/config/index.js:148-149 | `parseInt` of a unit-suffixed amount string is the amount |
| JsNumbers.ToNumber | src/lib/deployments/config/index.js:195-197 | the `Number()` coercion of `*` keeps numbers and turns `null` into 0 |
| JsNumbers.StringToNumber | src/lib/deployments/config/index.js:195-197 | `Number()` of a blank string is 0, and where it yields a number for a non-blank string that number is what `parseInt` reads |
| JsNumbers.StringToNumberRoundTrip | src/lib/deployments/config/index.js:195-197 | `Number()` of a formatted integer string is that integer |
| JsNumbers.NumberOfNatural | src/lib/deployments/config/index.js:195-197 | the same for a natural number |
| JsNumbers.NumberOfNegative | src/lib/deployments/config/index.js:195-197 | the same for a negative number |
| JsNumbers.JsNum.Plus | src/lib/deployments/config/index.js:148-150 | a sum is finite exactly when both operands are |
| JsNumbers.JsNum.Times | src/lib/deployments/config/index.js:148-150 | a product is finite exactly when both operands are |
| Catalog.FindExecutor | src/lib/deployments/config/index.js:126 | the executor found has the requested name and is in the list; none is found exactly when no executor has that name |
| Catalog.FindComponent | src/lib/deployments/config/index.js:132 | the component found has the requested name and is in the list; none is found exactly when no component has that name |
| Catalog.FindProperty | src/lib/deployments/config/index.js:187-190 | the property found has the requested key and is in the list; none is found exactly when no property has that key |
| Resources.AuToResources | src/lib/deployments/config/index.js:345-350 | CPU and memory read back as `au.cpu * size` and `au.memory * size`; they are strings exactly when units are asked for |
| Resources.AuToResourcesUnits | src/lib/deployments/config/index.js:347 | with units, the CPU string ends in `m` and the memory string in `Mi` |
| Resources.AuToResourcesZero | src/lib/deployments/config/index.js:345-350 | size 0 gives `"0m"` and `"0Mi"`, or 0 and 0 without units |
| Resources.AuToResourcesLinear | src/lib/deployments/config/index.js:345-350 | the amounts of a sum of sizes are the sums of the amounts |
| Resources.MergeKeepsSymmetric | src/lib/deployments/config/index.js:40-52 | merging two component values whose requests equal their limits keeps requests equal to limits |
| Resources.MergeFieldsKeepsSymmetric | src/lib/deployments/config/index.js:40-52 | the same for whole documents |
| Resources.ExtraNames | src/lib/deployments/config/index.js:326-332 | the names of a component's extras |
| Resources.MergeExtras | src/lib/deployments/config/index.js:334 | merging the extras adds exactly their names as keys |
| Resources.LastExtra | src/lib/deployments/config/index.js:334 | the last extra of a name has that name, and no later extra does |
| Resources.MergeExtrasLastWins | src/lib/deployments/config/index.js:326-334 | each extra's key holds that extra's size in the chosen column; of two extras with one name, the later wins |
| Resources.MergeExtrasKeeps | src/lib/deployments/config/index.js:334 | a key no extra names keeps its value |
| Resources.MapResources | src/lib/deployments/config/index.js:318-337 | one key, the component's name; under it `resources` plus one key per extra; `resources` has requests and limits both equal to `auToResources` of the chosen column; requests equal limits |
| Resources.MapResourcesExtra | src/lib/deployments/config/index.js:326-336 | each extra contributes its name with its size in the chosen column |
| Resources.ComponentNames | src/lib/deployments/config/index.js:244-246 | the names of the catalog's components |
| Resources.MergeComponents | src/lib/deployments/config/index.js:246 | the merged blocks have one key per component name |
| Resources.MergeComponentsSymmetric | src/lib/deployments/config/index.js:242-247 | the merged defaults keep requests equal to limits, even for repeated names |
| Resources.MergeComponentsDistinct | src/lib/deployments/config/index.js:242-247 | with distinct names, each component's entry is exactly its `mapResources` block |
| Resources.DistinctPrefix | src/lib/deployments/config/index.js:246 | distinct names stay distinct in a prefix of the components |
| Resources.DefaultResources | src/lib/deployments/config/index.js:242-247 | one key per catalog component, and requests equal limits throughout |
| Resources.PodLimit | src/lib/deployments/config/index.js:89-92 | the Pod entry has type `Pod` and the given maximum |
| Resources.ContainerLimit | src/lib/deployments/config/index.js:94-99 | the Container entry has type `Container`; its default, default request and minimum are the same amount |
| Resources.LimitRange | src/lib/deployments/config/index.js:80-104 | empty in a single namespace; otherwise a Pod bound of `maxPodAu` units and a Container bound of one unit |
| Resources.LimitRangeAmounts | src/lib/deployments/config/index.js:86-99 | the Pod bound reads back as `maxPodAu` astro units of CPU and memory, and the Container minimum as one astro unit |
| DeploymentConstraints.DefaultConfigExecutor | src/lib/deployments/config/index.js:442-444 | a new deployment's default config names the executor that a deployment without config falls back to, the CeleryExecutor |
| DeploymentConstraints.DefaultDeploymentConfig | src/lib/deployments/config/index.js:442-444 | a new deployment's config sets the executor and nothing else, and the executor is the CeleryExecutor |
| DeploymentConstraints.ExecutorName | src/lib/deployments/config/index.js:123 | the executor named in the deployment's config, read with `get`; the CeleryExecutor when the config names none |
| DeploymentConstraints.ResolveExecutor | src/lib/deployments/config/index.js:123-126 | the executor found is in the catalog under the deployment's executor name; the call fails exactly when no executor has that name |
| DeploymentConstraints.Contribution | src/lib/deployments/config/index.js:130-152 | one component's step fails exactly when the catalog lacks the component or its limits are `null` |
| DeploymentConstraints.ComponentLimits | src/lib/deployments/config/index.js:133-141 | the configured limits when the deployment's config has them; otherwise limits whose CPU and memory read back as the component's default astro units |
| DeploymentConstraints.Replicas | src/lib/deployments/config/index.js:144 | 1 when the deployment's config sets no replicas, and the number itself when it sets a number |
| DeploymentConstraints.Total | src/lib/deployments/config/index.js:129-154 | a failed fold reports the error of one of the executor's components; when it succeeds see TotalOk and TotalAppend |
| DeploymentConstraints.Size | src/lib/deployments/config/index.js:120-198 | succeeds exactly when the executor is known and every one of its components can be read; an unknown executor is its error; on success it holds both folds over the executor's components and the extra capacity, which is zero without an `extra_au` property and the astro unit times `extraAu` when that is a number |
| DeploymentConstraints.PoolSize | src/lib/deployments/config/index.js:201-227 | the pool size is `conns * (total.cpu + extra.cpu) / au.cpu` rounded down, and NaN when the CPU in use is NaN |
| DeploymentConstraints.Constraints | src/lib/deployments/config/index.js:112-234 | empty in a single namespace; otherwise it fails exactly when the sizing does, its `quotas` and `pgbouncer` blocks are those of the sizing, it holds `allowPodLaunching: true` exactly when `extraAu > 0`, and it has no other keys |
| DeploymentConstraints.ConstraintsOf | src/lib/deployments/config/index.js:207-233 | quotas and pool sizes are always present; the pod-launching flag is present exactly when `extraAu > 0`; no other key is |
| DeploymentConstraints.ConstraintsSymmetric | src/lib/deployments/config/index.js:112-234 | the constraints carry no `resources` block, so they keep requests equal to limits |
| DeploymentConstraints.ConstraintsOfSymmetric | src/lib/deployments/config/index.js:207-233 | the same for the blocks of a given sizing |
| DeploymentConstraints.TotalStep | src/lib/deployments/config/index.js:129-154 | one step of the primary fold succeeds when the prefix's fold does and the last component can be read |
| DeploymentConstraints.TotalStepOk | src/lib/deployments/config/index.js:129-154 | one successful step adds the last component's contribution to the prefix's totals |
| DeploymentConstraints.TotalOkReadable | src/lib/deployments/config/index.js:129-154 | every component of a successful fold can be read |
| DeploymentConstraints.TotalErrUnreadable | src/lib/deployments/config/index.js:129-154 | a failed fold has a component that cannot be read |
| DeploymentConstraints.TotalOk | src/lib/deployments/config/index.js:129-154 | the primary fold succeeds exactly when every component of the executor can be read |
| DeploymentConstraints.TotalAppend | src/lib/deployments/config/index.js:129-154 | folding over two lists of components in turn adds their totals |
| DeploymentConstraints.ContributionOfDefault | src/lib/deployments/config/index.js:132-148 | a component the deployment does not configure counts its default astro units once, as one pod |
| DeploymentConstraints.ContributionOfScaledDefault | src/lib/deployments/config/index.js:132-151 | a component whose config sets `k` replicas but no limits counts its default astro units `k` times, as `k` pods |
| DeploymentConstraints.TotalOfDefaults | src/lib/deployments/config/index.js:129-154 | with no deployment config, the totals are the astro unit times the sum of the default sizes, one pod per component |
| DeploymentConstraints.AddScaled | src/lib/deployments/config/index.js:148-150 | adding a default-sized contribution to default-sized totals adds the sizes |
| DeploymentConstraints.ContributionOfOverride | src/lib/deployments/config/index.js:137-151 | configured limits `"<n>m"` and `"<m>Mi"` with `k` replicas, or with no replicas and `k` = 1, add `n*k`, `m*k` and `k` pods |
| DeploymentConstraints.ContributionOfNumericLimits | src/lib/deployments/config/index.js:137-151 | configured limits given as bare numbers `n` and `m` with `k` replicas add `n*k`, `m*k` and `k` pods |
| DeploymentConstraints.SidecarOf | src/lib/deployments/config/index.js:156-184 | the overhead of one component is the astro unit times its sidecar units: 2 for the LocalExecutor's scheduler, 1 for pgbouncer, 0 otherwise, and for workers the top-level replica count k (1 when absent); a non-numeric count makes the workers' overhead NaN |
| DeploymentConstraints.SidecarOfWorkers | src/lib/deployments/config/index.js:158-173 | a numeric top-level `workers.replicas` of k makes the workers' sidecar overhead k astro units |
| DeploymentConstraints.Sidecars | src/lib/deployments/config/index.js:156-184 | the sidecar overhead is the astro unit times the summed sidecar units, each `workers` entry counting the top-level replica count k instead of 1; NaN throughout when that count is not a number and workers are present |
| DeploymentConstraints.ExtraAu | src/lib/deployments/config/index.js:187-191 | the value of the first `extra_au` property, and 0 when there is none |
| DeploymentConstraints.ExtraCapacity | src/lib/deployments/config/index.js:194-198 | the astro unit's CPU, memory and pods times `extraAu` when it is a number; NaN throughout otherwise |
| DeploymentConstraints.AddScaledOverhead | src/lib/deployments/config/index.js:164-179 | adding scaled overheads adds the units |
| DeploymentConstraints.SidecarsIgnoreConfig | src/lib/deployments/config/index.js:158 | the sidecar fold does not depend on the deployment's `config`; it reads replicas at the record's top level |
| DeploymentConstraints.QuotaFormula | src/lib/deployments/config/index.js:194-209 | cpu is `2*total + 2*sidecars + au.cpu*extraAu`, memory likewise, pods `2*total + au.pods*extraAu`; all three are NaN when `extraAu` is not a number |
| DeploymentConstraints.QuotasJson | src/lib/deployments/config/index.js:204-215 | the quotas have exactly five keys, requests equal limits, pods is the pod quota, and the CPU and memory strings read back as the quota numbers |
| DeploymentConstraints.PgbouncerJson | src/lib/deployments/config/index.js:217-227 | both pool sizes are the connections per unit times the CPU in use over `au.cpu`, rounded down; both are NaN when the CPU in use is NaN |
| DeploymentConstraints.SafetyMargin | src/lib/deployments/config/index.js:187-212 | without extra astro units and sidecars, the CPU quota reads back as exactly twice the components' CPU |
| DeploymentConstraints.CpuQuotaWithoutExtras | src/lib/deployments/config/index.js:204-212 | the same for a given sizing |
| DeploymentConstraints.PodLaunching | src/lib/deployments/config/index.js:187-230 | no `extra_au` property means no pod-launching flag; a numeric `extraAu` sets it exactly when positive |
| DeploymentConstraints.ExampleSize | src/lib/deployments/config/index.js:129-184 | a single one-unit scheduler under the LocalExecutor counts one unit, and its log sidecars two |
| DeploymentConstraints.ExampleStrings | src/lib/deployments/config/index.js:204-205 | 6000 and 24576 format as `"6000"` and `"24576"` |
| DeploymentConstraints.LocalSchedulerExample | src/lib/deployments/config/index.js:112-234 | that deployment gets quotas of `"6000m"`, `"24576Mi"` and 2 pods, and no pod launching |
| DeploymentConstraints.ExampleQuotas | src/lib/deployments/config/index.js:204-215 | the quotas object for those totals |
| DeploymentConstraints.ExtraPodsExample | src/lib/deployments/config/index.js:187-230 | two extra astro units of 5 pods add 10 pods to the quota and allow pod launching |
| DeploymentConstraints.FloorUnique | src/lib/deployments/config/index.js:221 | the rounded-down quotient is the only integer between the bounds |
| DeploymentOverrides.NormalizeLeaf | src/lib/deployments/config/index.js:465-469 | `cpu` and `memory` leaves are never bare numbers afterwards; every other leaf, and every non-number, is unchanged |
| DeploymentOverrides.WithUnit | src/lib/deployments/config/index.js:467-468 | the template string of a number ends in its unit; for an integer, and a unit that does not start with a digit, `parseInt` reads the integer back; NaN gives `NaN<unit>` |
| DeploymentOverrides.NormalizeGroup | src/lib/deployments/config/index.js:464-470 | a group keeps its keys, has its amounts wrapped, and keeps every other leaf |
| DeploymentOverrides.NormalizeResources | src/lib/deployments/config/index.js:464-471 | the block keeps its keys, and every group becomes an object with wrapped amounts |
| DeploymentOverrides.Symmetrize | src/lib/deployments/config/index.js:477-481 | only `requests` and `limits` may change; every other key keeps its value |
| DeploymentOverrides.NormalizeComponent | src/lib/deployments/config/index.js:459-488 | an entry without truthy resources is returned as it is; otherwise only its resources change, to the normalised block |
| DeploymentOverrides.Overrides | src/lib/deployments/config/index.js:453-490 | the call fails exactly when a config entry is `null`; otherwise each entry keeps its key and is normalised |
| DeploymentOverrides.NormalizeLeafReadsBack | src/lib/deployments/config/index.js:467-468 | a numeric `cpu` becomes a string ending in `m`, a numeric `memory` one ending in `Mi`, and `parseInt` reads the number back |
| DeploymentOverrides.ComponentSymmetric | src/lib/deployments/config/index.js:477-481 | a normalised entry keeps requests equal to limits |
| DeploymentOverrides.SymmetrizeObjects | src/lib/deployments/config/index.js:477-481 | when every group is an object, requests and limits end up both present and equal, or both absent |
| DeploymentOverrides.OverridesSymmetric | src/lib/deployments/config/index.js:453-490 | every entry of the overrides keeps requests equal to limits |
| DeploymentOverrides.BlockLimitsWin | src/lib/deployments/config/index.js:477-478 | when limits are present, requests and limits both become the normalised limits |
| DeploymentOverrides.BlockRequestsFallback | src/lib/deployments/config/index.js:479-480 | without limits, the requests are copied to the limits |
| DeploymentOverrides.OverridesBlock | src/lib/deployments/config/index.js:459-485 | a selected entry's resources in the overrides are its normalised block |
| DeploymentOverrides.LimitsWin | src/lib/deployments/config/index.js:459-485 | in the overrides, an entry's requests and limits are both its normalised limits |
| DeploymentOverrides.OverridesCpu | src/lib/deployments/config/index.js:459-485 | a numeric CPU limit `n` ends up as `"<n>m"` in both the limits and the requests |
| DeploymentOverrides.BlockWrapped | src/lib/deployments/config/index.js:464-481 | every group of a normalised block has its amounts wrapped |
| DeploymentOverrides.GroupIdempotent | src/lib/deployments/config/index.js:464-470 | normalising a group twice changes nothing |
| DeploymentOverrides.ResourcesNormal | src/lib/deployments/config/index.js:464-471 | the groups of a normalised block are normalised |
| DeploymentOverrides.ResourcesFixed | src/lib/deployments/config/index.js:464-471 | normalising a block of normalised groups changes nothing |
| DeploymentOverrides.SymmetrizeNormal | src/lib/deployments/config/index.js:477-481 | copying requests or limits keeps groups normalised, and a second copy changes nothing |
| DeploymentOverrides.BlockIdempotent | src/lib/deployments/config/index.js:464-481 | normalising a block twice changes nothing |
| DeploymentOverrides.ComponentIdempotent | src/lib/deployments/config/index.js:459-488 | normalising an entry twice changes nothing |
| DeploymentOverrides.OverridesFixed | src/lib/deployments/config/index.js:453-490 | a config of normalised entries is its own override |
| DeploymentOverrides.OverridesIdempotent | src/lib/deployments/config/index.js:453-490 | applying the overrides to their own result gives the same result |
| DeploymentOverrides.ExampleLeaves | src/lib/deployments/config/index.js:467-468 | 500 under `cpu` becomes `"500m"`, and 1024 under `memory` becomes `"1024Mi"` |
| DeploymentOverrides.ExampleBlock | src/lib/deployments/config/index.js:464-481 | numeric limits become wrapped limits, and the requests are set to them |
| DeploymentOverrides.ExampleGroup | src/lib/deployments/config/index.js:465-469 | the example's limits group `{cpu: 500, memory: 1024}` becomes `{cpu: "500m", memory: "1024Mi"}` |
| DeploymentOverrides.ExampleComponent | src/lib/deployments/config/index.js:459-485 | the same inside a component |
| DeploymentOverrides.OverridesSingle | src/lib/deployments/config/index.js:453-490 | the overrides of a one-entry config are that entry, normalised |
| DeploymentOverrides.OverridesExample | src/lib/deployments/config/index.js:453-490 | the same for a `workers` entry |
| Values.Ingress | src/lib/deployments/config/index.js:65-74 | a single `ingress` key, with no resources block, carrying the platform's base domain and the class `<releaseName>-nginx` |
| Values.Registry | src/lib/deployments/config/index.js:257-269 | a single `registry` key, with no resources block; its connection user is the deployment's release name, its host `registry.<baseDomain>` and its email `admin@<baseDomain>` |
| Values.SearchConnection | src/lib/deployments/config/index.js:287 | the configured connection's keys plus `user`; `user` is the configured user, or else the release name |
| Values.Elasticsearch | src/lib/deployments/config/index.js:280-296 | empty without a truthy connection; otherwise exactly the `elasticsearch` and `workers` keys, with `elasticsearch.connection` the connection merged over `{user: releaseName}` and `workers.persistence.enabled` false |
| Values.Layers.Merged | src/lib/deployments/config/index.js:40-52 | the merge of the nine layers in precedence order has exactly the keys of all layers |
| Values.BuildLayers | src/lib/deployments/config/index.js:40-52 | the nine layers in source order: base settings, the values passed in, ingress, default resources, limit range, constraints, registry, elasticsearch, and the deployment's overrides last; the layers the engine builds itself keep requests equal to limits, so the whole stack does when the base settings, the values passed in, the constraints and the overrides do |
| Values.GenerateHelmValues | src/lib/deployments/config/index.js:36-59 | it succeeds exactly when `constraints` and `deploymentOverrides` do, reporting the `constraints` error first; on success it is the merge of the layers in order |
| Values.FieldsLeafWins | src/lib/deployments/config/index.js:40-52 | a leaf the later object sets is in the merge of two objects |
| Values.FieldsKeepUntouched | src/lib/deployments/config/index.js:40-52 | a value of the earlier object survives where the later one does not touch it |
| Values.LayersSymmetric | src/lib/deployments/config/index.js:40-52 | if every layer keeps requests equal to limits, the merge does |
| Values.OverridesWin | src/lib/deployments/config/index.js:40-52 | every leaf of the last layer is in the merge |
| Values.ValuesWin | src/lib/deployments/config/index.js:40-52 | a leaf of the values passed in survives when no later layer touches its path |
| Values.HelmKeys | src/lib/deployments/config/index.js:36-59 | the document's keys are those of all layers: every catalog component and every config entry has one |
| Values.HelmSymmetric | src/lib/deployments/config/index.js:36-59 | requests equal limits throughout the document, provided the base settings and the values passed in keep them equal |
| Values.SingleNamespace | src/lib/deployments/config/index.js:80-117 | in a single namespace the engine adds no quotas, pool sizes, pod-launching flag or limit range |
| Values.EngineKeys | src/lib/deployments/config/index.js:65-296 | the ingress, registry and elasticsearch layers have none of those keys |
| Values.OwnNamespace | src/lib/deployments/config/index.js:80-234 | with a namespace per deployment, the document always has quotas, pool sizes and a limit range |
| Values.OverridesReachDocument | src/lib/deployments/config/index.js:51 | every leaf of the deployment's overrides is in the document |
| Values.OverrideCpuInDocument | src/lib/deployments/config/index.js:40-52 | a numeric CPU limit in the deployment's config reaches the document as `"<n>m"`, as both limit and request |
| Values.ValuesSurvive | src/lib/deployments/config/index.js:42 | a leaf of the values passed in survives unless a later layer touches its path |
| Environment.EnvArrayToObject | src/lib/deployments/config/index.js:357-359 | the object's keys are exactly the pairs' keys |
| Environment.EnvArrayLastPair | src/lib/deployments/config/index.js:357-359 | each key holds the value of the last pair with that key |
| Environment.EnvObjectToArray | src/lib/deployments/config/index.js:366-368 | one single-key object per entry, in order |
| Environment.EnvObjectRoundTrip | src/lib/deployments/config/index.js:357-368 | assigning together the objects `envObjectToArray` gives rebuilds the object, and it equals `envArrayToObject` of the same pairs |
| Environment.UnionSingleton | src/lib/deployments/config/index.js:367 | adding a single-key object updates that key |
| Environment.ToArrayPrefix | src/lib/deployments/config/index.js:366-368 | the array of a shorter list of entries is a prefix of the array |
| Environment.EnvArrayFind | src/lib/deployments/config/index.js:357-359 | with distinct keys, a key is in the object exactly when `find` locates it, with the same value |
| Environment.EnvArrayLastWins | src/lib/deployments/config/index.js:357-359 | a later pair overrides an earlier one with the same key |
| Environment.MapDeploymentToProperties | src/lib/deployments/config/index.js:402-418 | each of `extraAu`, `airflowVersion` and `alertEmails` is copied under its property key exactly when it is truthy; nothing else is produced |
| Environment.PropertiesToDeployment | src/lib/deployments/config/index.js:376-386 | a truthy `extra_au` or `component_version` becomes `extraAu` or `airflowVersion`; nothing else is produced |
| Environment.PropertiesRoundTrip | src/lib/deployments/config/index.js:376-418 | properties and back give the truthy `extraAu` and `airflowVersion` fields back |
| ImageTags.LastSegment | src/lib/deployments/config/index.js:425-433 | the last segment is no longer than the tag and has no dash |
| ImageTags.LastSegmentAfterDash | src/lib/deployments/config/index.js:425-433 | the last segment of `p-seg` is `seg` when `seg` has no dash |
| ImageTags.TagNumberOf | src/lib/deployments/config/index.js:433 | `cli-<n>` is a `cli-` tag, its last segment is the digits of `n`, and it carries `n` |
| ImageTags.StrLessIrreflexive | src/lib/deployments/config/index.js:425 | no string is less than itself |
| ImageTags.StrLessTransitive | src/lib/deployments/config/index.js:425 | string order is transitive |
| ImageTags.StrLessTotal | src/lib/deployments/config/index.js:425 | of two different strings one is less |
| ImageTags.CliTags | src/lib/deployments/config/index.js:424 | exactly the tags that start with `cli-` |
| ImageTags.MaxBySegment | src/lib/deployments/config/index.js:425 | a tag is picked exactly when there is one, and it is one of them |
| ImageTags.MaxBySegmentGreatest | src/lib/deployments/config/index.js:425 | no tag has a greater last segment than the picked one |
| ImageTags.MaxBySegmentFirst | src/lib/deployments/config/index.js:425 | of tags with the greatest last segment, the first is picked |
| ImageTags.FindLatestTag | src/lib/deployments/config/index.js:423-426 | none exactly when there is no `cli-` tag; otherwise one of the `cli-` tags |
| ImageTags.FindLatestTagGreatest | src/lib/deployments/config/index.js:423-426 | no `cli-` tag has a greater last segment, as a string, than the latest |
| ImageTags.GenerateNextTag | src/lib/deployments/config/index.js:431-435 | always a `cli-` tag; `cli-1` when there is no latest tag |
| ImageTags.NextTagAfter | src/lib/deployments/config/index.js:431-435 | the tag after `cli-<n>` is `cli-<n+1>` |
| ImageTags.NextTagMalformed | src/lib/deployments/config/index.js:433-434 | a tag without a number, `cli-latest`, is followed by `cli-NaN` |
| ImageTags.Tags | src/lib/deployments/config/index.js:423 | the tags `cli-<n>` for a list of numbers |
| ImageTags.CliTagsOfTags | src/lib/deployments/config/index.js:424 | every numbered tag passes the `cli-` filter |
| ImageTags.TagsPrefix | src/lib/deployments/config/index.js:423 | the tags of a prefix are a prefix of the tags |
| ImageTags.MaxBySegmentTwo | src/lib/deployments/config/index.js:425 | of two tags, the second is picked only when its last segment is greater |
| ImageTags.TagCollision | src/lib/deployments/config/index.js:423-435 | with `cli-9` and `cli-10`, the latest is `cli-9` and the next tag is `cli-10`, which already exists |
| ImageTags.MaxByNumber | src/lib/deployments/config/index.js:425 | comparing numbers: the pick is one of the tags and carries a number |
| ImageTags.MaxByNumberGreatest | src/lib/deployments/config/index.js:425 | comparing numbers: no tag carries a greater number than the pick |
| ImageTags.FindLatestTagByNumber | src/lib/deployments/config/index.js:423-426 | comparing numbers: the latest is one of the `cli-` tags |
| ImageTags.LatestByNumber | src/lib/deployments/config/index.js:423-426 | comparing numbers: the latest numbered tag carries the greatest number |
| ImageTags.NextTagFresh | src/lib/deployments/config/index.js:423-435 | comparing numbers: the next tag is none of the existing ones |

## Left out

- Logging: the YAML dump of the final values is a side effect only, and it is not modelled. The `logHelmValues` switch is left out with it.
- `mapPropertiesToDeployment`: the `alert_emails` rule is not modelled, because it calls `parseJSON` from `utilities`, which is not part of this model. The first two rules are modelled.
- Numbers are integers or NaN. Fractional amounts, Infinity and -0 are not modelled.
- Numbers are unbounded integers, while JavaScript numbers are doubles. The model is faithful only for amounts with |n| <= 2^53. Above that, doubles lose precision, and from 1e21 on `${n}` prints in exponent form, so `parseInt("1e+21m")` is 1. The read-back lemmas `JsNumbers.ShowRoundTrip`, `JsNumbers.ParseIntRoundTrip`, `JsNumbers.ParseIntOfFormatted`, `DeploymentOverrides.WithUnit` and `DeploymentOverrides.NormalizeLeafReadsBack` hold for every integer in the model, but only within that range in the program.
- `parseInt` is modelled without a radix. The `0x` prefix and Unicode white space are not modelled: only space, tab, CR and LF count as blanks.
- `Number()` of a string is modelled only for optionally signed decimal integers and blank strings. Decimals, exponents, hex and `Infinity` give NaN in the model.
- `totalAu` is a float division in the source. `PoolSize` divides exactly in integers, so float rounding is not modelled.
- A replica count given as a string, an array or an object is coerced with `Number()` in both folds. The source adds it to `acc.pods` with `+`, which concatenates: `0 + "3"` is `"03"`, `0 + [3]` is `"03"`, and an object gives `"0[object Object]"`. The model gives the coerced number, or NaN pods for an array or an object; that string result is not modelled.
- `au.cpu > 0` is a precondition of `Constraints` and `GenerateHelmValues` when quotas are computed. With 0, JavaScript gives Infinity or NaN pool sizes, which are not modelled.
- lodash `merge` is modelled as follows:
  - objects merge key by key, arrays index by index, and any other source value replaces the destination.
  - Merging an object into an array is not modelled. lodash merges the object's keys into the array; the model lets the object replace it.
  - Skipping an `undefined` source value is not modelled. `undefined` has no `Json` form, so it cannot appear.
  - Aliasing is not modelled. The source shares one object for `requests` and `limits` and mutates it in place; the model works on values.
- Default arguments (`arr = []`, `obj = {}`, `values = {}`, `type = "default"`) are not modelled as a separate case. Callers pass the value.
- `envObjectToArray` takes the object as its list of entries, in enumeration order, because a Dafny `map` has no order.
- String comparison in `findLatestTag` compares Dafny `char`s. This is the UTF-16 order of JavaScript for characters of the basic plane.
- Json.ObjectFields: a string or array source contributes no keys. lodash `merge` and `mapValues` enumerate the index keys of a string or an array; the model does not represent them.
- DeploymentOverrides.NormalizeGroup: a string or array group is normalised to an empty group. lodash `mapValues` maps it over its index keys, so limits written as `"500m"` become `{"0": "5", "1": "0", "2": "0", "3": "m"}` in the source.
- DeploymentOverrides.NormalizeResources: a string or array `resources` value gives no groups, for the same reason.
- JsNumbers.ParseIntOf: `parseInt` of an array is NaN here. JavaScript first turns the array into a string, so `parseInt([12])` is 12.
- JsNumbers.ToNumber: `Number()` of an array is NaN here. JavaScript gives 0 for `[]` and 3 for `[3]`.
- ImageTags.LastSegment: its contract states only the length bound and that the segment has no dash. What the segment is, is stated by `LastSegmentAfterDash`.
- ImageTags.MaxBySegmentFirst: it states "first of the greatest" over the filtered list that `maxBy` walks, not over the original list of tags.
- The GraphQL resolvers, the OAuth route, the server bootstrap and the logger are outside this engine, and they are not modelled.

## Findings

| source | as written | input that shows it | evidently intended | confidence | as-written member | corrected member |
|---|---|---|---|---|---|---|
| src/lib/deployments/config/index.js:423-435 | `findLatestTag` compares the tag suffixes as strings, so `"9"` beats `"10"`, and `generateNextTag` then proposes a tag that already exists | tags `cli-9`, `cli-10`: the latest is `cli-9` and the next tag is `cli-10` | compare the suffixes as numbers, so the next tag is always new | high; not executed | ImageTags.TagCollision | ImageTags.NextTagFresh |
