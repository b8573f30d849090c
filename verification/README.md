# otelfleet: verified models of the control plane and its collectors

otelfleet runs a fleet of OpenTelemetry collectors for many customers. Its control plane compiles
customer pipelines into collector configs, keeps their secrets encrypted, speaks OpAMP with agents
at the edge, and validates ingest keys. Its collector components cache key verdicts and meter each
tenant. This project models those parts in Dafny and proves what they promise, for all inputs and
over whole runs. `dafny verify dfyconfig.toml` checks everything.

## How it is organised

Each stateful component has three layers. A datatype and step functions say what one call does.
Lemmas prove what every run of steps keeps or computes. A class or methods with the loops, maps and
field updates of the code are proved to take exactly those steps. The two service objects remember
their calls in a ghost history, so that what holds over every run is a contract of their methods.

| area | modules |
|---|---|
| pipeline compiler | `Naming`, `Slugs`, `Values`, `Validation`, `Rendering` (the configs), `Renderer` (the code), `Collector` (what a config does with an item), `CompilerCorrectness`, `CompilerEdge` |
| secrets | `SecretWalk`, `Catalog`, `GraphSecrets`, `Secrets`, `SecretHistory`, `SecretCode` (the code) |
| pipeline service | `PipelineStore` (the tables), `PipelineInvariants`, `PipelineOverlap` (calls that overlap), `PipelineService` (the code) |
| OpAMP fleet | `Fleet` (the protocol), `FleetInvariants`, `FleetTransparency`, `FleetPerAgent`, `FleetAgreement`, `FleetConnections`, `FleetHandler` (the code) |
| ingest | `TokenBucket`, `KeyCache`, `TenantAuth`, `IngestAuth` |
| trace view, command line, billing | `SpanTree`, `TraceWindow`, `Reconciler`, `ReconcilerLaws`, `ReconcilerExact`, `ReconcilerPlans`, `ReconcilerCode`, `Billing` |
| shared | `Prelude`, `Sorting`, `Sequences`, `Text` |

## Main results

- **The compiler is correct.** `Collector` gives a config a meaning: entry pipelines, routing by the
  first matching condition, processors in order, fan-out to exporters; a missing or twice defined
  name makes a delivery fail. `ForwardingMeans` and `EdgeMeans` prove that the rendered configs
  deliver exactly what the pipelines ask for. `ReachableDelivers` carries this to every state the
  pipeline service can reach, through encryption, storage, decryption and the unstable sort;
  `RenderCurrent` has it as its contract. `ReachableNoClash` proves the duplicate-key branch of
  validation dead while calls do not overlap; `ApartExactly` says which overlaps revive it.
- **Secrets are remembered and not shown.** `History` says what any chain of versions decrypts to;
  `RedactRoundTrip` and `RedactSame` say exactly what redaction keeps and forgets. Secrets are found
  by printed paths; `PathInjective` proves these unambiguous for the catalog's schemas.
- **The agent registry is only a cache.** `AgentAlone` says that the config and health events of an
  agent, in any run among any others, are those of a machine that has no registry and hears this
  agent alone; `CacheTransparent` is the form for the whole log. `RunBound` and `SendsOwnCustomer`
  bind connections, agents and configs to one customer, even when writes fail and agents are deleted
  and enrolled anew.
- **Quotas and keys.** `Isolation`, `RateBoundForward` and `Revocation` hold in every interleaving,
  the first two also for clock readings out of order and limits that change.
- **The span tree, the reconciler and the bill** are proved against independent descriptions:
  parent steps, a settled server, exact division.

## Where the code falls short of a plain reading

Each of these has a concrete case and the exact condition under which the property holds.

- Bucket collection shows as soon as the burst, times the ratio of a tenant's limits, plus the lag
  of clock readings exceeds 600 s (`DrainedRun`, `TransparencyCondition`). The processor's settings
  do not cap the burst.
- The clock is read before the lock. Under any lag, or for bursts over 600 s, the admitted items can
  exceed a burst plus the rate times the elapsed time (`BackAndForthTwice`, `DrainedTwice`,
  `RateBoundCondition`), and leaving out a rejected batch can get a later one rejected
  (`BackAndForthCounts`, `ShiftedCounts`, `RejectionsCondition`).
- Two creations that overlap can give a customer two pipelines of one slug, and then no forwarding
  config renders (`OverlapHappens`, `ApartExactly`, `RendersExactly`).
- Capabilities reach the agent's row only with a description, so a restart can lose them and the
  config offer with them (`CapabilitiesForgotten`, `RestartKeepsOffer`).
- A connection that speaks for two agents can leave one connected after it closes
  (`SharedConnectionLeaks`, `CloseByHistory`).
- The minimum bar width is not kept in the last 0.4 percent of a trace
  (`ClosingInstantInvisible`, `VisibleCondition`), although the comment says a bar stays visible.
- A valid slug with a double hyphen is not its own derivation
  (`DoubleHyphenCollapses`, `DeriveFixed`).
- A second apply keeps planning changes for untrimmed names, omitted lists and secrets in clear
  (`UntrimmedPlansAgain`, `SecondApplyExactly`).
- A dry run leaves out the update a new customer with limits or an untrimmed name gets
  (`LimitedShowsLess`, `DryPlanExactly`).
- Priced in parts, usage comes out cheaper once the remainders of the parts reach a divisor
  (`SplitTight`, `SplitExactly`).

## Modelling choices

- Times are integers or reals, money and counts unbounded integers; billing wraps to 64 bits
  explicitly. Float arithmetic of the bucket is real arithmetic.
- SHA-256 is taken to be injective; the cipher opens what it sealed. Random nonces and client IDs,
  clocks, failing store writes, refused server calls, JSON Schema evaluation and the verdict of the
  collector binary are parameters.
- A config section is a sequence of key/value entries, so that a duplicate key can be expressed.
- One handler call or transaction is one step, except in `TenantAuth`, where a request looks up,
  calls and settles in separate steps so that requests interleave, and in `PipelineOverlap`, where
  creations check and insert in separate steps.
- A text is a sequence of characters; a length limit of 200 bytes is read as 200 characters.
- `TenantAuth.Config` follows the configuration check of the extension.

## Model

| member | source | states |
|---|---|---|
| CompilerCorrectness.ForwardingMeans | internal/pipelines/render.go:41-221 | for valid pipelines under distinct underscore-free slugs, an item of tenant t and signal s is delivered exactly to the exporters of the pipelines with client ID t that carry s, each after memory_limiter, batch and exactly that pipeline's processors in order; to `debug` exactly when no pipeline carries s |
| CompilerEdge.DeliveredExactly | internal/pipelines/render.go:100-135 | the same as an if-and-only-if on single deliveries: nothing of another tenant, nothing missing |
| CompilerEdge.ForwardingCoherent | internal/pipelines/render.go:51-221 | no section has a key twice, every referenced receiver, processor, connector and exporter is defined exactly once, and every routed pipeline lists the connector that feeds it |
| CompilerEdge.EdgeMeans | internal/pipelines/render_edge.go:27-146 | the edge config delivers to exactly the pipelines that carry the signal, and to `debug` exactly when there is no pipeline |
| CompilerEdge.EdgeCoherent | internal/pipelines/render_edge.go:27-146 | no section of the edge config has a key twice and every reference is defined exactly once |
| CompilerEdge.IdleConfigs | internal/pipelines/render_edge.go:115-125 | with no pipelines the edge config and the forwarding config are the same idle config |
| CompilerCorrectness.PipelinesDistinct | internal/pipelines/render.go:181-217 | entry and customer pipeline IDs never collide |
| CompilerCorrectness.RouteTaken | internal/pipelines/render.go:109-132 | the first matching table entry of a tenant lists exactly its pipelines for the signal; no entry matches exactly when it has none |
| CompilerCorrectness.ConditionInjective | internal/pipelines/render.go:121-124 | the quoted condition of one client ID never selects another |
| Collector.SectionDistinct | internal/pipelines/render.go:82-98 | component keys of all pipelines and the shared ones are distinct |
| Rendering.FragmentEmbedded | internal/pipelines/render.go:227-270 | a pipeline's fragment occurs in the full config as a block of each section |
| Rendering.EdgeFragmentEmbedded | internal/pipelines/render_edge.go:162-199 | the same for edge fragments |
| Rendering.NoDuplicate | internal/pipelines/render.go:51-59 | the duplicate check passes exactly when all keys differ |
| Rendering.SameOrder | internal/pipelines/render.go:42-49 | without duplicate keys there is only one sorted arrangement, although the sort is unstable |
| Renderer.OrderIndependent | internal/pipelines/render.go:41-59 | any permutation of the pipelines renders to the same forwarding and edge config or fails on the same key |
| Renderer.FailsExactly | internal/pipelines/render.go:51-59 | rendering fails exactly when two pipelines share a key |
| Renderer.RenderForwardingConfig | internal/pipelines/render.go:41-221 | the renderer's loops produce the forwarding config of the sorted pipelines, or the first duplicate key |
| Renderer.RenderEdgeConfig | internal/pipelines/render_edge.go:27-146 | the edge renderer's loops produce the edge config of the sorted pipelines, or the first duplicate key |
| Renderer.RenderFragment | internal/pipelines/render.go:227-270 | produces the pipeline's fragment |
| Renderer.RenderEdgeFragment | internal/pipelines/render_edge.go:162-199 | produces the pipeline's edge fragment |
| Renderer.FindDuplicate | internal/pipelines/render.go:51-59 | the seen-map loop finds the first key an earlier pipeline has |
| Renderer.IndexSignals | internal/pipelines/render.go:61-67 | the index lists, per signal, the pipelines that carry it, in order |
| Renderer.BuildTable | internal/pipelines/render.go:112-126 | one table entry per client by first appearance, with that client's pipelines in order |
| Renderer.BuildConnectors | internal/pipelines/render.go:100-135 | one connector per signal that has pipelines |
| Renderer.BuildEntries | internal/pipelines/render.go:182-193 | one entry pipeline per signal, into its connector or `debug` |
| Renderer.SetNodes | internal/pipelines/render.go:93-97 | appends one entry per node, under its component ID, with its encoded config |
| Renderer.SetRouted | internal/pipelines/render.go:195-216 | appends the pipeline's entry for each signal it carries, in canonical order |
| Renderer.SetDirect | internal/pipelines/render_edge.go:126-141 | the same for the edge config |
| Values.ToNodeInjective | internal/pipelines/render.go:306-356 | encoding with sorted keys loses nothing but what number conversion loses: a number is the numeral it is printed as (`1` and `1.0` are one value), and equal nodes come from equal values |
| Values.EncodeNode | internal/pipelines/render.go:306-356 | the encoding loop produces that node, whatever order the map yields its keys; numbers are already the numerals they print as |
| Naming.KeyInjective | internal/pipelines/naming.go:27-29 | the pipeline key determines both slugs when they have no underscore |
| Naming.ComponentIDInjective | internal/pipelines/naming.go:39-50 | component IDs determine type, customer, pipeline and node suffix |
| Naming.PipelineIDInjective | internal/pipelines/naming.go:33-35 | collector pipeline IDs determine signal, customer and pipeline |
| Naming.Attribution | internal/pipelines/naming.go:52-57 | the exporter label pattern of (c, p) matches a rendered ID exactly when the node belongs to (c, p) |
| Naming.DebugUnattributed | internal/pipelines/naming.go:52-57 | the shared debug exporter is attributed to no pipeline |
| Naming.TypeOf | internal/pipelines/naming.go:59-66 | the type is read back from a component ID |
| Slugs.DeriveValid | internal/tenants/slug.go:9-46 | every derived slug is valid and has no double hyphen |
| Slugs.DeriveWords | internal/tenants/slug.go:18-46 | a derived slug is the lower-cased alphanumeric words of the name joined by hyphens, cut and padded |
| Slugs.DeriveIdempotent | internal/tenants/slug.go:18-46 | deriving twice is deriving once |
| Slugs.DeriveFixed | internal/tenants/slug.go:9-46 | a text is its own slug exactly when it is a valid slug without a double hyphen |
| Slugs.DoubleHyphenCollapses | internal/tenants/slug.go:9-46 | `a--b` is a valid slug that the derivation changes |
| Slugs.DeriveSlug | internal/tenants/slug.go:18-46 | the builder loop, trim, cut and padding compute the derived slug |
| Slugs.CollapseText | internal/tenants/slug.go:19-32 | the loop with the hyphen flag collapses every run of other characters to one hyphen |
| Slugs.PadText | internal/tenants/slug.go:37-44 | the padding loop |
| Validation.ValidateStructural | internal/pipelines/validate.go:60-83 | reports no issue exactly for graphs with known distinct signals, an exporter, known components, usable names, fitting configs and no two equal IDs |
| Validation.ValidateSignals | internal/pipelines/validate.go:66-74 | reports no issue exactly for known, distinct signals |
| Validation.ValidateNodes | internal/pipelines/validate.go:85-116 | reports no issue exactly for valid nodes with distinct IDs |
| Validation.ProbeIsEnough | internal/pipelines/validate.go:98-104 | the duplicate check under the placeholder identity catches every collision under the real one |
| SecretWalk.TransformRewrites | internal/pipelines/secrets.go:41-88 | the walk rewrites exactly the secret fields, each at its own printed path |
| SecretWalk.TransformAlike | internal/pipelines/secrets.go:41-88 | nothing but secret fields changes |
| SecretWalk.AlikeEqual | internal/pipelines/secrets.go:41-88 | values that differ at most in secrets and agree on every secret are equal |
| Catalog.ExporterSecrets | internal/pipelines/catalog/catalog.go:148-487 | the secrets of an exporter config are exactly its password or header values, as the catalog marks them |
| Catalog.ProcessorsClean | internal/pipelines/catalog/catalog.go:186-340 | no processor has a secret field |
| Catalog.PathInjective | internal/pipelines/secrets.go:90-126 | printed paths determine the exporter and the field, whatever the header is called |
| GraphSecrets.SecretsLocated | internal/pipelines/secrets.go:94-126 | the graph walk visits exactly the located secrets |
| GraphSecrets.GraphMapped | internal/pipelines/secrets.go:94-126 | each located secret is rewritten at its own path |
| GraphSecrets.GraphsEqual | internal/pipelines/secrets.go:94-126 | a graph is determined by its non-secret part and its located secrets |
| Secrets.StoredExactly | internal/pipelines/secrets.go:138-190 | a graph is stored exactly when every secret field can be written |
| Secrets.StoredAt | internal/pipelines/secrets.go:151-182 | what is stored at each secret: a marker or wrong type as is, the predecessor's marker for the sentinel, otherwise sealed text |
| Secrets.StoredSealed | internal/pipelines/secrets.go:132-190 | a stored graph holds no secret text in clear |
| Secrets.IndexAt | internal/pipelines/secrets.go:139-148 | looking a path up in the predecessor's index gives its secret at that place |
| Secrets.RedactRoundTrip | internal/pipelines/secrets.go:138-203 | re-submitting the redacted graph against the stored one reproduces it exactly when its secrets are markers or null |
| Secrets.RedactSame | internal/pipelines/secrets.go:192-203 | two graphs redact alike exactly when they differ at most in non-null secret values |
| Secrets.RedactFixed | internal/pipelines/secrets.go:192-203 | redaction leaves a graph alone exactly when its secrets are null or the sentinel |
| Secrets.FragmentIndependent | internal/pipelines/service.go:202-215 | the persisted fragment does not depend on non-null secret values |
| Secrets.ServedAsSubmitted | internal/api/handlers_pipelines.go:42-60 | a stored version is served as the redaction of what was submitted, whatever its predecessor |
| Secrets.DecryptAt | internal/pipelines/secrets.go:205-220 | decryption opens every marker, keeps other values, and changes nothing else |
| Secrets.DecryptsExactly | internal/pipelines/secrets.go:205-220 | decryption succeeds exactly when every marker opens |
| SecretHistory.History | internal/pipelines/service.go:297-332 | along any chain of submissions every version decrypts and holds, at each secret, the submitted text or, for the sentinel, what the version before held |
| SecretHistory.HistoryStep | internal/pipelines/secrets.go:138-220 | one accepted submission does so against its predecessor |
| SecretHistory.LastSpoken | internal/pipelines/secrets.go:159-170 | the text last submitted in clear survives any number of sentinels |
| SecretHistory.SentinelNeedsPredecessor | internal/pipelines/secrets.go:159-164 | a sentinel with no stored predecessor at its place persists nothing |
| SecretCode.EncryptGraphSecrets | internal/pipelines/secrets.go:138-190 | the two walks with their index and issue list, in any key order, reach the specified outcome with the specified issue paths |
| SecretCode.Encryption.constructor | internal/pipelines/secrets.go:139-150 | starts with an empty index and no issues |
| SecretCode.Encryption.IndexGraph | internal/pipelines/secrets.go:139-148 | the recording walk builds the predecessor's index |
| SecretCode.Encryption.EncryptSecret | internal/pipelines/secrets.go:151-182 | the closure writes one field or notes its issue |
| SecretCode.Encryption.EncryptValue | internal/pipelines/secrets.go:44-88 | the walk returns the rewritten value and the list grows by exactly the issues below it; None exactly on a sealing fault |
| SecretCode.Encryption.EncryptNodes | internal/pipelines/secrets.go:94-126 | the same over a list of nodes |
| SecretCode.DecryptGraphSecrets | internal/pipelines/secrets.go:205-220 | computes the decrypted graph, or fails |
| PipelineInvariants.ReachableDelivers | internal/pipelines/service.go:104-112 | in every state reached by creating, versioning, activating and deleting, the forwarding config delivers each item exactly as the active pipelines of its active customer say |
| PipelineInvariants.ReachableEdgeDelivers | internal/pipelines/service.go:114-123 | the same for a customer's edge config |
| PipelineInvariants.ReachableCoherent | internal/pipelines/service.go:239-386 | in every reachable state stored secrets decrypt, the forwarding config has no duplicate-key error, every reference resolves once and every active pipeline's fragment is in it unchanged |
| PipelineInvariants.ReachableEdgeCoherent | internal/pipelines/service.go:239-386 | the same for every customer's edge config and its edge fragments |
| PipelineInvariants.CandidateRenders | internal/pipelines/validate.go:155-176 | a candidate whose slug is free among the listed pipelines renders beside them |
| PipelineInvariants.ReachableNoClash | internal/pipelines/validate.go:155-176 | in every state reached by calls that do not overlap, the slug of a candidate that Create or CreateVersion gets to is free, so rendering it beside the other active pipelines never meets a duplicate key |
| PipelineOverlap.ApartExactly | internal/pipelines/service.go:252-292 | over every interleaving of checks, inserts and other calls, pipelines of a customer keep distinct slugs exactly when no insert meets a pipeline of its slug that was inserted after its own check |
| PipelineOverlap.RendersExactly | internal/pipelines/service.go:85-123 | whatever overlapped, a config renders exactly when no two listed pipelines of one customer share a slug |
| PipelineOverlap.UnbrokenRenders | internal/pipelines/service.go:85-123 | if no insert is overtaken, every config renders |
| PipelineOverlap.OverlapHappens | internal/pipelines/service.go:252-292 | `abc` and `abc-`, both checked before either is inserted, make the forwarding config fail once both are active |
| PipelineOverlap.PlaySound | internal/pipelines/service.go:239-332 | every interleaving keeps stored versions readable and valid, fragments in place and customers distinct |
| PipelineOverlap.CreateInOne | internal/pipelines/service.go:239-292 | a creation whose insert follows its check is the single step of the store |
| PipelineOverlap.VersionInOne | internal/pipelines/service.go:297-332 | the same for a new version |
| PipelineInvariants.RunKeeps | internal/pipelines/service.go:239-386 | over every run: distinct underscore-free slugs, stored versions that decrypt to valid graphs, fragments of the redacted graph, existing active versions |
| PipelineInvariants.CreateKeeps | internal/pipelines/service.go:239-292 | creating a pipeline keeps that |
| PipelineInvariants.CreateVersionKeeps | internal/pipelines/service.go:297-332 | adding a version keeps that |
| PipelineInvariants.ActivateKeeps | internal/store/pg_pipelines.go:233-268 | activating a version keeps that |
| PipelineInvariants.DeleteKeeps | internal/store/pg_pipelines.go:143-154 | deleting a pipeline keeps that |
| PipelineInvariants.AddCustomerKeeps | internal/tenants/service.go:55-128 | creating a customer keeps that |
| PipelineInvariants.ClaimFree | internal/tenants/service.go:72-127 | the slug and client ID the retry loop claims are free, and the slug has no underscore |
| PipelineInvariants.VersionRemembers | internal/pipelines/service.go:297-332 | a new version decrypts to the submitted secrets, with the latest version's where the sentinel was submitted |
| PipelineService.Service.constructor | internal/pipelines/service.go:53-55 | starts over empty tables with no calls taken |
| PipelineService.Service.CreateCustomer | internal/tenants/service.go:55-128 | takes the customer-creation step and stays in a state its calls lead to |
| PipelineService.Service.ClaimIdentity | internal/tenants/service.go:72-127 | the retry loop claims what the step claims, and both slug and client ID are free |
| PipelineService.Service.UpdateStatus | internal/store/pg.go:137-165 | succeeds exactly for a customer that is not deleted; only its status changes; while it is not active none of its pipelines is listed for any config, and those of other customers are listed as before |
| PipelineService.Service.ListActive | internal/store/pg_pipelines.go:270-302 | lists exactly the active pipelines of the class whose customer is active |
| PipelineService.Service.ActiveRenderPipelines | internal/pipelines/service.go:81-102 | returns the decrypted inputs of that listing without the excluded pipeline, or fails if one does not decrypt |
| PipelineService.Service.RenderCurrent | internal/pipelines/service.go:104-112 | always returns a config: the one every listing of the active pipelines renders to, coherent, and delivering each signal and tenant exactly as these pipelines say |
| PipelineService.Service.RenderEdgeCurrent | internal/pipelines/service.go:114-123 | the same for a customer's edge config |
| PipelineService.AnyListing | internal/store/pg_pipelines.go:275-302 | the rendered config does not depend on the order active pipelines are listed in |
| PipelineService.RendersIff | internal/pipelines/validate.go:155-176 | nor does whether a candidate renders beside them |
| PipelineService.Service.PrepareVersion | internal/pipelines/service.go:158-234 | encrypts, decrypts, validates, renders the candidate into the full config and the redacted fragment, or persists nothing |
| PipelineService.Service.CreatePipeline | internal/pipelines/service.go:236-292 | takes the creation step, refusing unusable names, missing customers and taken slugs |
| PipelineService.Service.CreatePipelineVersion | internal/pipelines/service.go:294-332 | takes the new-version step against the latest version |
| PipelineService.Service.ActivateVersion | internal/store/pg_pipelines.go:231-268 | succeeds exactly for an existing version; the renderers then see that version decrypted, no version is lost, and every other pipeline is listed and rendered as before |
| PipelineService.Service.DeletePipeline | internal/store/pg_pipelines.go:141-154 | reports whether there was one; afterwards its name is free for its customer, and every other pipeline is listed and rendered as before |
| FleetPerAgent.AgentAlone | internal/opamp/handler.go:172-287 | while writes succeed, the config and health events of an agent in any run are those of a machine that hears this agent alone, since it was last deleted: other agents, disconnects, reconnects, pushes, flushes, deletions and restarts do not show |
| FleetPerAgent.PerAgent | internal/opamp/handler.go:407-507 | two runs in which an agent says the same record the same events for it, however messages interleave; a per-agent token counts by whether it names the agent's own row |
| FleetPerAgent.PerAgentPlainly | internal/opamp/handler.go:407-507 | on the shared token, the agent's messages alone decide |
| FleetTransparency.CacheTransparent | internal/opamp/handler.go:172-287 | two runs without deletions that hear the same messages of all agents in the same order record the same event log, order included |
| FleetTransparency.RunFollows | internal/opamp/handler.go:334-507 | every run computes the rows and report events of a machine without registry |
| FleetTransparency.EnrollView | internal/store/pg_fleet.go:144-174 | enrolling is, seen without the registry, one fresh agent of the customer and no report |
| FleetTransparency.HealthFollows | internal/opamp/handler.go:476-507 | while memory and row agree, a health report updates both as the machine without registry does, with one event exactly on a flip |
| FleetTransparency.ConfigFollows | internal/opamp/handler.go:407-460 | the same for a config report, with one event exactly per transition |
| FleetTransparency.ArriveFollows | internal/store/pg_fleet.go:321-339 | registering an agent marks its row connected and changes nothing it reported |
| FleetPerAgent.HealthAlternates | internal/opamp/handler.go:476-507 | in every run whose writes succeed, deletions included, healthy and unhealthy events of an agent strictly alternate |
| FleetInvariants.RunBound | internal/opamp/registry.go:55-108 | over every run, whatever writes fail: each byConn entry names the UID whose current connection it is, registry and row name the same agent and customer, and a connection's customer is its agent's |
| FleetInvariants.StepBound | internal/opamp/handler.go:172-287 | every step keeps that |
| FleetInvariants.SendsOwnCustomer | internal/opamp/handler.go:511-595 | every config offered or pushed on a connection is the one rendered for the customer it authenticated as |
| FleetInvariants.ForeignRefused | internal/opamp/handler.go:186-213 | a message in the name of another customer's agent is refused and leaves no trace |
| FleetInvariants.ReplacedCloseIsSilent | internal/opamp/registry.go:89-108 | closing a replaced connection changes nothing and emits nothing |
| FleetInvariants.ResolveEffect | internal/opamp/handler.go:334-401 | resolving ends, enrolls at most this UID, and finds only rows of the authenticated customer |
| FleetAgreement.ConnectedExactly | internal/store/pg_fleet.go:321-339 | a row is connected exactly when its UID is registered, or was when a restart forgot it |
| FleetConnections.CloseByHistory | internal/opamp/registry.go:54-108 | closing the connection an agent is on takes it offline exactly when its message was the last answered one there and nobody on it has moved away since |
| FleetConnections.RegistryIsHistory | internal/opamp/registry.go:54-108 | over every run, whatever writes fail, both registry maps are what was said, closed and restarted |
| FleetConnections.MessageMoves | internal/opamp/registry.go:54-66 | an answered message moves its agent to its connection and unbinds the one it leaves; any other message leaves the registry alone |
| FleetAgreement.CloseTakesOffline | internal/opamp/handler.go:539-554 | it always does when every connection speaks for one UID |
| FleetAgreement.SharedConnectionLeaks | internal/opamp/registry.go:55-66 | a connection that speaks for two UIDs can leave one of them connected after it closes |
| FleetAgreement.OfferedOrInSync | internal/opamp/handler.go:511-535 | a capable agent that connects or describes itself is recorded as wanting its config and offered it unless acknowledged |
| FleetAgreement.NoOfferMeansInSync | internal/opamp/handler.go:511-535 | in every run, no offer means the wanted config is the acknowledged one |
| FleetAgreement.CapabilitiesForgotten | internal/opamp/handler.go:227-245 | capabilities announced without a description are lost in a restart, and the offer with them |
| FleetAgreement.RestartKeepsOffer | internal/opamp/handler.go:227-245 | exactly when a restart does not show in the offer to a reconnecting agent |
| FleetAgreement.HeartbeatsKept | internal/store/pg_fleet.go:419-431 | row and memory together always know when the agent was last heard |
| FleetAgreement.FlushedSurvivesRestart | internal/opamp/handler.go:612-620 | after a flush a restart loses no heartbeat |
| FleetHandler.Handler.constructor | internal/opamp/registry.go:38-40 | starts with empty tables and registry and no inputs taken |
| FleetHandler.Handler.RemoveConn | internal/opamp/registry.go:89-108 | drops a closed connection and returns the agent it was still current for |
| FleetHandler.Handler.ResolveAgent | internal/opamp/handler.go:334-401 | finds or enrolls the agent; losing an enrolment race resolves once more |
| FleetHandler.Handler.HandleRemoteConfigStatus | internal/opamp/handler.go:407-460 | records the acknowledged hash, the status and one event per transition |
| FleetHandler.Handler.ProcessMessage | internal/opamp/handler.go:227-287 | registers, reports and offers, in this order |
| FleetHandler.Handler.Receive | internal/opamp/handler.go:172-287 | takes the message step and stays in a state its inputs lead to; an offer is the config rendered for the connection's customer; another customer's agent is refused with no change |
| FleetHandler.Handler.HandleIncoming | internal/opamp/handler.go:172-287 | resolves, checks and processes one message as the step says |
| FleetHandler.Handler.ConnectionClosed | internal/opamp/handler.go:539-554 | takes the close step; agents on other connections keep their entries and rows |
| FleetHandler.Handler.EdgeConfigChanged | internal/opamp/handler.go:563-605 | every push carries the customer's config and goes out on a connection that authenticated as this customer; exactly the reachable capable agents get one |
| FleetHandler.Handler.PushConfig | internal/opamp/handler.go:563-605 | the loop, in any map order, takes the push step |
| FleetHandler.Handler.DeleteAgent | internal/api/handlers_fleet.go:172-204 | refused exactly while the row is missing or says connected; otherwise this row goes with exactly its own events |
| FleetHandler.Handler.Restart | internal/opamp/registry.go:38-40 | empties the registry and keeps the tables |
| FleetHandler.Handler.DrainDirtySeen | internal/opamp/registry.go:132-144 | collects and clears the unflushed times |
| FleetHandler.Handler.TouchAgents | internal/store/pg_fleet.go:419-431 | keeps the later of stored and collected time |
| FleetHandler.Handler.FlushSeen | internal/opamp/handler.go:612-620 | takes the flush step |
| TokenBucket.Isolation | collector/processor/tenantquota/bucket.go:61-121 | if readings lag by at most d, a tenant's limits stay within a ratio, and ratio times burst plus d is at most 600 s, a tenant's decisions in any interleaving are those of its own never-collected bucket |
| TokenBucket.TransparencyCondition | collector/processor/tenantquota/bucket.go:11-19 | collection is invisible on every run with readings that lag by at most d and limits within a ratio, exactly when ratio times burst plus d is at most 600 s |
| TokenBucket.RateBoundForward | collector/processor/tenantquota/bucket.go:61-94 | with clock readings in any order and limits that change, the items admitted in any stretch are at most one burst plus the rate times the distance the clock moves forward in it, both at the largest limit |
| TokenBucket.RateBound | collector/processor/tenantquota/bucket.go:61-94 | with ordered readings that distance is the stretch's duration |
| TokenBucket.RateBoundCondition | collector/processor/tenantquota/bucket.go:61-121 | the duration bound holds on every run with readings that lag by at most d exactly when the burst is at most 600 s and d is 0 |
| TokenBucket.RejectionsInvisible | collector/processor/tenantquota/bucket.go:51-58 | for a constant limit and ordered readings, dropping rejected calls from a lone run leaves all others admitted |
| TokenBucket.RejectionsConsumeNothing | collector/processor/tenantquota/bucket.go:51-58 | the same in the registry, among other tenants |
| TokenBucket.RejectionsCondition | collector/processor/tenantquota/bucket.go:51-67 | with readings that lag by at most d, it holds on every run exactly when the burst is at most 600 s and d is 0: a late rejected call moves the bucket's clock back, and any rejected call may move the next sweep |
| TokenBucket.OversizedRejected | collector/processor/tenantquota/bucket.go:51-58 | a batch above capacity is never admitted |
| TokenBucket.HintCovers | collector/processor/tenantquota/bucket.go:96-107 | the hint is between 100 ms and 30 s and, below the ceiling, one nanosecond more covers the deficit |
| TokenBucket.RetrySucceeds | collector/processor/tenantquota/bucket.go:61-107 | a batch that fits is admitted one nanosecond after its hint |
| TokenBucket.Registry.constructor | collector/processor/tenantquota/bucket.go:43-49 | starts without buckets |
| TokenBucket.Registry.MaybeGC | collector/processor/tenantquota/bucket.go:109-121 | sweeps exactly the idle buckets, in any order, at most once per interval |
| TokenBucket.Registry.Take | collector/processor/tenantquota/bucket.go:61-94 | takes the bucket step and returns its decision and hint, for every tenant name and batch size |
| TokenBucket.Registry.Admit | collector/processor/tenantquota/processor.go:82-116 | lets unmetered batches pass and meters the others |
| TenantAuth.DecisionsJustified | collector/extension/tenantauth/extension.go:120-188 | in every interleaving an accepted request rests on a positive verdict for its key within the freshness or stale window, a rejected one on a recent negative verdict |
| TenantAuth.Revocation | collector/extension/tenantauth/extension.go:120-188 | after revocation no request that begins a window later is accepted: max(ttl, stale_if_error), or min(ttl, server ttl) where the call does not fail |
| TenantAuth.Reinstatement | collector/extension/tenantauth/extension.go:120-188 | a key honoured again is refused for less than negative_ttl |
| TenantAuth.Authenticator.constructor | collector/extension/tenantauth/extension.go:70-88 | starts with an empty cache |
| TenantAuth.Authenticator.LookUp | collector/extension/tenantauth/extension.go:120-138 | takes the step from the clock reading to the fresh-entry decision |
| TenantAuth.Authenticator.Settle | collector/extension/tenantauth/extension.go:140-188 | takes the step from the reply to the decision |
| KeyCache.Survival | collector/extension/tenantauth/cache.go:45-74 | after a put or a get hit, a key still answers with its entry exactly when fewer than maxEntries distinct other keys were used since |
| KeyCache.OvertakenRun | collector/extension/tenantauth/cache.go:45-74 | over a run, the keys ahead of another are exactly those used since, until it is evicted |
| KeyCache.GetConsistent | collector/extension/tenantauth/cache.go:45-55 | a hit reorders and changes no entry |
| KeyCache.PutConsistent | collector/extension/tenantauth/cache.go:57-74 | a put keeps list and index equal, duplicate-free and within the limit, and changes one entry |
| KeyCache.LinkedConsistent | collector/extension/tenantauth/cache.go:24-35 | the linked list with its index is a consistent recency sequence |
| KeyCache.Cache.constructor | collector/extension/tenantauth/cache.go:37-43 | starts empty |
| KeyCache.Cache.MoveToFront | collector/extension/tenantauth/cache.go:53-53 | moves one element to the front |
| KeyCache.Cache.Get | collector/extension/tenantauth/cache.go:45-55 | returns and promotes what the recency sequence returns and promotes |
| KeyCache.Cache.Put | collector/extension/tenantauth/cache.go:57-74 | stores what the recency sequence stores |
| KeyCache.Cache.Overwrite | collector/extension/tenantauth/cache.go:60-64 | replaces the entry of a known key and promotes it |
| KeyCache.Cache.Push | collector/extension/tenantauth/cache.go:65-65 | inserts a new element at the front |
| KeyCache.Cache.DropOldest | collector/extension/tenantauth/cache.go:66-73 | the eviction loop leaves the most recent keys, at most maxEntries of them |
| KeyCache.Cache.Evict | collector/extension/tenantauth/cache.go:65-73 | after inserting and evicting the contents are the stored sequence |
| IngestAuth.ValidExactly | internal/ingestauth/service.go:73-116 | the verdict is positive exactly for well-formed keys with an unrevoked, unexpired row of an active customer |
| IngestAuth.ValidNeedsRow | internal/ingestauth/service.go:73-116 | a positive verdict rests on such a row and names its client |
| IngestAuth.ValidateAPIKey | internal/ingestauth/service.go:73-116 | the scan stops at the first matching row with that verdict |
| SpanTree.EverySpanOnce | web/src/features/explore/waterfall-math.ts:32-78 | for distinct ids, whatever cycles, self-parents and missing parents, every span is listed exactly once |
| SpanTree.DepthsRight | web/src/features/explore/waterfall-math.ts:59-78 | depth is the number of parent steps to a root, or 0 where none is reachable |
| SpanTree.SubtreesContiguous | web/src/features/explore/waterfall-math.ts:61-67 | a rooted span's subtree is one contiguous block that starts at its row |
| SpanTree.RowsShape | web/src/features/explore/waterfall-math.ts:59-78 | the listing is the flattened forest of the rooted spans followed by the others at depth 0 |
| SpanTree.KidsOrder | web/src/features/explore/waterfall-math.ts:55-57 | siblings come by start time, equal times in input order |
| SpanTree.IndexByParent | web/src/features/explore/waterfall-math.ts:39-53 | the index lists the children of each span and the roots, in input order |
| SpanTree.SortSiblings | web/src/features/explore/waterfall-math.ts:57-57 | every child list is sorted |
| SpanTree.WalkFrom | web/src/features/explore/waterfall-math.ts:61-66 | visits a span and its subtree, skipping visited spans |
| SpanTree.WalkEach | web/src/features/explore/waterfall-math.ts:65-67 | the loop over siblings |
| SpanTree.AppendLeftover | web/src/features/explore/waterfall-math.ts:69-76 | appends the unvisited spans at depth 0 |
| SpanTree.BuildSpanTree | web/src/features/explore/waterfall-math.ts:38-78 | returns that listing |
| TraceWindow.ComputeWindow | web/src/features/explore/waterfall-math.ts:80-92 | the window runs from the earliest start to the latest end, both attained |
| TraceWindow.BarFits | web/src/features/explore/waterfall-math.ts:97-110 | no bar overflows the track |
| TraceWindow.BarExact | web/src/features/explore/waterfall-math.ts:103-110 | a bar inside the window starts at its exact offset and, at or above the floor, has its exact width |
| TraceWindow.VisibleCondition | web/src/features/explore/waterfall-math.ts:97-110 | the width floor holds exactly for bars that do not start in the last 0.4 percent of the window |
| TraceWindow.ClosingInstantInvisible | web/src/features/explore/waterfall-math.ts:97-110 | an instantaneous span that closes the trace has no width |
| ReconcilerLaws.ExportPlansNothing | cmd/otelfleetctl/apply.go:29-87 | applying an export to the state it came from plans no change |
| ReconcilerLaws.SecondApplyPlansNothing | cmd/otelfleetctl/apply.go:89-231 | after a successful apply of a spec with distinct slugs, distinct trimmed names, explicit lists and no secret in clear, a second apply plans none |
| ReconcilerExact.SecondApplyExactly | cmd/otelfleetctl/apply.go:89-231 | for distinct slugs and names, a second run plans nothing exactly when names are trimmed, lists explicit and secrets null or the sentinel |
| ReconcilerPlans.DryPlanExactly | cmd/otelfleetctl/apply.go:119-231 | a dry run counts as many changes as a successful real run exactly when every customer it would create has a trimmed name and no limits; never more; it shows the same lines exactly when these have no pipelines either |
| ReconcilerPlans.LimitedShowsLess | cmd/otelfleetctl/apply.go:131-168 | a new customer with a limit: one change shown, two made |
| ReconcilerPlans.UntrimmedPlansAgain | cmd/otelfleetctl/apply.go:142-160 | a name with a leading blank applies and is planned to change again |
| ReconcilerPlans.DistinctApart | cmd/otelfleetctl/apply.go:119-130 | distinct slugs are enough for no two specs to mean one customer |
| ReconcilerLaws.SettledPlansNothing | cmd/otelfleetctl/apply.go:119-173 | a spec the server satisfies plans no change, dry or not |
| ReconcilerLaws.SpecApplied | cmd/otelfleetctl/apply.go:119-173 | a successful apply leaves the server satisfying the spec |
| ReconcilerExact.EmptyPlanSettled | cmd/otelfleetctl/apply.go:119-173 | an empty dry plan means the server satisfies the spec |
| ReconcilerExact.SpecKeepsServed | cmd/otelfleetctl/apply.go:119-173 | applying leaves names trimmed and graphs redacted |
| Reconciler.BySlug | cmd/otelfleetctl/apply.go:114-121 | finds the last listed customer with the slug, if there is one |
| Reconciler.ByName | cmd/otelfleetctl/apply.go:122-130 | finds the first listed customer with the name, if there is one |
| Reconciler.PipeByName | cmd/otelfleetctl/apply.go:183-188 | finds the last listed pipeline with the name, if there is one |
| ReconcilerCode.ExportSpec | cmd/otelfleetctl/apply.go:29-69 | the export loops build the export |
| ReconcilerCode.ExportPipelines | cmd/otelfleetctl/apply.go:54-67 | exports the active, else latest, version of each pipeline that has one |
| ReconcilerCode.IndexCustomers | cmd/otelfleetctl/apply.go:114-117 | the slug index agrees with the listing |
| ReconcilerCode.IndexPipes | cmd/otelfleetctl/apply.go:183-186 | the name index agrees with the listing |
| ReconcilerCode.FindByName | cmd/otelfleetctl/apply.go:122-130 | the loop finds the first customer of the name |
| ReconcilerCode.Tool.constructor | cmd/otelfleetctl/apply.go:109-119 | starts with an empty plan |
| ReconcilerCode.Tool.ApplySpec | cmd/otelfleetctl/apply.go:89-176 | the loops over the spec compute the specified server and plan, or stop at the first failed call |
| ReconcilerCode.Tool.ApplyOne | cmd/otelfleetctl/apply.go:120-172 | one customer: match, create, reconcile |
| ReconcilerCode.Tool.ReconcileCustomer | cmd/otelfleetctl/apply.go:142-172 | one existing customer: name, quota, retention, pipelines |
| ReconcilerCode.Tool.ApplyPipelines | cmd/otelfleetctl/apply.go:178-231 | the loop over a customer's pipeline specs |
| ReconcilerCode.Tool.ApplyPipeline | cmd/otelfleetctl/apply.go:187-229 | one pipeline: create, compare, new version, activate |
| ReconcilerCode.Tool.WouldCreate | cmd/otelfleetctl/apply.go:163-169 | a dry run plans the pipelines of a new customer |
| Billing.Compute | internal/billing/billing.go:40-72 | the lines are the priced costs in 64-bit arithmetic, sorted by amount and name with ties in input order, and the total is their wrapped sum; in range both are exact |
| Billing.PriceLines | internal/billing/billing.go:50-64 | the loop prices each cost and accumulates the total, wrapping to 64 bits; exact in range |
| Billing.PriceLine | internal/billing/billing.go:51-62 | in range, a line carries the two exact quotients and their sum |
| Billing.MulDiv | internal/billing/billing.go:74-84 | the floored quotient, exact where it fits 64 bits |
| Billing.TotalPermutes | internal/billing/billing.go:63-71 | sorting the lines does not change the total |
| Billing.SplitExactly | internal/billing/billing.go:74-84 | pricing whole costs the parts' prices plus the whole divisors in the parts' remainders; the two are equal exactly when these remainders together stay below one divisor |
| Billing.SplitPricing | internal/billing/billing.go:74-84 | so pricing usage in n parts never costs more than whole and falls short by at most n - 1 |
| Billing.SplitTight | internal/billing/billing.go:74-84 | the shortfall is reached for every n: n single units at price n - 1 and divisor n cost nothing, whole they cost n - 1 |

## Left out

- YAML and JSON text, and the numeral a JSON number is printed as; configs and graphs are compared as trees.
- The constant receivers, extensions and telemetry sections of a config, which no pipeline influences.
- Quoting of control and non-ASCII characters in routing conditions; client IDs are `cust_` and hex digits.
- What `otelcol validate` decides (its verdict is a parameter), config distribution, audit entries and config hashes.
- Reads that change while one check runs: in `PipelineOverlap` a check reads the tables at one moment.
- Issuing per-agent OpAMP tokens (what a token authorizes is modelled), effective configs, agent names and labels, gateway agents without a customer.
- Bootstrap token counts: the usability check and the increment are not one transaction.
- Reading the API key from request headers, and usage flushing of ingest keys.
- The quota processor's telemetry, and limits that arrive as other integer types or strings.
- Single sign-on, sessions, roles, SCIM, webhooks, retention, statistics, log queries: thin handlers or I/O.
- The order of issues in a rejected graph, which the code leaves to map iteration; only their paths are stated.
- Colours and error marking of spans: easy members.
- Values.ToNodeInjective: does not model the conversion of a number to the numeral it is printed as, because number parsing is library code; a number is that numeral, so numbers that print alike are one value.
- Values.EncodeNode: takes numbers as the numerals they are printed as, for the same reason.
- FleetPerAgent.AgentAlone: leaves out failing writes, after which memory and row may differ.
- FleetTransparency.CacheTransparent: leaves out deletions, which take events out of the whole log; AgentAlone has them.
- FleetAgreement.CloseTakesOffline: goes one way; CloseByHistory has the exact condition on the history.
- ReconcilerPlans.DryPlanExactly: requires that no two specs mean one listed customer; a real run lists that customer's pipelines afresh for the second one, a dry run cannot.
- PipelineService.Service.PrepareVersion: requires the customer row, which its callers have read.
- TokenBucket.Registry.Take: requires a positive limit, as the processor's gate in front of it does; at rate zero the hint divides by zero.
