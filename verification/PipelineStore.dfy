/** Customers, pipelines and their versions, as the tables hold them and the service changes
    them; each call is one step. */
module PipelineStore {
  import opened Prelude
  import opened Values
  import opened Validation
  import opened Rendering
  import opened Secrets
  import Renderer
  import Slugs
  import Text

  datatype Status = Active | Suspended | Deleted

  datatype Class = ForwardingClass | EdgeClass

  datatype Customer = Customer(slug: string, clientId: string, status: Status)

  /** A stored graph and the fragment persisted with it. */
  datatype Version = Version(graph: Graph, fragment: Config)

  /** Version n is versions[n - 1]; active is the number of the active one. */
  datatype Pipe = Pipe(customer: nat, name: string, target: Class, versions: seq<Version>, active: Option<nat>)

  datatype State = State(customers: map<nat, Customer>, pipelines: map<nat, Pipe>)

  /** The configured cipher, and schema validation. */
  datatype Env = Env(crypto: Crypto, schema: Schema)

  function Slug(name: string): string {
    Slugs.Derive(name)
  }

  // ---------------------------------------------------------------------
  // Renderer inputs

  /** Whether the listing of active pipelines has this one. */
  predicate Listed(st: State, target: Class, scope: Option<nat>, id: nat) {
    id in st.pipelines &&
    var p := st.pipelines[id];
    && p.target == target && p.active.Some? && 1 <= p.active.value <= |p.versions|
    && p.customer in st.customers && st.customers[p.customer].status.Active?
    && (scope.Some? ==> p.customer == scope.value)
  }

  /** A listed pipeline as the renderer sees it; None if its secrets cannot be decrypted. */
  ghost function Input(st: State, env: Env, id: nat): Option<RenderPipeline> {
    if id !in st.pipelines then None else
    var p := st.pipelines[id];
    if p.active.None? || !(1 <= p.active.value <= |p.versions|) || p.customer !in st.customers then None else
    var plain := Decrypt(p.versions[p.active.value - 1].graph, env.crypto);
    var c := st.customers[p.customer];
    if plain.None? then None else Some(RenderPipeline(c.slug, c.clientId, Slug(p.name), plain.value))
  }

  ghost function Inputs(st: State, env: Env, ids: seq<nat>): Option<seq<RenderPipeline>> {
    if ids == [] then Some([]) else
    var init, last := Inputs(st, env, ids[..|ids| - 1]), Input(st, env, ids[|ids| - 1]);
    if init.None? || last.None? then None else Some(init.value + [last.value])
  }

  /** The identifiers of a listing, in some order. */
  ghost predicate Listing(st: State, target: Class, scope: Option<nat>, exclude: Option<nat>, ids: seq<nat>) {
    && (forall i, j :: 0 <= i < j < |ids| ==> ids[i] != ids[j])
    && (forall id: nat :: id in ids <==> Listed(st, target, scope, id) && exclude != Some(id))
  }

  ghost predicate OthersReadable(st: State, env: Env, target: Class, scope: Option<nat>, exclude: Option<nat>) {
    forall id: nat :: Listed(st, target, scope, id) && exclude != Some(id) ==> Input(st, env, id).Some?
  }

  // ---------------------------------------------------------------------
  // Customers

  predicate SlugTaken(st: State, slug: string) {
    exists id <- st.customers :: st.customers[id].slug == slug
  }

  predicate ClientTaken(st: State, clientId: string) {
    exists id <- st.customers :: st.customers[id].clientId == clientId
  }

  const MAX_ATTEMPTS := 10

  /** The slug and client ID claimed by the retry loop, from an attempt on: a taken derived slug
      moves on to the next numbered one, a taken client ID is drawn again. */
  function Claim(st: State, base: string, derived: bool, slug: string, clientIds: seq<string>, attempt: nat): Option<(string, string)>
    decreases MAX_ATTEMPTS + 1 - attempt
  {
    if attempt < 1 || attempt > MAX_ATTEMPTS || attempt > |clientIds| then None
    else if SlugTaken(st, slug) then
      if derived then Claim(st, base, derived, base + "-" + Text.Itoa(attempt + 1), clientIds, attempt + 1) else None
    else if ClientTaken(st, clientIds[attempt - 1]) then Claim(st, base, derived, slug, clientIds, attempt + 1)
    else Some((slug, clientIds[attempt - 1]))
  }

  /** CreateCustomer: clientIds are the ones drawn, one per attempt. */
  function AddCustomer(st: State, id: nat, name: string, slug: Option<string>, clientIds: seq<string>): State {
    var name := Text.TrimSpace(name);
    if name == "" || |name| > 200 || (slug.Some? && !Slugs.ValidSlug(slug.value)) || id in st.customers then st else
    var base := if slug.Some? then slug.value else Slugs.Derive(name);
    var claimed := Claim(st, base, slug.None?, base, clientIds, 1);
    if claimed.None? then st else st.(customers := st.customers[id := Customer(claimed.value.0, claimed.value.1, Active)])
  }

  function SetStatus(st: State, id: nat, status: Status): State {
    if id !in st.customers || st.customers[id].status.Deleted? then st
    else st.(customers := st.customers[id := st.customers[id].(status := status)])
  }

  // ---------------------------------------------------------------------
  // Pipelines

  function Scope(target: Class, customer: nat): Option<nat> {
    if target.EdgeClass? then Some(customer) else None
  }

  ghost function FragmentOf(target: Class, p: RenderPipeline): Config {
    if target.EdgeClass? then EdgeFragment(p) else Fragment(p)
  }

  ghost function RenderedFor(target: Class, ps: seq<RenderPipeline>): Result<Config, string> {
    if target.EdgeClass? then Renderer.RenderedEdge(ps) else Renderer.Rendered(ps)
  }

  /** Whether the full config with the candidate renders, whatever order the others are listed in. */
  ghost predicate RendersWith(st: State, env: Env, target: Class, scope: Option<nat>, exclude: Option<nat>, candidate: RenderPipeline) {
    forall ids :: Listing(st, target, scope, exclude, ids) && Inputs(st, env, ids).Some? ==>
      RenderedFor(target, Inputs(st, env, ids).value + [candidate]).Ok?
  }

  /** Encrypts, validates the plaintext, renders it into the full config, and renders the redacted
      fragment. `accepted` is the verdict of the collector binary on the full config. */
  ghost function Prepare(st: State, env: Env, customer: nat, name: string, target: Class, exclude: Option<nat>,
                         g: Graph, prev: Option<Graph>, draw: Draw, accepted: bool): Option<Version>
  {
    if customer !in st.customers then None else
    var stored := Encrypt(g, env.crypto, Index(prev), draw);
    if !stored.Stored? then None else
    var plain := Decrypt(stored.graph, env.crypto);
    if plain.None? || !OthersReadable(st, env, target, Scope(target, customer), exclude) then None else
    if !StructurallyValid(plain.value, env.schema) || !accepted then None else
    var c := st.customers[customer];
    if !RendersWith(st, env, target, Scope(target, customer), exclude,
        RenderPipeline(c.slug, c.clientId, Slug(name), plain.value)) then None else
    Some(Version(stored.graph, FragmentOf(target, RenderPipeline(c.slug, c.clientId, Slug(name), Redact(stored.graph)))))
  }

  /** Whether the customer already has a pipeline with this slug. */
  predicate PipeSlugTaken(st: State, customer: nat, slug: string) {
    exists id <- st.pipelines :: st.pipelines[id].customer == customer && Slug(st.pipelines[id].name) == slug
  }

  ghost function Create(st: State, env: Env, id: nat, customer: nat, name: string, target: Class, g: Graph, draw: Draw,
                        accepted: bool): State {
    var name := Text.TrimSpace(name);
    if name == "" || |name| > 200 || Slug(name) == "" || id in st.pipelines then st else
    if customer !in st.customers || st.customers[customer].status.Deleted? then st else
    if PipeSlugTaken(st, customer, Slug(name)) then st else
    var v := Prepare(st, env, customer, name, target, None, g, None, draw, accepted);
    if v.None? then st else st.(pipelines := st.pipelines[id := Pipe(customer, name, target, [v.value], None)])
  }

  function LatestGraph(p: Pipe): Option<Graph> {
    if p.versions == [] then None else Some(p.versions[|p.versions| - 1].graph)
  }

  ghost function CreateVersion(st: State, env: Env, id: nat, g: Graph, draw: Draw, accepted: bool): State {
    if id !in st.pipelines then st else
    var p := st.pipelines[id];
    var v := Prepare(st, env, p.customer, p.name, p.target, Some(id), g, LatestGraph(p), draw, accepted);
    if v.None? then st else st.(pipelines := st.pipelines[id := p.(versions := p.versions + [v.value])])
  }

  function Activate(st: State, id: nat, version: nat): State {
    if id !in st.pipelines || !(1 <= version <= |st.pipelines[id].versions|) then st
    else st.(pipelines := st.pipelines[id := st.pipelines[id].(active := Some(version))])
  }

  function Delete(st: State, id: nat): State {
    st.(pipelines := st.pipelines - {id})
  }

  // ---------------------------------------------------------------------
  // Runs

  datatype Op =
    | AddCustomerOp(id: nat, name: string, slug: Option<string>, clientIds: seq<string>)
    | SetStatusOp(id: nat, status: Status)
    | CreateOp(id: nat, customer: nat, name: string, target: Class, graph: Graph, draw: Draw, accepted: bool)
    | CreateVersionOp(id: nat, graph: Graph, draw: Draw, accepted: bool)
    | ActivateOp(id: nat, version: nat)
    | DeleteOp(id: nat)

  ghost function Step(st: State, env: Env, op: Op): State {
    match op
    case AddCustomerOp(id, name, slug, clientIds) => AddCustomer(st, id, name, slug, clientIds)
    case SetStatusOp(id, status) => SetStatus(st, id, status)
    case CreateOp(id, customer, name, target, graph, draw, accepted) => Create(st, env, id, customer, name, target, graph, draw, accepted)
    case CreateVersionOp(id, graph, draw, accepted) => CreateVersion(st, env, id, graph, draw, accepted)
    case ActivateOp(id, version) => Activate(st, id, version)
    case DeleteOp(id) => Delete(st, id)
  }

  const EMPTY := State(map[], map[])

  ghost function Run(env: Env, ops: seq<Op>): State {
    if ops == [] then EMPTY else Step(Run(env, ops[..|ops| - 1]), env, ops[|ops| - 1])
  }
}
