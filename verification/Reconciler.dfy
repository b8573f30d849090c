/** The declarative export/apply tool against a server's customers and pipelines. A customer's
    identifier is its position; the server serves graphs redacted. */
module Reconciler {
  import opened Prelude
  import opened Values
  import opened Secrets
  import Slugs
  import Sorting
  import Text

  // ---------------------------------------------------------------------
  // Server

  /** A pipeline as the API shows it: the served graph of each version, and the active number. */
  datatype Pipe = Pipe(name: string, target: string, versions: seq<Graph>, active: Option<nat>)

  datatype Customer = Customer(slug: string, name: string, deleted: bool, rate: Option<int>, retention: Option<int>, pipes: seq<Pipe>)

  type Server = seq<Customer>

  datatype Call =
    | CreateCustomerCall(name: string, slug: string)
    | CreatePipelineCall(customer: nat, name: string, target: string, graph: Graph)
    | CreateVersionCall(customer: nat, pipe: nat, graph: Graph)

  /** How slugs are derived, and whatever else makes the server refuse a call. */
  datatype Env = Env(derive: (Server, string) -> string, accepts: (Server, Call) -> bool)

  predicate UsableName(name: string) {
    name != "" && |name| <= 200
  }

  predicate SlugTaken(st: Server, slug: string) {
    exists i :: 0 <= i < |st| && st[i].slug == slug
  }

  function CreateCustomer(st: Server, name: string, slug: string, env: Env): Option<Server> {
    var name' := Text.TrimSpace(name);
    var slug' := if slug == "" then env.derive(st, name') else slug;
    if !UsableName(name') || slug' == "" || SlugTaken(st, slug') || !env.accepts(st, CreateCustomerCall(name, slug)) then None
    else Some(st + [Customer(slug', name', false, None, None, [])])
  }

  /** Fields to set; an inner None clears the limit. */
  datatype Update = Update(name: Option<string>, rate: Option<Option<int>>, retention: Option<Option<int>>)

  predicate UsableUpdate(u: Update) {
    && (u.name.Some? ==> UsableName(Text.TrimSpace(u.name.value)))
    && (u.rate.Some? && u.rate.value.Some? ==> u.rate.value.value >= 1)
    && (u.retention.Some? && u.retention.value.Some? ==> 1 <= u.retention.value.value <= 30)
  }

  function Updated(c: Customer, u: Update): Customer {
    c.(name := if u.name.Some? then Text.TrimSpace(u.name.value) else c.name,
       rate := if u.rate.Some? then u.rate.value else c.rate,
       retention := if u.retention.Some? then u.retention.value else c.retention)
  }

  function UpdateCustomer(st: Server, i: nat, u: Update): Option<Server> {
    if i >= |st| || st[i].deleted || !UsableUpdate(u) then None else Some(st[i := Updated(st[i], u)])
  }

  predicate PipeTaken(pipes: seq<Pipe>, name: string) {
    exists j :: 0 <= j < |pipes| && Slugs.Derive(pipes[j].name) == Slugs.Derive(name)
  }

  function CreatePipeline(st: Server, i: nat, name: string, target: string, g: Graph, env: Env): Option<Server> {
    var name' := Text.TrimSpace(name);
    if i >= |st| || st[i].deleted || !UsableName(name') || PipeTaken(st[i].pipes, name') ||
        !env.accepts(st, CreatePipelineCall(i, name, target, g)) then None
    else Some(st[i := st[i].(pipes := st[i].pipes + [Pipe(name', target, [Redact(g)], None)])])
  }

  function CreateVersion(st: Server, i: nat, j: nat, g: Graph, env: Env): Option<Server> {
    if i >= |st| || j >= |st[i].pipes| || !env.accepts(st, CreateVersionCall(i, j, g)) then None else
    var p := st[i].pipes[j];
    Some(st[i := st[i].(pipes := st[i].pipes[j := p.(versions := p.versions + [Redact(g)])])])
  }

  function ActivateVersion(st: Server, i: nat, j: nat, version: nat): Option<Server> {
    if i >= |st| || j >= |st[i].pipes| || !(1 <= version <= |st[i].pipes[j].versions|) then None else
    Some(st[i := st[i].(pipes := st[i].pipes[j := st[i].pipes[j].(active := Some(version))])])
  }

  // ---------------------------------------------------------------------
  // Specs

  /** A desired graph; a list left out is not the empty list. */
  datatype GraphSpec = GraphSpec(signals: Option<seq<string>>, processors: Option<seq<Node>>, exporters: Option<seq<Node>>)

  datatype PipeSpec = PipeSpec(name: string, target: string, graph: GraphSpec)

  datatype CustomerSpec = CustomerSpec(name: string, slug: string, rate: Option<int>, retention: Option<int>, pipes: seq<PipeSpec>)

  type Spec = seq<CustomerSpec>

  /** A served graph always has its lists. */
  function Explicit(g: Graph): GraphSpec {
    GraphSpec(Some(g.signals), Some(g.processors), Some(g.exporters))
  }

  function OrEmpty<T>(xs: Option<seq<T>>): seq<T> {
    if xs.Some? then xs.value else []
  }

  /** The graph the server reads from a request. */
  function Given(g: GraphSpec): Graph {
    Graph(OrEmpty(g.signals), OrEmpty(g.processors), OrEmpty(g.exporters))
  }

  function DefaultTarget(target: string): string {
    if target == "" then "forwarding" else target
  }

  // ---------------------------------------------------------------------
  // Export

  /** The number of the version to compare with: the active one, else the latest. */
  function CurrentVersion(p: Pipe): Option<nat> {
    if p.active.Some? then p.active else if p.versions != [] then Some(|p.versions|) else None
  }

  function CurrentGraph(p: Pipe): Option<Graph> {
    var v := CurrentVersion(p);
    if v.None? || !(1 <= v.value <= |p.versions|) then None else Some(p.versions[v.value - 1])
  }

  function ExportPipes(pipes: seq<Pipe>): seq<PipeSpec> {
    if pipes == [] then [] else
    var p := pipes[|pipes| - 1];
    ExportPipes(pipes[..|pipes| - 1]) + match CurrentGraph(p) case Some(g) => [PipeSpec(p.name, p.target, Explicit(g))] case None => []
  }

  function ExportCustomer(c: Customer): CustomerSpec {
    CustomerSpec(c.name, c.slug, c.rate, c.retention, ExportPipes(c.pipes))
  }

  predicate SlugLe(a: Customer, b: Customer) {
    Sorting.StringLe(a.slug, b.slug)
  }

  function ExportAll(cs: seq<Customer>): Spec {
    if cs == [] then [] else
    ExportAll(cs[..|cs| - 1]) + if cs[|cs| - 1].deleted then [] else [ExportCustomer(cs[|cs| - 1])]
  }

  function Export(st: Server): Spec {
    ExportAll(Sorting.Sort(st, SlugLe))
  }

  // ---------------------------------------------------------------------
  // Apply

  datatype Change =
    | AddCustomer(name: string)
    | ChangeCustomer(slug: string, update: Update)
    | AddPipe(customer: string, name: string)
    | WouldAddPipe(name: string, target: string, customer: string)
    | ChangePipe(customer: string, name: string)

  /** Where a run stands: the server and the plan so far, or that a call failed. */
  datatype Progress = Halted | Running(server: Server, plan: seq<Change>)

  /** The customer with this slug in a listing: the last one listed, if several. */
  function BySlug(st: Server, slug: string): (found: Option<nat>)
    ensures found.Some? ==> found.value < |st| && !st[found.value].deleted && st[found.value].slug == slug
    ensures forall i :: (if found.Some? then found.value < i else 0 <= i) && i < |st| && st[i].slug == slug ==> st[i].deleted
  {
    if st == [] then None
    else if !st[|st| - 1].deleted && st[|st| - 1].slug == slug then Some(|st| - 1)
    else BySlug(st[..|st| - 1], slug)
  }

  /** The first customer listed with this name. */
  function ByName(st: Server, name: string): (found: Option<nat>)
    ensures found.Some? ==> found.value < |st| && !st[found.value].deleted && st[found.value].name == name
    ensures forall i :: 0 <= i < (if found.Some? then found.value else |st|) && st[i].name == name ==> st[i].deleted
  {
    if st == [] then None else
    var before := ByName(st[..|st| - 1], name);
    if before.Some? then before
    else if !st[|st| - 1].deleted && st[|st| - 1].name == name then Some(|st| - 1) else None
  }

  function Match(listed: Server, cs: CustomerSpec): Option<nat> {
    var found := BySlug(listed, cs.slug);
    if found.None? && cs.slug == "" then ByName(listed, cs.name) else found
  }

  function Differences(c: Customer, cs: CustomerSpec): Update {
    Update(if c.name != cs.name then Some(cs.name) else None,
           if c.rate != cs.rate then Some(cs.rate) else None,
           if c.retention != cs.retention then Some(cs.retention) else None)
  }

  const NOTHING := Update(None, None, None)

  /** The pipeline with this name in a listing: the last one listed, if several. */
  function PipeByName(pipes: seq<Pipe>, name: string): (found: Option<nat>)
    ensures found.Some? ==> found.value < |pipes| && pipes[found.value].name == name
    ensures forall j :: (if found.Some? then found.value < j else 0 <= j) && j < |pipes| ==> pipes[j].name != name
  {
    if pipes == [] then None
    else if pipes[|pipes| - 1].name == name then Some(|pipes| - 1)
    else PipeByName(pipes[..|pipes| - 1], name)
  }

  /** One pipeline spec of customer i, whose pipelines were listed before. */
  function ApplyPipe(listed: seq<Pipe>, at: Progress, i: nat, slug: string, ps: PipeSpec, dry: bool, env: Env): Progress {
    if at.Halted? then Halted else
    var found := PipeByName(listed, ps.name);
    if found.None? then
      var plan := at.plan + [AddPipe(slug, ps.name)];
      if dry then Running(at.server, plan) else
      var created := CreatePipeline(at.server, i, ps.name, DefaultTarget(ps.target), Given(ps.graph), env);
      if created.None? || i >= |created.value| || created.value[i].pipes == [] then Halted else
      var activated := ActivateVersion(created.value, i, |created.value[i].pipes| - 1, 1);
      if activated.None? then Halted else Running(activated.value, plan)
    else
      var j := found.value;
      var current := CurrentGraph(listed[j]);
      if CurrentVersion(listed[j]).Some? && current.None? then Halted
      else if current.Some? && Explicit(current.value) == ps.graph then at else
      var plan := at.plan + [ChangePipe(slug, ps.name)];
      if dry then Running(at.server, plan) else
      var created := CreateVersion(at.server, i, j, Given(ps.graph), env);
      if created.None? || i >= |created.value| || j >= |created.value[i].pipes| then Halted else
      var activated := ActivateVersion(created.value, i, j, |created.value[i].pipes[j].versions|);
      if activated.None? then Halted else Running(activated.value, plan)
  }

  function ApplyPipes(listed: seq<Pipe>, at: Progress, i: nat, slug: string, specs: seq<PipeSpec>, dry: bool, env: Env): Progress {
    if specs == [] then at else
    ApplyPipe(listed, ApplyPipes(listed, at, i, slug, specs[..|specs| - 1], dry, env), i, slug, specs[|specs| - 1], dry, env)
  }

  /** Bring customer i, last seen as c, to its spec. */
  function Reconcile(at: Progress, i: nat, c: Customer, cs: CustomerSpec, dry: bool, env: Env): Progress {
    if at.Halted? then Halted else
    var u := Differences(c, cs);
    var plan := at.plan + if u == NOTHING then [] else [ChangeCustomer(cs.slug, u)];
    var updated := if u == NOTHING || dry then Some(at.server) else UpdateCustomer(at.server, i, u);
    if updated.None? || i >= |updated.value| then Halted
    else ApplyPipes(updated.value[i].pipes, Running(updated.value, plan), i, c.slug, cs.pipes, dry, env)
  }

  /** What a dry run says about the pipelines of a customer that does not exist yet. */
  function WouldAdd(cs: CustomerSpec): seq<Change> {
    seq(|cs.pipes|, j requires 0 <= j < |cs.pipes| => WouldAddPipe(cs.pipes[j].name, cs.pipes[j].target, cs.name))
  }

  /** One customer spec, matched against the customers listed at the start. */
  function ApplyCustomer(listed: Server, at: Progress, cs: CustomerSpec, dry: bool, env: Env): Progress {
    if at.Halted? then Halted else
    var found := Match(listed, cs);
    if found.Some? then Reconcile(at, found.value, listed[found.value], cs, dry, env) else
    var plan := at.plan + [AddCustomer(cs.name)];
    if dry then Running(at.server, plan + WouldAdd(cs)) else
    var created := CreateCustomer(at.server, cs.name, cs.slug, env);
    if created.None? || created.value == [] then Halted else
    var i := |created.value| - 1;
    Reconcile(Running(created.value, plan), i, created.value[i], cs, dry, env)
  }

  function ApplyAll(listed: Server, spec: Spec, dry: bool, env: Env): Progress {
    if spec == [] then Running(listed, []) else
    ApplyCustomer(listed, ApplyAll(listed, spec[..|spec| - 1], dry, env), spec[|spec| - 1], dry, env)
  }

  function Apply(st: Server, spec: Spec, dry: bool, env: Env): Progress {
    ApplyAll(st, spec, dry, env)
  }
}
