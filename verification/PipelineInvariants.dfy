/** In every state the service can reach, the active pipelines render: no duplicate key, no
    dangling reference, and items go exactly where the pipelines of their tenant send them. */
module PipelineInvariants {
  import opened Prelude
  import opened Values
  import opened Naming
  import opened Validation
  import opened Rendering
  import opened Secrets
  import opened PipelineStore
  import opened Catalog
  import SecretHistory
  import Collector
  import CompilerCorrectness
  import CompilerEdge
  import Renderer
  import Sorting
  import Slugs
  import Text

  // ---------------------------------------------------------------------
  // The invariant

  ghost predicate CustomersOk(st: State) {
    && (forall id <- st.customers :: Plain(st.customers[id].slug))
    && (forall a <- st.customers, b <- st.customers :: a != b ==>
          st.customers[a].slug != st.customers[b].slug && st.customers[a].clientId != st.customers[b].clientId)
  }

  ghost predicate VersionOk(env: Env, v: Version) {
    var plain := Decrypt(v.graph, env.crypto);
    plain.Some? && StructurallyValid(plain.value, env.schema)
  }

  ghost predicate PipeOk(env: Env, p: Pipe) {
    && (forall v <- p.versions :: VersionOk(env, v))
    && (p.active.Some? ==> 1 <= p.active.value <= |p.versions|)
  }

  /** The persisted fragment is the redacted graph's, under the pipeline's own identity. */
  ghost predicate FragmentsOk(st: State, p: Pipe) {
    p.customer in st.customers &&
    forall v <- p.versions :: v.fragment ==
      FragmentOf(p.target, RenderPipeline(st.customers[p.customer].slug, st.customers[p.customer].clientId, Slug(p.name), Redact(v.graph)))
  }

  ghost predicate SlugsApart(st: State) {
    forall a <- st.pipelines, b <- st.pipelines :: a != b && st.pipelines[a].customer == st.pipelines[b].customer ==>
      Slug(st.pipelines[a].name) != Slug(st.pipelines[b].name)
  }

  ghost predicate TablesOk(st: State, env: Env) {
    && CustomersOk(st)
    && (forall id <- st.pipelines :: PipeOk(env, st.pipelines[id]))
    && (forall id <- st.pipelines :: FragmentsOk(st, st.pipelines[id]))
  }

  ghost predicate Inv(st: State, env: Env) {
    TablesOk(st, env) && SlugsApart(st)
  }

  // ---------------------------------------------------------------------
  // Customers

  lemma SlugPlain(s: string)
    requires Slugs.ValidSlug(s)
    ensures Plain(s)
  {
  }

  lemma NumberedPlain(base: string, n: nat)
    requires Plain(base)
    ensures Plain(base + "-" + Text.Itoa(n))
  {
    hide Text.Itoa;
    Text.ItoaDigits(n);
  }

  /** A claimed slug and client ID are free, and the slug has no underscore. */
  lemma {:induction false} ClaimFree(st: State, base: string, derived: bool, slug: string, clientIds: seq<string>, attempt: nat)
    requires Plain(base) && Plain(slug)
    ensures var r := Claim(st, base, derived, slug, clientIds, attempt);
            r.Some? ==> Plain(r.value.0) && !SlugTaken(st, r.value.0) && !ClientTaken(st, r.value.1)
    decreases MAX_ATTEMPTS + 1 - attempt
  {
    hide SlugTaken, ClientTaken, Text.Itoa, Plain;
    if 1 <= attempt <= MAX_ATTEMPTS {
      NumberedPlain(base, attempt + 1);
      ClaimFree(st, base, derived, base + "-" + Text.Itoa(attempt + 1), clientIds, attempt + 1);
      ClaimFree(st, base, derived, slug, clientIds, attempt + 1);
    }
  }

  lemma BaseClaim(st: State, name: string, slug: Option<string>, clientIds: seq<string>)
    requires slug.Some? ==> Slugs.ValidSlug(slug.value)
    ensures var base := if slug.Some? then slug.value else Slugs.Derive(name);
            var r := Claim(st, base, slug.None?, base, clientIds, 1);
            r.Some? ==> Plain(r.value.0) && !SlugTaken(st, r.value.0) && !ClientTaken(st, r.value.1)
  {
    hide Claim, Slugs.Derive, Plain, SlugTaken, ClientTaken;
    var base := if slug.Some? then slug.value else Slugs.Derive(name);
    Slugs.DeriveValid(name);
    SlugPlain(base);
    ClaimFree(st, base, slug.None?, base, clientIds, 1);
  }

  /** Pipelines that keep their customers' identities keep their fragments. */
  ghost predicate SameIdentities(a: State, b: State) {
    && a.pipelines == b.pipelines
    && forall id <- a.customers :: id in b.customers && b.customers[id].slug == a.customers[id].slug &&
        b.customers[id].clientId == a.customers[id].clientId
  }

  lemma FragmentsKept(a: State, b: State, env: Env)
    requires TablesOk(a, env) && SameIdentities(a, b) && CustomersOk(b)
    ensures TablesOk(b, env)
  {
    hide FragmentOf, VersionOk, Redact, Slug;
    forall id <- b.pipelines ensures FragmentsOk(b, b.pipelines[id]) {
      assert FragmentsOk(a, a.pipelines[id]);
    }
  }

  lemma CustomerAdded(st: State, env: Env, id: nat, slug: string, clientId: string)
    requires TablesOk(st, env) && id !in st.customers && Plain(slug) && !SlugTaken(st, slug) && !ClientTaken(st, clientId)
    ensures TablesOk(st.(customers := st.customers[id := Customer(slug, clientId, Active)]), env)
  {
    hide PipeOk, FragmentsOk, Plain;
    FragmentsKept(st, st.(customers := st.customers[id := Customer(slug, clientId, Active)]), env);
  }

  lemma AddCustomerKeeps(st: State, env: Env, id: nat, name: string, slug: Option<string>, clientIds: seq<string>)
    requires TablesOk(st, env)
    ensures TablesOk(AddCustomer(st, id, name, slug, clientIds), env) && SameIdentities(st, AddCustomer(st, id, name, slug, clientIds))
  {
    hide TablesOk, Claim, Plain, SlugTaken, ClientTaken, Slugs.ValidSlug, Slugs.Derive, Text.TrimSpace;
    if slug.None? || Slugs.ValidSlug(slug.value) {
      BaseClaim(st, Text.TrimSpace(name), slug, clientIds);
      var base := if slug.Some? then slug.value else Slugs.Derive(Text.TrimSpace(name));
      var r := Claim(st, base, slug.None?, base, clientIds, 1);
      if r.Some? && id !in st.customers {
        CustomerAdded(st, env, id, r.value.0, r.value.1);
      }
    }
  }

  lemma SetStatusKeeps(st: State, env: Env, id: nat, status: Status)
    requires TablesOk(st, env)
    ensures TablesOk(SetStatus(st, id, status), env) && SameIdentities(st, SetStatus(st, id, status))
  {
    hide PipeOk, FragmentsOk, Plain;
    FragmentsKept(st, SetStatus(st, id, status), env);
  }

  // ---------------------------------------------------------------------
  // Pipelines

  /** Another pipeline of the customer has the slug. */
  ghost predicate Rivalled(st: State, id: nat, p: Pipe) {
    exists b <- st.pipelines :: b != id && st.pipelines[b].customer == p.customer && Slug(st.pipelines[b].name) == Slug(p.name)
  }

  /** Replacing or adding one pipeline. */
  lemma PipePut(st: State, env: Env, id: nat, p: Pipe)
    requires TablesOk(st, env) && PipeOk(env, p) && FragmentsOk(st, p)
    ensures TablesOk(st.(pipelines := st.pipelines[id := p]), env)
    ensures SlugsApart(st) && !Rivalled(st, id, p) ==> SlugsApart(st.(pipelines := st.pipelines[id := p]))
  {
    hide PipeOk, Slug, CustomersOk, FragmentOf, Redact;
    var st' := st.(pipelines := st.pipelines[id := p]);
    assert CustomersOk(st') by { CustomersSame(st, st'); }
    forall i <- st'.pipelines ensures FragmentsOk(st', st'.pipelines[i]) {
      assert i != id ==> FragmentsOk(st, st.pipelines[i]);
    }
  }

  lemma CustomersSame(a: State, b: State)
    requires CustomersOk(a) && a.customers == b.customers
    ensures CustomersOk(b)
  {
  }

  lemma Prepared(st: State, env: Env, customer: nat, name: string, target: Class, exclude: Option<nat>,
                 g: Graph, prev: Option<Graph>, draw: Draw, accepted: bool)
    ensures var v := Prepare(st, env, customer, name, target, exclude, g, prev, draw, accepted);
            v.Some? ==>
              && VersionOk(env, v.value) && customer in st.customers
              && v.value.fragment ==
                 FragmentOf(target, RenderPipeline(st.customers[customer].slug, st.customers[customer].clientId,
                     Slug(name), Redact(v.value.graph)))
  {
    hide Encrypt, Decrypt, Redact, StructurallyValid, FragmentOf, Slug, OthersReadable, Index, RendersWith;
  }

  lemma CreateKeeps(st: State, env: Env, id: nat, customer: nat, name: string, target: Class, g: Graph, draw: Draw, accepted: bool)
    requires Inv(st, env)
    ensures Inv(Create(st, env, id, customer, name, target, g, draw, accepted), env)
  {
    hide Prepare, TablesOk, VersionOk, FragmentOf, Redact, Text.TrimSpace, Slug;
    var name' := Text.TrimSpace(name);
    Prepared(st, env, customer, name', target, None, g, None, draw, accepted);
    var v := Prepare(st, env, customer, name', target, None, g, None, draw, accepted);
    if v.Some? && !PipeSlugTaken(st, customer, Slug(name')) {
      PipePut(st, env, id, Pipe(customer, name', target, [v.value], None));
    }
  }

  lemma PipeFacts(st: State, env: Env, id: nat)
    requires TablesOk(st, env) && id in st.pipelines
    ensures PipeOk(env, st.pipelines[id]) && FragmentsOk(st, st.pipelines[id])
    ensures SlugsApart(st) ==> forall b <- st.pipelines :: b != id && st.pipelines[b].customer == st.pipelines[id].customer ==>
              Slug(st.pipelines[b].name) != Slug(st.pipelines[id].name)
  {
    hide PipeOk, FragmentsOk, Slug;
  }

  lemma CreateVersionKeeps(st: State, env: Env, id: nat, g: Graph, draw: Draw, accepted: bool)
    requires Inv(st, env)
    ensures Inv(CreateVersion(st, env, id, g, draw, accepted), env)
  {
    hide Prepare, TablesOk, VersionOk, FragmentOf, Redact, Slug;
    if id in st.pipelines {
      var p := st.pipelines[id];
      PipeFacts(st, env, id);
      Prepared(st, env, p.customer, p.name, p.target, Some(id), g, LatestGraph(p), draw, accepted);
      var v := Prepare(st, env, p.customer, p.name, p.target, Some(id), g, LatestGraph(p), draw, accepted);
      if v.Some? {
        PipePut(st, env, id, p.(versions := p.versions + [v.value]));
      }
    }
  }

  /** A new version of a pipeline remembers: at each secret it decrypts to the text submitted, or
      to what the latest version held where the sentinel was submitted. */
  lemma VersionRemembers(st: State, env: Env, id: nat, g: Graph, draw: Draw, accepted: bool, i: nat, f: Field)
    requires Inv(st, env) && Correct(env.crypto) && id in st.pipelines && CreateVersion(st, env, id, g, draw, accepted) != st
    ensures id in CreateVersion(st, env, id, g, draw, accepted).pipelines
    ensures var p, q := st.pipelines[id], CreateVersion(st, env, id, g, draw, accepted).pipelines[id];
            && |q.versions| == |p.versions| + 1
            && Decrypt(q.versions[|p.versions|].graph, env.crypto).Some?
            && SecretAt(Decrypt(q.versions[|p.versions|].graph, env.crypto).value, i, f) ==
               Resolve(env.crypto, SecretAt(g, i, f), PrevAt(SecretHistory.Plain(env.crypto, LatestGraph(p)), i, f))
  {
    hide TablesOk, SlugsApart, Prepare, SecretAt, Resolve, Decrypt, PrevAt;
    var p, c := st.pipelines[id], env.crypto;
    var v := Prepare(st, env, p.customer, p.name, p.target, Some(id), g, LatestGraph(p), draw, accepted);
    PipeFacts(st, env, id);
    PreparedAccepts(st, env, p.customer, p.name, p.target, Some(id), g, LatestGraph(p), draw, accepted);
    LatestReadable(env, p);
    SecretHistory.HistoryStep(c, LatestGraph(p), SecretHistory.Submission(g, draw, true), v.value.graph, i, f);
  }

  lemma LatestReadable(env: Env, p: Pipe)
    requires PipeOk(env, p)
    ensures LatestGraph(p).Some? ==> Decrypt(LatestGraph(p).value, env.crypto).Some?
  {
    hide Decrypt, StructurallyValid;
    if p.versions != [] {
      assert p.versions[|p.versions| - 1] in p.versions;
    }
  }

  lemma PreparedAccepts(st: State, env: Env, customer: nat, name: string, target: Class, exclude: Option<nat>,
                        g: Graph, prev: Option<Graph>, draw: Draw, accepted: bool)
    ensures var v := Prepare(st, env, customer, name, target, exclude, g, prev, draw, accepted);
            v.Some? ==> SecretHistory.Accept(env.crypto, prev, SecretHistory.Submission(g, draw, true)) == Some(v.value.graph)
  {
    hide Encrypt, Decrypt, Redact, StructurallyValid, FragmentOf, Slug, OthersReadable, Index, RendersWith;
  }

  lemma ActivateKeeps(st: State, env: Env, id: nat, version: nat)
    requires TablesOk(st, env)
    ensures TablesOk(Activate(st, id, version), env) && (SlugsApart(st) ==> SlugsApart(Activate(st, id, version)))
  {
    hide TablesOk, VersionOk, FragmentOf, Redact, Slug;
    if id in st.pipelines && 1 <= version <= |st.pipelines[id].versions| {
      PipeFacts(st, env, id);
      PipePut(st, env, id, st.pipelines[id].(active := Some(version)));
    }
  }

  lemma DeleteKeeps(st: State, env: Env, id: nat)
    requires TablesOk(st, env)
    ensures TablesOk(Delete(st, id), env) && (SlugsApart(st) ==> SlugsApart(Delete(st, id)))
  {
    hide PipeOk, Slug, CustomersOk, FragmentOf, Redact;
    var st' := Delete(st, id);
    CustomersSame(st, st');
    forall i <- st'.pipelines ensures FragmentsOk(st', st'.pipelines[i]) {
      assert FragmentsOk(st, st.pipelines[i]);
    }
  }

  lemma StepKeeps(st: State, env: Env, op: Op)
    requires Inv(st, env)
    ensures Inv(Step(st, env, op), env)
  {
    hide TablesOk, AddCustomer, SetStatus, Create, CreateVersion, Activate, Delete, Slug;
    match op
    case AddCustomerOp(id, name, slug, clientIds) => AddCustomerKeeps(st, env, id, name, slug, clientIds);
    case SetStatusOp(id, status) => SetStatusKeeps(st, env, id, status);
    case CreateOp(id, customer, name, target, graph, draw, accepted) =>
      CreateKeeps(st, env, id, customer, name, target, graph, draw, accepted);
    case CreateVersionOp(id, graph, draw, accepted) => CreateVersionKeeps(st, env, id, graph, draw, accepted);
    case ActivateOp(id, version) => ActivateKeeps(st, env, id, version);
    case DeleteOp(id) => DeleteKeeps(st, env, id);
  }

  lemma {:induction false} RunKeeps(env: Env, ops: seq<Op>)
    ensures Inv(Run(env, ops), env)
  {
    hide Step;
    if ops != [] {
      RunKeeps(env, ops[..|ops| - 1]);
      StepKeeps(Run(env, ops[..|ops| - 1]), env, ops[|ops| - 1]);
    }
  }

  // ---------------------------------------------------------------------
  // Rendering a reachable state

  lemma InputReadable(st: State, env: Env, target: Class, scope: Option<nat>, id: nat)
    requires TablesOk(st, env) && Listed(st, target, scope, id)
    ensures Input(st, env, id).Some?
    ensures var p := Input(st, env, id).value;
            Plain(p.customer) && Plain(p.pipeline) && StructurallyValid(p.graph, env.schema)
    ensures Input(st, env, id).value.customer == st.customers[st.pipelines[id].customer].slug
         && Input(st, env, id).value.clientId == st.customers[st.pipelines[id].customer].clientId
         && Input(st, env, id).value.pipeline == Slug(st.pipelines[id].name)
  {
    hide Decrypt, StructurallyValid, FragmentsOk, Slugs.Derive;
    var p := st.pipelines[id];
    var v := p.versions[p.active.value - 1];
    assert PipeOk(env, p) && v in p.versions && VersionOk(env, v);
    Slugs.DeriveValid(p.name);
    SlugPlain(Slug(p.name));
  }

  /** The inputs of a listing, one by one. */
  lemma {:induction false} InputsAre(st: State, env: Env, ids: seq<nat>)
    requires forall id <- ids :: Input(st, env, id).Some?
    ensures var r := Inputs(st, env, ids);
            r.Some? && |r.value| == |ids| && forall i :: 0 <= i < |ids| ==> Input(st, env, ids[i]) == Some(r.value[i])
  {
    hide Input;
    if ids != [] {
      assert ids[|ids| - 1] in ids;
      InputsAre(st, env, ids[..|ids| - 1]);
    }
  }

  lemma PairsApart(st: State, env: Env, target: Class, scope: Option<nat>, a: nat, b: nat)
    requires Inv(st, env) && Listed(st, target, scope, a) && Listed(st, target, scope, b) && a != b
    ensures Input(st, env, a).Some? && Input(st, env, b).Some?
    ensures SlugPair(Input(st, env, a).value) != SlugPair(Input(st, env, b).value)
  {
    hide Input, StructurallyValid, PipeOk, FragmentsOk, Slug, Plain;
    InputReadable(st, env, target, scope, a);
    InputReadable(st, env, target, scope, b);
  }

  /** Distinct listed pipelines. */
  ghost predicate AllListed(st: State, target: Class, scope: Option<nat>, ids: seq<nat>) {
    && (forall i, j :: 0 <= i < j < |ids| ==> ids[i] != ids[j])
    && (forall i :: 0 <= i < |ids| ==> Listed(st, target, scope, ids[i]))
  }

  lemma ListingListed(st: State, target: Class, scope: Option<nat>, exclude: Option<nat>, ids: seq<nat>)
    requires Listing(st, target, scope, exclude, ids)
    ensures AllListed(st, target, scope, ids)
  {
    hide Listed;
    forall i | 0 <= i < |ids| ensures Listed(st, target, scope, ids[i]) {
      assert ids[i] in ids;
    }
  }

  lemma ListingReadable(st: State, env: Env, target: Class, scope: Option<nat>, ids: seq<nat>)
    requires TablesOk(st, env) && AllListed(st, target, scope, ids)
    ensures Inputs(st, env, ids).Some? && |Inputs(st, env, ids).value| == |ids|
    ensures forall i :: 0 <= i < |ids| ==>
              Listed(st, target, scope, ids[i]) && Input(st, env, ids[i]) == Some(Inputs(st, env, ids).value[i])
  {
    hide TablesOk, Input, Listed, Inputs;
    forall id: nat | id in ids ensures Input(st, env, id).Some? {
      var i :| 0 <= i < |ids| && ids[i] == id;
      InputReadable(st, env, target, scope, ids[i]);
    }
    InputsAre(st, env, ids);
  }

  /** The inputs of any listing are renderable. */
  lemma InputsRenderable(st: State, env: Env, target: Class, scope: Option<nat>, ids: seq<nat>)
    requires Inv(st, env) && AllListed(st, target, scope, ids)
    ensures Inputs(st, env, ids).Some? && Collector.Renderable(Inputs(st, env, ids).value, env.schema)
  {
    hide TablesOk, SlugsApart, Input, Inputs, Listed, StructurallyValid, Plain;
    ListingReadable(st, env, target, scope, ids);
    var ps := Inputs(st, env, ids).value;
    forall p <- ps ensures Plain(p.customer) && Plain(p.pipeline) && StructurallyValid(p.graph, env.schema) {
      var i :| 0 <= i < |ps| && ps[i] == p;
      InputReadable(st, env, target, scope, ids[i]);
    }
    forall i, j | 0 <= i < j < |ps| ensures SlugPair(ps[i]) != SlugPair(ps[j]) {
      PairsApart(st, env, target, scope, ids[i], ids[j]);
    }
  }

  lemma RenderableKeys(ps: seq<RenderPipeline>, schema: Schema)
    requires Collector.Renderable(ps, schema)
    ensures Sorting.Distinct(Keys(ps))
  {
    hide StructurallyValid, Plain, PipelineKey;
    forall i, j | 0 <= i < j < |ps| ensures Keys(ps)[i] != Keys(ps)[j] {
      assert ps[i] in ps && ps[j] in ps && SlugPair(ps[i]) != SlugPair(ps[j]);
      if Keys(ps)[i] == Keys(ps)[j] {
        KeyInjective(ps[i].customer, ps[i].pipeline, ps[j].customer, ps[j].pipeline);
      }
    }
  }

  /** Render order does not matter for being renderable. */
  lemma RenderablePermutes(ps: seq<RenderPipeline>, qs: seq<RenderPipeline>, schema: Schema)
    requires Collector.Renderable(ps, schema) && multiset(ps) == multiset(qs)
    ensures Collector.Renderable(qs, schema)
  {
    hide StructurallyValid, Plain;
    forall q <- qs ensures Plain(q.customer) && Plain(q.pipeline) && StructurallyValid(q.graph, schema) {
      assert q in multiset(qs) && q in ps;
    }
    Sorting.MapPermutes(ps, qs, SlugPair);
    assert forall i :: 0 <= i < |ps| ==> SlugsOf(ps)[i] == SlugPair(ps[i]);
    Sorting.DistinctPermutation(SlugsOf(ps), SlugsOf(qs));
    forall i, j | 0 <= i < j < |qs| ensures SlugPair(qs[i]) != SlugPair(qs[j]) {
      assert SlugsOf(qs)[i] == SlugPair(qs[i]) && SlugsOf(qs)[j] == SlugPair(qs[j]);
    }
  }

  /** Renderable pipelines render, in both configs, and stay renderable in render order. */
  lemma RendersWell(ps: seq<RenderPipeline>, schema: Schema)
    requires Collector.Renderable(ps, schema)
    ensures Renderer.Rendered(ps) == Ok(Forwarding(Renderer.InOrder(ps))) && Renderer.RenderedEdge(ps) == Ok(Edge(Renderer.InOrder(ps)))
    ensures Collector.Renderable(Renderer.InOrder(ps), schema)
    ensures multiset(Renderer.InOrder(ps)) == multiset(ps)
  {
    hide Collector.Renderable, Renderer.InOrder, Forwarding, Edge, Sorting.Distinct, Sorting.Sorted;
    RenderableKeys(ps, schema);
    Renderer.FailsExactly(ps);
    Renderer.InOrderSorted(ps);
    RenderablePermutes(ps, Renderer.InOrder(ps), schema);
  }

  /** Validating a candidate renders it beside the other active pipelines; where its slug is not
      taken by one of them, that rendering never meets a duplicate key. */
  lemma CandidateRenders(st: State, env: Env, target: Class, scope: Option<nat>, ids: seq<nat>, customer: nat, name: string, g: Graph)
    requires Inv(st, env) && AllListed(st, target, scope, ids) && customer in st.customers
    requires forall i :: 0 <= i < |ids| && st.pipelines[ids[i]].customer == customer ==> Slug(st.pipelines[ids[i]].name) != Slug(name)
    ensures Inputs(st, env, ids).Some?
    ensures var c := st.customers[customer];
            var all := Inputs(st, env, ids).value + [RenderPipeline(c.slug, c.clientId, Slug(name), g)];
            Renderer.Rendered(all).Ok? && Renderer.RenderedEdge(all).Ok?
  {
    hide Inputs, Input, StructurallyValid, Plain, PipeOk, FragmentsOk, PipelineKey, Slugs.Derive, Renderer.Rendered,
         Renderer.RenderedEdge, Sorting.Distinct, Keys;
    InputsRenderable(st, env, target, scope, ids);
    ListingReadable(st, env, target, scope, ids);
    var ps := Inputs(st, env, ids).value;
    var c := RenderPipeline(st.customers[customer].slug, st.customers[customer].clientId, Slug(name), g);
    RenderableKeys(ps, env.schema);
    forall i | 0 <= i < |ps| ensures Key(ps[i]) != Key(c) {
      InputReadable(st, env, target, scope, ids[i]);
      if Key(ps[i]) == Key(c) {
        KeyInjective(ps[i].customer, ps[i].pipeline, c.customer, c.pipeline);
      }
    }
    KeyAppended(ps, c);
    Renderer.FailsExactly(ps + [c]);
  }

  ghost predicate FreeAmong(st: State, ids: seq<nat>, customer: nat, name: string) {
    forall i :: 0 <= i < |ids| && ids[i] in st.pipelines && st.pipelines[ids[i]].customer == customer ==>
      Slug(st.pipelines[ids[i]].name) != Slug(name)
  }

  /** Where the slug is free among the other active pipelines of the customer, the candidate renders. */
  lemma FreeRenders(st: State, env: Env, target: Class, scope: Option<nat>, exclude: Option<nat>, customer: nat, name: string, g: Graph)
    requires Inv(st, env) && customer in st.customers
    requires forall ids :: Listing(st, target, scope, exclude, ids) ==> FreeAmong(st, ids, customer, name)
    ensures var c := st.customers[customer];
            RendersWith(st, env, target, scope, exclude, RenderPipeline(c.slug, c.clientId, Slug(name), g))
  {
    hide Inv, Inputs, Listing, Renderer.Rendered, Renderer.RenderedEdge, Slug;
    var c := RenderPipeline(st.customers[customer].slug, st.customers[customer].clientId, Slug(name), g);
    forall ids | Listing(st, target, scope, exclude, ids) && Inputs(st, env, ids).Some?
      ensures RenderedFor(target, Inputs(st, env, ids).value + [c]).Ok?
    {
      ListingListed(st, target, scope, exclude, ids);
      assert FreeAmong(st, ids, customer, name);
      ListedFree(st, target, scope, ids, customer, name);
      CandidateRenders(st, env, target, scope, ids, customer, name, g);
    }
  }

  lemma ListedFree(st: State, target: Class, scope: Option<nat>, ids: seq<nat>, customer: nat, name: string)
    requires AllListed(st, target, scope, ids) && FreeAmong(st, ids, customer, name)
    ensures forall i :: 0 <= i < |ids| ==> ids[i] in st.pipelines
    ensures forall i :: 0 <= i < |ids| && st.pipelines[ids[i]].customer == customer ==> Slug(st.pipelines[ids[i]].name) != Slug(name)
  {
    hide Slug;
  }

  /** Create only gets to rendering with a free slug. */
  lemma CreateRenders(st: State, env: Env, target: Class, customer: nat, name: string, g: Graph)
    requires Inv(st, env) && customer in st.customers && !PipeSlugTaken(st, customer, Slug(name))
    ensures RendersWith(st, env, target, Scope(target, customer), None,
                        RenderPipeline(st.customers[customer].slug, st.customers[customer].clientId, Slug(name), g))
  {
    hide Inv, Listing, RendersWith, Slug;
    FreeRenders(st, env, target, Scope(target, customer), None, customer, name, g);
  }

  /** A pipeline's own slug is free among the others. */
  lemma VersionRenders(st: State, env: Env, id: nat, g: Graph)
    requires Inv(st, env) && id in st.pipelines
    ensures var p := st.pipelines[id];
            && p.customer in st.customers
            && RendersWith(st, env, p.target, Scope(p.target, p.customer), Some(id),
                           RenderPipeline(st.customers[p.customer].slug, st.customers[p.customer].clientId, Slug(p.name), g))
  {
    hide TablesOk, SlugsApart, RendersWith, Slug, Listed;
    PipeFacts(st, env, id);
    FragmentsCustomer(st, st.pipelines[id]);
    var p := st.pipelines[id];
    forall ids | Listing(st, p.target, Scope(p.target, p.customer), Some(id), ids) ensures FreeAmong(st, ids, p.customer, p.name) {
      assert id !in ids;
    }
    FreeRenders(st, env, p.target, Scope(p.target, p.customer), Some(id), p.customer, p.name, g);
  }

  lemma FragmentsCustomer(st: State, p: Pipe)
    requires FragmentsOk(st, p)
    ensures p.customer in st.customers
  {
  }

  /** In every reachable state the duplicate-key branch of validation is dead: a candidate that
      Create or CreateVersion gets to renders beside the other active pipelines. */
  lemma ReachableNoClash(env: Env, ops: seq<Op>, target: Class, customer: nat, name: string, id: nat, g: Graph)
    ensures var st := Run(env, ops);
            && (customer in st.customers && !PipeSlugTaken(st, customer, Slug(name)) ==>
                  RendersWith(st, env, target, Scope(target, customer), None,
                              RenderPipeline(st.customers[customer].slug, st.customers[customer].clientId, Slug(name), g)))
            && (id in st.pipelines ==>
                  && st.pipelines[id].customer in st.customers
                  && RendersWith(st, env, st.pipelines[id].target, Scope(st.pipelines[id].target, st.pipelines[id].customer), Some(id),
                                 RenderPipeline(st.customers[st.pipelines[id].customer].slug,
                                     st.customers[st.pipelines[id].customer].clientId,
                                                Slug(st.pipelines[id].name), g)))
  {
    hide Inv, RendersWith, Slug, Run, PipeSlugTaken;
    RunKeeps(env, ops);
    var st := Run(env, ops);
    if customer in st.customers && !PipeSlugTaken(st, customer, Slug(name)) {
      CreateRenders(st, env, target, customer, name, g);
    }
    if id in st.pipelines {
      VersionRenders(st, env, id, g);
    }
  }

  lemma KeyAppended(ps: seq<RenderPipeline>, c: RenderPipeline)
    requires Sorting.Distinct(Keys(ps)) && forall i :: 0 <= i < |ps| ==> Key(ps[i]) != Key(c)
    ensures Sorting.Distinct(Keys(ps + [c]))
  {
    hide Key;
    assert Keys(ps + [c]) == Keys(ps) + [Key(c)];
    Sorting.DistinctAppend(Keys(ps), Key(c));
  }

  /** Every reachable state renders to a coherent forwarding config, whatever order the listing
      comes in: secrets decrypt, no key is duplicated, every reference resolves, and every active
      pipeline's fragment is in it unchanged. */
  lemma ReachableCoherent(env: Env, ops: seq<Op>, ids: seq<nat>, p: RenderPipeline)
    requires Listing(Run(env, ops), ForwardingClass, None, None, ids)
    ensures Inputs(Run(env, ops), env, ids).Some?
    ensures var ps := Inputs(Run(env, ops), env, ids).value;
            var r := Renderer.Rendered(ps);
            && r.Ok? && CompilerEdge.Coherent(r.value)
            && (p in ps ==> Within(Fragment(p).processors, r.value.processors) && Within(Fragment(p).exporters, r.value.exporters)
                            && Within(Fragment(p).pipelines, r.value.pipelines))
  {
    hide Inv, Inputs, Collector.Renderable, Renderer.Rendered, Renderer.InOrder, Forwarding, Edge,
         CompilerEdge.Coherent, Within, Fragment, Listing, Run, Renderer.RenderedEdge;
    var st := Run(env, ops);
    RunKeeps(env, ops);
    ListingListed(st, ForwardingClass, None, None, ids);
    InputsRenderable(st, env, ForwardingClass, None, ids);
    var ps := Inputs(st, env, ids).value;
    RendersWell(ps, env.schema);
    CompilerEdge.ForwardingCoherent(Renderer.InOrder(ps), env.schema);
    if p in ps {
      assert p in multiset(ps) && p in Renderer.InOrder(ps);
      FragmentEmbedded(Renderer.InOrder(ps), p);
    }
  }

  /** The same for every customer's edge config. */
  lemma ReachableEdgeCoherent(env: Env, ops: seq<Op>, customer: nat, ids: seq<nat>, p: RenderPipeline)
    requires Listing(Run(env, ops), EdgeClass, Some(customer), None, ids)
    ensures Inputs(Run(env, ops), env, ids).Some?
    ensures var ps := Inputs(Run(env, ops), env, ids).value;
            var r := Renderer.RenderedEdge(ps);
            && r.Ok? && CompilerEdge.Coherent(r.value)
            && (p in ps ==> Within(EdgeFragment(p).processors, r.value.processors) && Within(EdgeFragment(p).exporters, r.value.exporters)
                            && Within(EdgeFragment(p).pipelines, r.value.pipelines))
  {
    hide Inv, Inputs, Collector.Renderable, Renderer.Rendered, Renderer.InOrder, Forwarding, Edge,
         CompilerEdge.Coherent, Within, EdgeFragment, Listing, Run, Renderer.RenderedEdge;
    var st := Run(env, ops);
    RunKeeps(env, ops);
    ListingListed(st, EdgeClass, Some(customer), None, ids);
    InputsRenderable(st, env, EdgeClass, Some(customer), ids);
    var ps := Inputs(st, env, ids).value;
    RendersWell(ps, env.schema);
    CompilerEdge.EdgeCoherent(Renderer.InOrder(ps), env.schema);
    if p in ps {
      assert p in multiset(ps) && p in Renderer.InOrder(ps);
      EdgeFragmentEmbedded(Renderer.InOrder(ps), p);
    }
  }

  /** End to end: in every reachable state, an item of tenant t and signal s is exported by exactly
      the active pipelines of the active customer with client ID t that carry s. */
  lemma ReachableDelivers(env: Env, ops: seq<Op>, ids: seq<nat>, sig: string, tenant: string)
    requires Listing(Run(env, ops), ForwardingClass, None, None, ids) && sig in SIGNALS
    ensures Inputs(Run(env, ops), env, ids).Some?
    ensures var ps := Inputs(Run(env, ops), env, ids).value;
            var r := Renderer.Rendered(ps);
            r.Ok? && Collector.Deliver(r.value, sig, tenant) == Some(Collector.Expected(Renderer.InOrder(ps), sig, tenant))
  {
    hide Inv, Inputs, Collector.Renderable, Renderer.Rendered, Renderer.InOrder, Forwarding, Edge, Collector.Deliver,
         Collector.Expected, Listing, Run, Renderer.RenderedEdge;
    var st := Run(env, ops);
    RunKeeps(env, ops);
    ListingListed(st, ForwardingClass, None, None, ids);
    InputsRenderable(st, env, ForwardingClass, None, ids);
    var ps := Inputs(st, env, ids).value;
    RendersWell(ps, env.schema);
    CompilerCorrectness.ForwardingMeans(Renderer.InOrder(ps), env.schema, sig, tenant);
  }

  /** The same for one customer's edge agents. */
  lemma ReachableEdgeDelivers(env: Env, ops: seq<Op>, customer: nat, ids: seq<nat>, sig: string, tenant: string)
    requires Listing(Run(env, ops), EdgeClass, Some(customer), None, ids) && sig in SIGNALS
    ensures Inputs(Run(env, ops), env, ids).Some?
    ensures var ps := Inputs(Run(env, ops), env, ids).value;
            var r := Renderer.RenderedEdge(ps);
            r.Ok? && Collector.Deliver(r.value, sig, tenant) == Some(CompilerEdge.EdgeExpected(Renderer.InOrder(ps), sig))
  {
    hide Inv, Inputs, Collector.Renderable, Renderer.RenderedEdge, Renderer.InOrder, Forwarding, Edge,
         Collector.Deliver, CompilerEdge.EdgeExpected, Listing, Run, Renderer.Rendered;
    var st := Run(env, ops);
    RunKeeps(env, ops);
    ListingListed(st, EdgeClass, Some(customer), None, ids);
    InputsRenderable(st, env, EdgeClass, Some(customer), ids);
    var ps := Inputs(st, env, ids).value;
    RendersWell(ps, env.schema);
    CompilerEdge.EdgeMeans(Renderer.InOrder(ps), env.schema, sig, tenant);
  }
}
