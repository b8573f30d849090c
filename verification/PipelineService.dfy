/** The pipeline and customer services over the tables, with the loops of the code, proved to take
    the steps of module PipelineStore. The object remembers the calls it took, so what holds in
    every reachable state is a contract of its methods. */
module PipelineService {
  import opened Prelude
  import opened Values
  import opened Validation
  import opened Rendering
  import opened Secrets
  import opened PipelineStore
  import Collector
  import CompilerEdge
  import PipelineInvariants
  import Renderer
  import SecretCode
  import Slugs
  import Sorting
  import Text

  class Service {
    const env: Env
    var customers: map<nat, Customer>
    var pipelines: map<nat, Pipe>
    ghost var history: seq<Op>

    constructor (env: Env)
      ensures this.env == env && history == [] && Valid()
    {
      this.env := env;
      customers, pipelines, history := map[], map[], [];
    }

    function Snapshot(): State
      reads this`customers, this`pipelines
    {
      State(customers, pipelines)
    }

    /** The tables are in the state the calls so far lead to. */
    ghost predicate Valid()
      reads this
    {
      Snapshot() == Run(env, history)
    }

    // -------------------------------------------------------------------
    // Customers

    /** The retry loop: a taken derived slug moves on to the next numbered one, a taken client ID
        is drawn again. */
    method ClaimIdentity(base: string, derived: bool, clientIds: seq<string>) returns (claimed: Option<(string, string)>)
      ensures claimed == Claim(Snapshot(), base, derived, base, clientIds, 1)
      ensures claimed.Some? ==> !SlugTaken(Snapshot(), claimed.value.0) && !ClientTaken(Snapshot(), claimed.value.1)
    {
      hide SlugTaken, ClientTaken, Text.Itoa;
      var trySlug := base;
      var attempt := 1;
      while attempt <= MAX_ATTEMPTS
        invariant 1 <= attempt
        invariant Claim(Snapshot(), base, derived, trySlug, clientIds, attempt) == Claim(Snapshot(), base, derived, base, clientIds, 1)
      {
        if attempt > |clientIds| {
          return None;
        }
        var clientId := clientIds[attempt - 1];
        if SlugTaken(Snapshot(), trySlug) {
          if !derived {
            return None;
          }
          trySlug := base + "-" + Text.Itoa(attempt + 1);
        } else if !ClientTaken(Snapshot(), clientId) {
          return Some((trySlug, clientId));
        }
        attempt := attempt + 1;
      }
      return None;
    }

    method CreateCustomer(id: nat, name: string, slug: Option<string>, clientIds: seq<string>)
      requires Valid()
      modifies this`customers, this`history
      ensures Valid() && history == old(history) + [AddCustomerOp(id, name, slug, clientIds)]
      ensures Snapshot() == AddCustomer(old(Snapshot()), id, name, slug, clientIds)
    {
      RunNext(env, history, AddCustomerOp(id, name, slug, clientIds));
      history := history + [AddCustomerOp(id, name, slug, clientIds)];
      hide Run, Slugs.Derive, Slugs.ValidSlug, SlugTaken, ClientTaken, Text.TrimSpace, Claim;
      var trimmed := Text.TrimSpace(name);
      if trimmed == "" || |trimmed| > 200 || id in customers {
        return;
      }
      var base: string;
      if slug.None? {
        base := Slugs.DeriveSlug(trimmed);
      } else {
        base := slug.value;
        if !Slugs.ValidSlug(base) {
          return;
        }
      }
      var claimed := ClaimIdentity(base, slug.None?, clientIds);
      if claimed.Some? {
        customers := customers[id := Customer(claimed.value.0, claimed.value.1, Active)];
      }
    }

    /** Only a customer that is not deleted changes, and only in status; while it is not active no
        config has its pipelines, and the configs of the others list what they listed. */
    method UpdateStatus(id: nat, status: Status) returns (ok: bool)
      requires Valid()
      modifies this`customers, this`history
      ensures Valid() && history == old(history) + [SetStatusOp(id, status)]
      ensures ok <==> id in old(customers) && !old(customers)[id].status.Deleted?
      ensures !ok ==> customers == old(customers)
      ensures customers.Keys == old(customers).Keys
      ensures forall c <- customers ::
                customers[c] == old(customers)[c].(status := if ok && c == id then status else old(customers)[c].status)
      ensures ok && !status.Active? ==>
                forall target, scope, p: nat :: p in pipelines && pipelines[p].customer == id ==> !Listed(Snapshot(), target, scope, p)
      ensures forall target, scope, p: nat :: p in pipelines && pipelines[p].customer != id ==>
                (Listed(Snapshot(), target, scope, p) <==> Listed(old(Snapshot()), target, scope, p))
    {
      RunNext(env, history, SetStatusOp(id, status));
      history := history + [SetStatusOp(id, status)];
      hide Run;
      ok := id in customers && !customers[id].status.Deleted?;
      if ok {
        customers := customers[id := customers[id].(status := status)];
      }
    }

    // -------------------------------------------------------------------
    // Renderer inputs

    /** The identifiers of the active pipelines of a class, in some order. */
    method ListActive(target: Class, scope: Option<nat>) returns (ids: seq<nat>)
      ensures Listing(Snapshot(), target, scope, None, ids)
    {
      ids := [];
      var keys := pipelines.Keys;
      while keys != {}
        invariant keys <= pipelines.Keys
        invariant forall i, j :: 0 <= i < j < |ids| ==> ids[i] != ids[j]
        invariant forall id: nat :: id in ids <==> id !in keys && Listed(Snapshot(), target, scope, id)
        decreases |keys|
      {
        var id :| id in keys;
        keys := keys - {id};
        if Listed(Snapshot(), target, scope, id) {
          ids := ids + [id];
        }
      }
    }

    method ToRender(id: nat) returns (r: Option<RenderPipeline>)
      ensures r == Input(Snapshot(), env, id)
    {
      hide Decrypt, Slugs.Derive;
      if id !in pipelines {
        return None;
      }
      var p := pipelines[id];
      if p.active.None? || !(1 <= p.active.value <= |p.versions|) || p.customer !in customers {
        return None;
      }
      var plain := SecretCode.DecryptGraphSecrets(p.versions[p.active.value - 1].graph, env.crypto);
      if plain.None? {
        return None;
      }
      var slug := Slugs.DeriveSlug(p.name);
      return Some(RenderPipeline(customers[p.customer].slug, customers[p.customer].clientId, slug, plain.value));
    }

    /** The renderer inputs of a listing without one pipeline; None when one cannot be decrypted. */
    method ActiveRenderPipelines(target: Class, scope: Option<nat>, exclude: Option<nat>)
        returns (r: Option<seq<RenderPipeline>>, ghost ids: seq<nat>)
      ensures Listing(Snapshot(), target, scope, exclude, ids) && r == Inputs(Snapshot(), env, ids)
      ensures r.Some? <==> OthersReadable(Snapshot(), env, target, scope, exclude)
    {
      hide Input, Listed;
      var listed := ListActive(target, scope);
      var out: seq<RenderPipeline> := [];
      ids := [];
      ghost var st := Snapshot();
      for i := 0 to |listed|
        invariant Inputs(st, env, ids) == Some(out)
        invariant ids == Others(listed[..i], exclude)
      {
        OthersNext(listed, i, exclude);
        if exclude == Some(listed[i]) {
          continue;
        }
        var rp := ToRender(listed[i]);
        assert (ids + [listed[i]])[..|ids|] == ids;
        if rp.None? {
          OthersListing(st, target, scope, listed, exclude);
          UnreadableAll(st, env, listed, i + 1, exclude);
          ids := Others(listed, exclude);
          ReadableIff(st, env, target, scope, exclude, ids);
          return None, ids;
        }
        out, ids := out + [rp.value], ids + [listed[i]];
      }
      assert listed[..|listed|] == listed;
      OthersListing(st, target, scope, listed, exclude);
      ReadableIff(st, env, target, scope, exclude, ids);
      r := Some(out);
    }

    /** The forwarding config of the current state: the one rendered from its active pipelines in
        any listing order. It is there, it is coherent, and every item reaches exactly the
        exporters of its tenant's active pipelines. */
    method RenderCurrent() returns (r: Option<Result<Config, string>>)
      requires Valid()
      ensures forall ids :: Listing(Snapshot(), ForwardingClass, None, None, ids) ==> r == RenderedFrom(Snapshot(), env, ids)
      ensures r.Some? && r.value.Ok? && CompilerEdge.Coherent(r.value.value)
      ensures forall ids :: Listing(Snapshot(), ForwardingClass, None, None, ids) ==>
                Inputs(Snapshot(), env, ids).Some? && Forwards(r.value.value, Inputs(Snapshot(), env, ids).value)
    {
      hide Inputs, Listing, Renderer.Rendered, RenderedFrom, Run, Forwards, CompilerEdge.Coherent;
      var ps, listing := ActiveRenderPipelines(ForwardingClass, None, None);
      r := None;
      if ps.Some? {
        var config := Renderer.RenderForwardingConfig(ps.value);
        r := Some(config);
      }
      RenderedFromIs(Snapshot(), env, listing);
      RenderedServes(env, history, listing);
      forall ids | Listing(Snapshot(), ForwardingClass, None, None, ids)
        ensures r == RenderedFrom(Snapshot(), env, ids)
        ensures Inputs(Snapshot(), env, ids).Some? && Forwards(r.value.value, Inputs(Snapshot(), env, ids).value)
      {
        AnyListing(Snapshot(), env, ForwardingClass, None, None, listing, ids);
        RenderedFromIs(Snapshot(), env, ids);
        RenderedServes(env, history, ids);
      }
    }

    /** The edge config of one customer, likewise. */
    method RenderEdgeCurrent(customer: nat) returns (r: Option<Result<Config, string>>)
      requires Valid()
      ensures forall ids :: Listing(Snapshot(), EdgeClass, Some(customer), None, ids) ==> r == RenderedEdgeFrom(Snapshot(), env, ids)
      ensures r.Some? && r.value.Ok? && CompilerEdge.Coherent(r.value.value)
      ensures forall ids :: Listing(Snapshot(), EdgeClass, Some(customer), None, ids) ==>
                Inputs(Snapshot(), env, ids).Some? && ServesEdge(r.value.value, Inputs(Snapshot(), env, ids).value)
    {
      hide Inputs, Listing, Renderer.RenderedEdge, RenderedEdgeFrom, Run, ServesEdge, CompilerEdge.Coherent;
      var ps, listing := ActiveRenderPipelines(EdgeClass, Some(customer), None);
      r := None;
      if ps.Some? {
        var config := Renderer.RenderEdgeConfig(ps.value);
        r := Some(config);
      }
      RenderedFromIs(Snapshot(), env, listing);
      RenderedServesEdge(env, history, customer, listing);
      forall ids | Listing(Snapshot(), EdgeClass, Some(customer), None, ids)
        ensures r == RenderedEdgeFrom(Snapshot(), env, ids)
        ensures Inputs(Snapshot(), env, ids).Some? && ServesEdge(r.value.value, Inputs(Snapshot(), env, ids).value)
      {
        AnyListing(Snapshot(), env, EdgeClass, Some(customer), None, listing, ids);
        RenderedFromIs(Snapshot(), env, ids);
        RenderedServesEdge(env, history, customer, ids);
      }
    }

    // -------------------------------------------------------------------
    // Pipelines

    method PrepareVersion(customer: nat, name: string, target: Class, exclude: Option<nat>, g: Graph,
                          prev: Option<Graph>, draw: Draw, accepted: bool)
        returns (v: Option<Version>)
      requires customer in customers
      ensures v == Prepare(Snapshot(), env, customer, name, target, exclude, g, prev, draw, accepted)
    {
      hide Encrypt, Decrypt, Index, StructurallyValid, Redact, Slugs.Derive, OthersReadable, Inputs, Listing, Fragment, EdgeFragment,
           RendersWith, Renderer.Rendered, Renderer.RenderedEdge;
      var enc := SecretCode.EncryptGraphSecrets(g, env.crypto, draw, prev);
      if enc.Err? || enc.value.1 != [] {
        return None;
      }
      var stored := enc.value.0;
      var plain := SecretCode.DecryptGraphSecrets(stored, env.crypto);
      if plain.None? {
        return None;
      }
      var slug := Slugs.DeriveSlug(name);
      var others, ids := ActiveRenderPipelines(target, Scope(target, customer), exclude);
      if others.None? {
        return None;
      }
      var issues := ValidateStructural(plain.value, env.schema);
      if issues != [] || !accepted {
        return None;
      }
      var c := customers[customer];
      var plaintext := RenderPipeline(c.slug, c.clientId, slug, plain.value);
      var full: Result<Config, string>;
      if target.EdgeClass? {
        full := Renderer.RenderEdgeConfig(others.value + [plaintext]);
      } else {
        full := Renderer.RenderForwardingConfig(others.value + [plaintext]);
      }
      RendersIff(Snapshot(), env, target, Scope(target, customer), exclude, ids, plaintext);
      if full.Err? {
        return None;
      }
      var candidate := RenderPipeline(c.slug, c.clientId, slug, Redact(stored));
      var fragment: Config;
      if target.EdgeClass? {
        fragment := Renderer.RenderEdgeFragment(candidate);
      } else {
        fragment := Renderer.RenderFragment(candidate);
      }
      return Some(Version(stored, fragment));
    }

    method SlugInUse(customer: nat, slug: string) returns (taken: bool)
      ensures taken <==> PipeSlugTaken(Snapshot(), customer, slug)
    {
      hide Slugs.Derive;
      var keys := pipelines.Keys;
      while keys != {}
        invariant keys <= pipelines.Keys
        invariant forall id <- pipelines :: id !in keys ==> !(pipelines[id].customer == customer && Slug(pipelines[id].name) == slug)
        decreases |keys|
      {
        var id :| id in keys;
        keys := keys - {id};
        var other := Slugs.DeriveSlug(pipelines[id].name);
        if pipelines[id].customer == customer && other == slug {
          return true;
        }
      }
      return false;
    }

    method CreatePipeline(id: nat, customer: nat, name: string, target: Class, g: Graph, draw: Draw, accepted: bool)
      requires Valid()
      modifies this`pipelines, this`history
      ensures Valid() && history == old(history) + [CreateOp(id, customer, name, target, g, draw, accepted)]
      ensures Snapshot() == Create(old(Snapshot()), env, id, customer, name, target, g, draw, accepted)
    {
      RunNext(env, history, CreateOp(id, customer, name, target, g, draw, accepted));
      history := history + [CreateOp(id, customer, name, target, g, draw, accepted)];
      hide Run, Slugs.Derive, Text.TrimSpace, Prepare, PipeSlugTaken;
      var trimmed := Text.TrimSpace(name);
      var slug := Slugs.DeriveSlug(trimmed);
      if trimmed == "" || |trimmed| > 200 || slug == "" || id in pipelines {
        return;
      }
      if customer !in customers || customers[customer].status.Deleted? {
        return;
      }
      var taken := SlugInUse(customer, slug);
      if taken {
        return;
      }
      var v := PrepareVersion(customer, trimmed, target, None, g, None, draw, accepted);
      if v.Some? {
        pipelines := pipelines[id := Pipe(customer, trimmed, target, [v.value], None)];
      }
    }

    method CreatePipelineVersion(id: nat, g: Graph, draw: Draw, accepted: bool)
      requires Valid()
      modifies this`pipelines, this`history
      ensures Valid() && history == old(history) + [CreateVersionOp(id, g, draw, accepted)]
      ensures Snapshot() == CreateVersion(old(Snapshot()), env, id, g, draw, accepted)
    {
      RunNext(env, history, CreateVersionOp(id, g, draw, accepted));
      history := history + [CreateVersionOp(id, g, draw, accepted)];
      hide Run, Prepare;
      if id !in pipelines {
        return;
      }
      var p := pipelines[id];
      if p.customer !in customers {
        NoCustomer(Snapshot(), env, p, id, g, draw, accepted);
        return;
      }
      var v := PrepareVersion(p.customer, p.name, p.target, Some(id), g, LatestGraph(p), draw, accepted);
      if v.Some? {
        pipelines := pipelines[id := p.(versions := p.versions + [v.value])];
      }
    }

    /** From now on the renderers see the chosen version, in plain text; what they see of every
        other pipeline stays. */
    method ActivateVersion(id: nat, version: nat) returns (ok: bool)
      requires Valid()
      modifies this`pipelines, this`history
      ensures Valid() && history == old(history) + [ActivateOp(id, version)]
      ensures ok <==> id in old(pipelines) && 1 <= version <= |old(pipelines)[id].versions|
      ensures !ok ==> pipelines == old(pipelines)
      ensures ok ==> Shows(Snapshot(), env, id, old(pipelines)[id].versions[version - 1].graph)
      ensures ok ==> id in pipelines && pipelines[id].versions == old(pipelines)[id].versions
      ensures SameBut(old(Snapshot()), Snapshot(), env, id)
    {
      RunNext(env, history, ActivateOp(id, version));
      ghost var before := history;
      history := history + [ActivateOp(id, version)];
      hide Run, Shows, SameBut;
      ok := id in pipelines && 1 <= version <= |pipelines[id].versions|;
      if ok {
        pipelines := pipelines[id := pipelines[id].(active := Some(version))];
        ActivatedShows(env, before, id, version);
      }
      OthersSame(old(Snapshot()), Snapshot(), env, id);
    }

    /** No config has the pipeline any more, and its name is free for its customer. */
    method DeletePipeline(id: nat) returns (ok: bool)
      requires Valid()
      modifies this`pipelines, this`history
      ensures Valid() && history == old(history) + [DeleteOp(id)]
      ensures ok <==> id in old(pipelines)
      ensures id !in pipelines
      ensures ok ==> !PipeSlugTaken(Snapshot(), old(pipelines)[id].customer, Slug(old(pipelines)[id].name))
      ensures SameBut(old(Snapshot()), Snapshot(), env, id)
    {
      RunNext(env, history, DeleteOp(id));
      ghost var before := history;
      history := history + [DeleteOp(id)];
      hide Run, SameBut, PipeSlugTaken, Slug;
      ok := id in pipelines;
      pipelines := pipelines - {id};
      if ok {
        DeletedFrees(env, before, id);
      }
      OthersSame(old(Snapshot()), Snapshot(), env, id);
    }
  }

  // ---------------------------------------------------------------------
  // What a call means for the configs

  lemma RunNext(env: Env, ops: seq<Op>, op: Op)
    ensures Run(env, ops + [op]) == Step(Run(env, ops), env, op)
  {
    hide Step;
    assert (ops + [op])[..|ops|] == ops;
  }

  /** Items of every signal and tenant go where the pipelines say. */
  ghost predicate Forwards(config: Config, ps: seq<RenderPipeline>) {
    forall sig, tenant :: sig in SIGNALS ==>
      Collector.Deliver(config, sig, tenant) == Some(Collector.Expected(Renderer.InOrder(ps), sig, tenant))
  }

  ghost predicate ServesEdge(config: Config, ps: seq<RenderPipeline>) {
    forall sig, tenant :: sig in SIGNALS ==>
      Collector.Deliver(config, sig, tenant) == Some(CompilerEdge.EdgeExpected(Renderer.InOrder(ps), sig))
  }

  lemma RenderedServes(env: Env, ops: seq<Op>, ids: seq<nat>)
    requires Listing(Run(env, ops), ForwardingClass, None, None, ids)
    ensures Inputs(Run(env, ops), env, ids).Some?
    ensures var ps := Inputs(Run(env, ops), env, ids).value;
            var r := Renderer.Rendered(ps);
            r.Ok? && CompilerEdge.Coherent(r.value) && Forwards(r.value, ps)
  {
    hide Run, Inputs, Listing, Renderer.Rendered, Renderer.InOrder, Collector.Deliver, Collector.Expected, CompilerEdge.Coherent;
    PipelineInvariants.ReachableCoherent(env, ops, ids, RenderPipeline("", "", "", Graph([], [], [])));
    var ps := Inputs(Run(env, ops), env, ids).value;
    forall sig, tenant | sig in SIGNALS
      ensures Collector.Deliver(Renderer.Rendered(ps).value, sig, tenant) == Some(Collector.Expected(Renderer.InOrder(ps), sig, tenant))
    {
      PipelineInvariants.ReachableDelivers(env, ops, ids, sig, tenant);
    }
  }

  lemma RenderedServesEdge(env: Env, ops: seq<Op>, customer: nat, ids: seq<nat>)
    requires Listing(Run(env, ops), EdgeClass, Some(customer), None, ids)
    ensures Inputs(Run(env, ops), env, ids).Some?
    ensures var ps := Inputs(Run(env, ops), env, ids).value;
            var r := Renderer.RenderedEdge(ps);
            r.Ok? && CompilerEdge.Coherent(r.value) && ServesEdge(r.value, ps)
  {
    hide Run, Inputs, Listing, Renderer.RenderedEdge, Renderer.InOrder, Collector.Deliver, CompilerEdge.EdgeExpected, CompilerEdge.Coherent;
    PipelineInvariants.ReachableEdgeCoherent(env, ops, customer, ids, RenderPipeline("", "", "", Graph([], [], [])));
    var ps := Inputs(Run(env, ops), env, ids).value;
    forall sig, tenant | sig in SIGNALS
      ensures Collector.Deliver(Renderer.RenderedEdge(ps).value, sig, tenant) == Some(CompilerEdge.EdgeExpected(Renderer.InOrder(ps), sig))
    {
      PipelineInvariants.ReachableEdgeDelivers(env, ops, customer, ids, sig, tenant);
    }
  }

  /** The renderers see this stored graph, decrypted, under the pipeline's identity. */
  ghost predicate Shows(st: State, env: Env, id: nat, stored: Graph) {
    && id in st.pipelines && st.pipelines[id].customer in st.customers && Decrypt(stored, env.crypto).Some?
    && var c := st.customers[st.pipelines[id].customer];
       Input(st, env, id) == Some(RenderPipeline(c.slug, c.clientId, Slug(st.pipelines[id].name), Decrypt(stored, env.crypto).value))
  }

  lemma ActivatedShows(env: Env, ops: seq<Op>, id: nat, version: nat)
    requires id in Run(env, ops).pipelines && 1 <= version <= |Run(env, ops).pipelines[id].versions|
    ensures Shows(Activate(Run(env, ops), id, version), env, id, Run(env, ops).pipelines[id].versions[version - 1].graph)
  {
    hide Run, Decrypt, StructurallyValid, Slug, PipelineInvariants.TablesOk, PipelineInvariants.SlugsApart;
    PipelineInvariants.RunKeeps(env, ops);
    PipelineInvariants.PipeFacts(Run(env, ops), env, id);
    PipelineInvariants.FragmentsCustomer(Run(env, ops), Run(env, ops).pipelines[id]);
    assert PipelineInvariants.VersionOk(env, Run(env, ops).pipelines[id].versions[version - 1]);
  }

  lemma DeletedFrees(env: Env, ops: seq<Op>, id: nat)
    requires id in Run(env, ops).pipelines
    ensures var p := Run(env, ops).pipelines[id];
            !PipeSlugTaken(Delete(Run(env, ops), id), p.customer, Slug(p.name))
  {
    hide Run, Slug, PipelineInvariants.TablesOk, PipelineInvariants.SlugsApart;
    PipelineInvariants.RunKeeps(env, ops);
    PipelineInvariants.PipeFacts(Run(env, ops), env, id);
  }

  /** Every other pipeline is listed as before, and renders from the same input. */
  ghost predicate SameBut(a: State, b: State, env: Env, id: nat) {
    && (forall target, scope, other: nat :: other != id ==> (Listed(b, target, scope, other) <==> Listed(a, target, scope, other)))
    && (forall other: nat :: other != id ==> Input(b, env, other) == Input(a, env, other))
  }

  lemma OthersSame(a: State, b: State, env: Env, id: nat)
    requires a.customers == b.customers
    requires a.pipelines - {id} == b.pipelines - {id}
    ensures SameBut(a, b, env, id)
  {
    hide Decrypt, Slug;
    forall other: nat | other != id
      ensures other in a.pipelines <==> other in b.pipelines
      ensures other in a.pipelines ==> a.pipelines[other] == b.pipelines[other]
    {
      assert other in a.pipelines <==> other in a.pipelines - {id};
      assert other in b.pipelines <==> other in b.pipelines - {id};
      if other in a.pipelines {
        assert a.pipelines[other] == (a.pipelines - {id})[other] == (b.pipelines - {id})[other];
      }
    }
  }

  // ---------------------------------------------------------------------
  // Facts about listings

  ghost function RenderedFrom(st: State, env: Env, ids: seq<nat>): Option<Result<Config, string>> {
    var ps := Inputs(st, env, ids);
    if ps.None? then None else Some(Renderer.Rendered(ps.value))
  }

  ghost function RenderedEdgeFrom(st: State, env: Env, ids: seq<nat>): Option<Result<Config, string>> {
    var ps := Inputs(st, env, ids);
    if ps.None? then None else Some(Renderer.RenderedEdge(ps.value))
  }

  lemma RenderedFromIs(st: State, env: Env, ids: seq<nat>)
    ensures var ps := Inputs(st, env, ids);
            && RenderedFrom(st, env, ids) == (if ps.None? then None else Some(Renderer.Rendered(ps.value)))
            && RenderedEdgeFrom(st, env, ids) == (if ps.None? then None else Some(Renderer.RenderedEdge(ps.value)))
  {
    hide Inputs, Renderer.Rendered, Renderer.RenderedEdge;
  }

  /** Two listings of the same pipelines have the same inputs, in some order. */
  lemma SameInputs(st: State, env: Env, target: Class, scope: Option<nat>, exclude: Option<nat>, a: seq<nat>, b: seq<nat>)
    requires Listing(st, target, scope, exclude, a) && Listing(st, target, scope, exclude, b)
    ensures Inputs(st, env, a).Some? <==> Inputs(st, env, b).Some?
    ensures Inputs(st, env, a).Some? ==> multiset(Inputs(st, env, a).value) == multiset(Inputs(st, env, b).value)
  {
    hide Input, Inputs, Listed;
    assert forall id: nat :: id in a <==> id in b;
    Sorting.DistinctSame(a, b);
    InputsSome(st, env, a);
    InputsSome(st, env, b);
    if Inputs(st, env, a).Some? {
      InputsMapped(st, env, a);
      InputsMapped(st, env, b);
      Sorting.MapPermutes(a, b, (id: nat) => InputOr(st, env, id));
    }
  }

  /** Every listing of the same pipelines renders to the same config. */
  lemma AnyListing(st: State, env: Env, target: Class, scope: Option<nat>, exclude: Option<nat>, a: seq<nat>, b: seq<nat>)
    requires Listing(st, target, scope, exclude, a) && Listing(st, target, scope, exclude, b)
    ensures RenderedFrom(st, env, a) == RenderedFrom(st, env, b) && RenderedEdgeFrom(st, env, a) == RenderedEdgeFrom(st, env, b)
  {
    hide Inputs, Listing, Renderer.Rendered, Renderer.RenderedEdge;
    SameInputs(st, env, target, scope, exclude, a, b);
    if Inputs(st, env, a).Some? {
      Renderer.OrderIndependent(Inputs(st, env, a).value, Inputs(st, env, b).value);
    }
  }

  /** One listing decides whether the candidate renders beside the others. */
  lemma RendersIff(st: State, env: Env, target: Class, scope: Option<nat>, exclude: Option<nat>, ids: seq<nat>, candidate: RenderPipeline)
    requires Listing(st, target, scope, exclude, ids) && Inputs(st, env, ids).Some?
    ensures RendersWith(st, env, target, scope, exclude, candidate) <==> RenderedFor(target, Inputs(st, env, ids).value + [candidate]).Ok?
  {
    hide Inputs, Listing, Renderer.Rendered, Renderer.RenderedEdge;
    forall b | Listing(st, target, scope, exclude, b) && Inputs(st, env, b).Some?
      ensures RenderedFor(target, Inputs(st, env, b).value + [candidate]) == RenderedFor(target, Inputs(st, env, ids).value + [candidate])
    {
      SameInputs(st, env, target, scope, exclude, ids, b);
      Renderer.OrderIndependent(Inputs(st, env, ids).value + [candidate], Inputs(st, env, b).value + [candidate]);
    }
  }

  ghost function InputOr(st: State, env: Env, id: nat): RenderPipeline {
    var p := Input(st, env, id);
    if p.Some? then p.value else RenderPipeline("", "", "", Graph([], [], []))
  }

  lemma {:induction false} InputsMapped(st: State, env: Env, ids: seq<nat>)
    requires Inputs(st, env, ids).Some?
    ensures Inputs(st, env, ids).value == Sorting.Map(ids, (id: nat) => InputOr(st, env, id))
  {
    hide Input;
    if ids != [] {
      InputsMapped(st, env, ids[..|ids| - 1]);
    }
  }

  lemma NoCustomer(st: State, env: Env, p: Pipe, id: nat, g: Graph, draw: Draw, accepted: bool)
    requires p.customer !in st.customers
    ensures Prepare(st, env, p.customer, p.name, p.target, Some(id), g, LatestGraph(p), draw, accepted) == None
  {
  }

  /** A listing without one identifier. */
  ghost function Others(ids: seq<nat>, exclude: Option<nat>): seq<nat> {
    if ids == [] then [] else
    Others(ids[..|ids| - 1], exclude) + if exclude == Some(ids[|ids| - 1]) then [] else [ids[|ids| - 1]]
  }

  lemma OthersNext(ids: seq<nat>, i: nat, exclude: Option<nat>)
    requires i < |ids|
    ensures Others(ids[..i + 1], exclude) == Others(ids[..i], exclude) + if exclude == Some(ids[i]) then [] else [ids[i]]
  {
    assert ids[..i + 1][..i] == ids[..i] && ids[..i + 1][i] == ids[i];
  }

  lemma {:induction false} OthersAre(ids: seq<nat>, exclude: Option<nat>)
    requires Sorting.Distinct(ids)
    ensures forall id: nat :: id in Others(ids, exclude) <==> id in ids && exclude != Some(id)
    ensures Sorting.Distinct(Others(ids, exclude))
  {
    if ids != [] {
      var init, last := ids[..|ids| - 1], ids[|ids| - 1];
      OthersAre(init, exclude);
      assert ids == init + [last];
      assert last !in init;
      Sorting.DistinctAppend(Others(init, exclude), last);
    }
  }

  lemma OthersListing(st: State, target: Class, scope: Option<nat>, ids: seq<nat>, exclude: Option<nat>)
    requires Listing(st, target, scope, None, ids)
    ensures Listing(st, target, scope, exclude, Others(ids, exclude))
  {
    hide Listed;
    OthersAre(ids, exclude);
  }

  /** One unreadable pipeline makes the whole listing unreadable. */
  lemma {:induction false} UnreadableAll(st: State, env: Env, listed: seq<nat>, n: nat, exclude: Option<nat>)
    requires n <= |listed| && Inputs(st, env, Others(listed[..n], exclude)).None?
    ensures Inputs(st, env, Others(listed, exclude)).None?
    decreases |listed| - n
  {
    hide Input;
    if n == |listed| {
      assert listed[..n] == listed;
    } else {
      OthersNext(listed, n, exclude);
      var before, after := Others(listed[..n], exclude), Others(listed[..n + 1], exclude);
      if exclude != Some(listed[n]) {
        assert after[..|after| - 1] == before;
      } else {
        assert after == before;
      }
      UnreadableAll(st, env, listed, n + 1, exclude);
    }
  }

  lemma {:induction false} InputsSome(st: State, env: Env, ids: seq<nat>)
    ensures Inputs(st, env, ids).Some? <==> forall id <- ids :: Input(st, env, id).Some?
  {
    hide Input;
    if ids != [] {
      InputsSome(st, env, ids[..|ids| - 1]);
      assert ids == ids[..|ids| - 1] + [ids[|ids| - 1]];
    }
  }

  lemma ReadableIff(st: State, env: Env, target: Class, scope: Option<nat>, exclude: Option<nat>, ids: seq<nat>)
    requires Listing(st, target, scope, exclude, ids)
    ensures Inputs(st, env, ids).Some? <==> OthersReadable(st, env, target, scope, exclude)
  {
    hide Input, Inputs, Listed;
    InputsSome(st, env, ids);
  }
}
