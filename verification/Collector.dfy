/** What a collector does with an item under a rendered config, and that this is what the
    pipelines ask for. */
module Collector {
  import opened Prelude
  import opened Values
  import opened Naming
  import opened Sequences
  import opened Validation
  import opened Rendering

  // ---------------------------------------------------------------------
  // Semantics: entry pipelines, processors in order, fan-out to exporters, routing connectors

  /** An item handed to an exporter after these processors. */
  datatype Delivery = Delivery(processors: seq<(string, Yaml)>, exporter: (string, Yaml))

  function Join(a: Option<seq<Delivery>>, b: Option<seq<Delivery>>): Option<seq<Delivery>> {
    if a.Some? && b.Some? then Some(a.value + b.value) else None
  }

  /** The definitions of a list of component IDs; None if one is missing or defined twice. */
  function Resolve(section: seq<(string, Yaml)>, ids: seq<string>): Option<seq<(string, Yaml)>> {
    if ids == [] then Some([]) else
    var first, rest := Lookup(section, ids[0]), Resolve(section, ids[1..]);
    if first.Some? && rest.Some? then Some([(ids[0], first.value)] + rest.value) else None
  }

  /** Whether a routing condition selects a tenant's items. */
  predicate Holds(condition: string, tenant: string) {
    condition == Condition(tenant)
  }

  function FirstRoute(routes: seq<Route>, tenant: string): Option<Route> {
    if routes == [] then None else
    if Holds(routes[0].condition, tenant) then Some(routes[0]) else FirstRoute(routes[1..], tenant)
  }

  /** Sends the item through each listed pipeline. A pipeline must be defined once and list the
      component that feeds it. `hops` bounds how many connectors the item may still cross. */
  function RunAll(cfg: Config, ids: seq<string>, from: string, tenant: string, done: seq<(string, Yaml)>, hops: nat): Option<seq<Delivery>>
    decreases hops, 2, |ids|
  {
    if ids == [] then Some([]) else
    Join(RunOne(cfg, ids[0], from, tenant, done, hops), RunAll(cfg, ids[1..], from, tenant, done, hops))
  }

  function RunOne(cfg: Config, id: string, from: string, tenant: string, done: seq<(string, Yaml)>, hops: nat): Option<seq<Delivery>>
    decreases hops, 1, 0
  {
    var p := Lookup(cfg.pipelines, id);
    if p.None? || from !in p.value.receivers then None else
    var procs := Resolve(cfg.processors, p.value.processors);
    if procs.None? then None else ExportAll(cfg, p.value.exporters, tenant, done + procs.value, hops)
  }

  function ExportAll(cfg: Config, ids: seq<string>, tenant: string, done: seq<(string, Yaml)>, hops: nat): Option<seq<Delivery>>
    decreases hops, 0, |ids|
  {
    if ids == [] then Some([]) else
    Join(ExportOne(cfg, ids[0], tenant, done, hops), ExportAll(cfg, ids[1..], tenant, done, hops))
  }

  /** A connector routes by its first matching entry and drops what matches none; an exporter delivers. */
  function ExportOne(cfg: Config, id: string, tenant: string, done: seq<(string, Yaml)>, hops: nat): Option<seq<Delivery>>
    decreases hops, 0, 0
  {
    var routes := Lookup(cfg.connectors, id);
    if routes.Some? then
      if hops == 0 then None else
      var route := FirstRoute(routes.value, tenant);
      if route.None? then Some([]) else RunAll(cfg, route.value.pipelines, id, tenant, done, hops - 1)
    else
      var exporter := Lookup(cfg.exporters, id);
      if exporter.None? then None else Some([Delivery(done, (id, exporter.value))])
  }

  /** The pipelines of a signal that read the receiver. */
  function EntryIDs(pipelines: seq<(string, Pipeline)>, signal: string): seq<string> {
    if pipelines == [] then [] else
    (if ComponentType(pipelines[0].0) == signal && "otlp" in pipelines[0].1.receivers then [pipelines[0].0] else [])
      + EntryIDs(pipelines[1..], signal)
  }

  /** Everything an item of this tenant and signal is delivered to; None if the config is broken
      on its way. */
  function Deliver(cfg: Config, signal: string, tenant: string): Option<seq<Delivery>> {
    RunAll(cfg, EntryIDs(cfg.pipelines, signal), "otlp", tenant, [], |cfg.connectors|)
  }

  // ---------------------------------------------------------------------
  // What the pipelines ask for

  /** The tenant's pipelines that carry the signal, in render order. */
  function Serving(ps: seq<RenderPipeline>, signal: string, tenant: string): seq<RenderPipeline> {
    if ps == [] then [] else
    var p := ps[|ps| - 1];
    Serving(ps[..|ps| - 1], signal, tenant) + if signal in p.graph.signals && p.clientId == tenant then [p] else []
  }

  /** Each exporter of the pipeline, after the shared processors and the pipeline's own, in order. */
  ghost function Deliveries(p: RenderPipeline): seq<Delivery> {
    var exporters := ExporterEntries(p);
    seq(|exporters|, i requires 0 <= i < |exporters| => Delivery(FIXED_PROCESSORS + ProcessorEntries(p), exporters[i]))
  }

  ghost function Expected(ps: seq<RenderPipeline>, signal: string, tenant: string): seq<Delivery> {
    if forall p <- ps :: signal !in p.graph.signals then [Delivery(FIXED_PROCESSORS, ("debug", DEBUG_CONFIG))]
    else Flat(Serving(ps, signal, tenant), Deliveries)
  }

  /** Valid graphs under distinct pairs of underscore-free slugs. */
  ghost predicate Renderable(ps: seq<RenderPipeline>, schema: Schema) {
    && (forall p <- ps :: Plain(p.customer) && Plain(p.pipeline) && StructurallyValid(p.graph, schema))
    && (forall i, j :: 0 <= i < j < |ps| ==> SlugPair(ps[i]) != SlugPair(ps[j]))
  }

  // ---------------------------------------------------------------------
  // IDs are defined exactly once

  lemma SlashIn(n: Node, i: nat, c: string, p: string)
    ensures '/' in ComponentID(n, i, c, p)
  {
    var id := ComponentID(n, i, c, p);
    assert id[|n.kind|] == '/';
  }

  /** Node entries of one list have distinct keys. */
  lemma NodesDistinct(p: RenderPipeline, nodes: seq<Node>, known: set<string>, schema: Schema)
    requires Plain(p.customer) && Plain(p.pipeline) && NodesOk(nodes, known, schema) && known <= PROCESSORS + EXPORTERS
    ensures DistinctKeys(NodeEntries(p, nodes))
  {
    hide ConfigNode, ComponentID;
    var es := NodeEntries(p, nodes);
    forall i, j | 0 <= i < j < |es| ensures es[i].0 != es[j].0 {
      KnownKinds(nodes[i].kind);
      KnownKinds(nodes[j].kind);
      if es[i].0 == es[j].0 {
        ProbeIsEnough(nodes, i, j, p.customer, p.pipeline);
      }
    }
  }

  /** Nodes of different pipelines never share an ID. */
  lemma NodesApart(p: RenderPipeline, nodes: seq<Node>, q: RenderPipeline, nodes': seq<Node>, known: set<string>, schema: Schema)
    requires Plain(p.customer) && Plain(p.pipeline) && Plain(q.customer) && Plain(q.pipeline) && SlugPair(p) != SlugPair(q)
    requires NodesOk(nodes, known, schema) && NodesOk(nodes', known, schema) && known <= PROCESSORS + EXPORTERS
    ensures forall a <- NodeEntries(p, nodes), b <- NodeEntries(q, nodes') :: a.0 != b.0
  {
    hide ConfigNode, ComponentID;
    forall a <- NodeEntries(p, nodes), b <- NodeEntries(q, nodes') ensures a.0 != b.0 {
      var i :| 0 <= i < |nodes| && NodeEntries(p, nodes)[i] == a;
      var j :| 0 <= j < |nodes'| && NodeEntries(q, nodes')[j] == b;
      KnownKinds(nodes[i].kind);
      KnownKinds(nodes'[j].kind);
      if a.0 == b.0 {
        ComponentIDInjective(nodes[i], i, p.customer, p.pipeline, nodes'[j], j, q.customer, q.pipeline);
      }
    }
  }

  /** A section: entries without a slash in their key, then every pipeline's own. */
  lemma SectionDistinct(ps: seq<RenderPipeline>, schema: Schema, fixed: seq<(string, Yaml)>)
    requires Renderable(ps, schema) && DistinctKeys(fixed) && forall e <- fixed :: '/' !in e.0
    ensures DistinctKeys(fixed + Flat(ps, ProcessorEntries)) && DistinctKeys(fixed + Flat(ps, ExporterEntries))
  {
    hide NodeEntries, SlugPair, Plain;
    forall p <- ps ensures DistinctKeys(ProcessorEntries(p)) && DistinctKeys(ExporterEntries(p)) {
      NodesDistinct(p, p.graph.processors, PROCESSORS, schema);
      NodesDistinct(p, p.graph.exporters, EXPORTERS, schema);
    }
    forall i, j | 0 <= i < j < |ps|
      ensures forall a <- ProcessorEntries(ps[i]), b <- ProcessorEntries(ps[j]) :: a.0 != b.0
      ensures forall a <- ExporterEntries(ps[i]), b <- ExporterEntries(ps[j]) :: a.0 != b.0
    {
      assert ps[i] in ps && ps[j] in ps;
      NodesApart(ps[i], ps[i].graph.processors, ps[j], ps[j].graph.processors, PROCESSORS, schema);
      NodesApart(ps[i], ps[i].graph.exporters, ps[j], ps[j].graph.exporters, EXPORTERS, schema);
    }
    FlatDistinct(ps, ProcessorEntries);
    FlatDistinct(ps, ExporterEntries);
    SlashedAll(ps);
    DistinctConcat(fixed, Flat(ps, ProcessorEntries));
    DistinctConcat(fixed, Flat(ps, ExporterEntries));
  }

  lemma SlashedEntries(p: RenderPipeline, nodes: seq<Node>)
    ensures forall e <- NodeEntries(p, nodes) :: '/' in e.0
  {
    hide ConfigNode, ComponentID;
    forall e <- NodeEntries(p, nodes) ensures '/' in e.0 {
      var i :| 0 <= i < |nodes| && NodeEntries(p, nodes)[i] == e;
      SlashIn(nodes[i], i, p.customer, p.pipeline);
    }
  }

  lemma SlashedAll(ps: seq<RenderPipeline>)
    ensures forall e <- Flat(ps, ProcessorEntries) :: '/' in e.0
    ensures forall e <- Flat(ps, ExporterEntries) :: '/' in e.0
  {
    hide NodeEntries;
    forall e <- Flat(ps, ProcessorEntries) ensures '/' in e.0 {
      FlatMember(ps, ProcessorEntries, e);
      var p :| p in ps && e in ProcessorEntries(p);
      SlashedEntries(p, p.graph.processors);
    }
    forall e <- Flat(ps, ExporterEntries) ensures '/' in e.0 {
      FlatMember(ps, ExporterEntries, e);
      var p :| p in ps && e in ExporterEntries(p);
      SlashedEntries(p, p.graph.exporters);
    }
  }

  /** Every processor and exporter of a pipeline is found, with its own config. */
  lemma ComponentsFound(ps: seq<RenderPipeline>, schema: Schema, fixed: seq<(string, Yaml)>, p: RenderPipeline)
    requires Renderable(ps, schema) && p in ps && DistinctKeys(fixed) && forall e <- fixed :: '/' !in e.0
    ensures forall e <- ProcessorEntries(p) :: Lookup(fixed + Flat(ps, ProcessorEntries), e.0) == Some(e.1)
    ensures forall e <- ExporterEntries(p) :: Lookup(fixed + Flat(ps, ExporterEntries), e.0) == Some(e.1)
    ensures forall e <- fixed :: Lookup(fixed + Flat(ps, ProcessorEntries), e.0) == Some(e.1)
    ensures forall e <- fixed :: Lookup(fixed + Flat(ps, ExporterEntries), e.0) == Some(e.1)
  {
    hide Renderable, NodeEntries, Lookup;
    SectionDistinct(ps, schema, fixed);
    forall e <- ProcessorEntries(p) ensures Lookup(fixed + Flat(ps, ProcessorEntries), e.0) == Some(e.1) {
      FlatMember(ps, ProcessorEntries, e);
      LookupMember(fixed + Flat(ps, ProcessorEntries), e.0, e.1);
    }
    forall e <- ExporterEntries(p) ensures Lookup(fixed + Flat(ps, ExporterEntries), e.0) == Some(e.1) {
      FlatMember(ps, ExporterEntries, e);
      LookupMember(fixed + Flat(ps, ExporterEntries), e.0, e.1);
    }
    FixedFound(ps, schema, fixed);
  }

  lemma FixedFound(ps: seq<RenderPipeline>, schema: Schema, fixed: seq<(string, Yaml)>)
    requires Renderable(ps, schema) && DistinctKeys(fixed) && forall e <- fixed :: '/' !in e.0
    ensures forall e <- fixed :: Lookup(fixed + Flat(ps, ProcessorEntries), e.0) == Some(e.1)
    ensures forall e <- fixed :: Lookup(fixed + Flat(ps, ExporterEntries), e.0) == Some(e.1)
  {
    hide Renderable, Lookup;
    SectionDistinct(ps, schema, fixed);
    forall e <- fixed
      ensures Lookup(fixed + Flat(ps, ProcessorEntries), e.0) == Some(e.1)
      ensures Lookup(fixed + Flat(ps, ExporterEntries), e.0) == Some(e.1)
    {
      LookupMember(fixed + Flat(ps, ProcessorEntries), e.0, e.1);
      LookupMember(fixed + Flat(ps, ExporterEntries), e.0, e.1);
    }
  }

  // ---------------------------------------------------------------------
  // Walking lists of resolvable IDs

  function IDs(es: seq<(string, Yaml)>): seq<string> {
    seq(|es|, i requires 0 <= i < |es| => es[i].0)
  }

  lemma {:induction false} ResolveEntries(section: seq<(string, Yaml)>, es: seq<(string, Yaml)>)
    requires forall e <- es :: Lookup(section, e.0) == Some(e.1)
    ensures Resolve(section, IDs(es)) == Some(es)
  {
    if es != [] {
      assert es[0] in es;
      assert IDs(es)[1..] == IDs(es[1..]);
      ResolveEntries(section, es[1..]);
      assert es == [es[0]] + es[1..];
    }
  }

  lemma {:induction false} ResolveConcat(section: seq<(string, Yaml)>, a: seq<(string, Yaml)>, b: seq<(string, Yaml)>)
    requires forall e <- a :: Lookup(section, e.0) == Some(e.1)
    requires forall e <- b :: Lookup(section, e.0) == Some(e.1)
    ensures Resolve(section, IDs(a) + IDs(b)) == Some(a + b)
  {
    assert IDs(a + b) == IDs(a) + IDs(b);
    ResolveEntries(section, a + b);
  }

  ghost function Each(done: seq<(string, Yaml)>, es: seq<(string, Yaml)>): seq<Delivery> {
    seq(|es|, i requires 0 <= i < |es| => Delivery(done, es[i]))
  }

  lemma {:induction false} ExportEntries(cfg: Config, es: seq<(string, Yaml)>, tenant: string, done: seq<(string, Yaml)>, hops: nat)
    requires forall e <- es :: Lookup(cfg.exporters, e.0) == Some(e.1) && Lookup(cfg.connectors, e.0) == None
    ensures ExportAll(cfg, IDs(es), tenant, done, hops) == Some(Each(done, es))
    decreases |es|
  {
    hide Lookup;
    if es != [] {
      assert es[0] in es;
      assert IDs(es)[1..] == IDs(es[1..]);
      ExportEntries(cfg, es[1..], tenant, done, hops);
      assert Each(done, es) == [Delivery(done, es[0])] + Each(done, es[1..]);
    }
  }

  lemma {:induction false} RunAllAppend(cfg: Config, ids: seq<string>, id: string, from: string, tenant: string,
                                        done: seq<(string, Yaml)>, hops: nat)
    ensures RunAll(cfg, ids + [id], from, tenant, done, hops) ==
            Join(RunAll(cfg, ids, from, tenant, done, hops), RunOne(cfg, id, from, tenant, done, hops))
    decreases |ids|
  {
    hide RunOne;
    if ids == [] {
      assert ids + [id] == [id] && [id][1..] == [];
      var one := RunOne(cfg, id, from, tenant, done, hops);
      assert one.Some? ==> one.value + [] == one.value && [] + one.value == one.value;
    } else {
      assert (ids + [id])[1..] == ids[1..] + [id];
      RunAllAppend(cfg, ids[1..], id, from, tenant, done, hops);
      JoinAssoc(RunOne(cfg, ids[0], from, tenant, done, hops), RunAll(cfg, ids[1..], from, tenant, done, hops),
                RunOne(cfg, id, from, tenant, done, hops));
    }
  }

  lemma JoinAssoc(a: Option<seq<Delivery>>, b: Option<seq<Delivery>>, c: Option<seq<Delivery>>)
    ensures Join(a, Join(b, c)) == Join(Join(a, b), c)
  {
    if a.Some? && b.Some? && c.Some? {
      assert a.value + (b.value + c.value) == (a.value + b.value) + c.value;
    }
  }

  lemma {:induction false} EntryIDsConcat(a: seq<(string, Pipeline)>, b: seq<(string, Pipeline)>, signal: string)
    ensures EntryIDs(a + b, signal) == EntryIDs(a, signal) + EntryIDs(b, signal)
    decreases |a|
  {
    hide ComponentType;
    if a == [] {
      assert a + b == b;
    } else {
      assert (a + b)[1..] == a[1..] + b;
      EntryIDsConcat(a[1..], b, signal);
    }
  }

  lemma {:induction false} NoEntryIDs(a: seq<(string, Pipeline)>, signal: string)
    requires forall e <- a :: "otlp" !in e.1.receivers
    ensures EntryIDs(a, signal) == []
  {
    hide ComponentType;
    if a != [] {
      assert a[0] in a;
      NoEntryIDs(a[1..], signal);
    }
  }
}
