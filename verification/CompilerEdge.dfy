/** Corollaries of compiler correctness, and its counterpart for the config of edge agents. */
module CompilerEdge {
  import opened Prelude
  import opened Values
  import opened Naming
  import opened Sequences
  import opened Validation
  import opened Rendering
  import opened Collector
  import opened CompilerCorrectness

  // ---------------------------------------------------------------------
  // Membership form

  lemma DeliveryOf(p: RenderPipeline, d: Delivery)
    ensures d in Deliveries(p) <==> d.processors == FIXED_PROCESSORS + ProcessorEntries(p) && d.exporter in ExporterEntries(p)
  {
    hide ProcessorEntries, ExporterEntries;
    var es := ExporterEntries(p);
    if d.processors == FIXED_PROCESSORS + ProcessorEntries(p) && d.exporter in es {
      var i :| 0 <= i < |es| && es[i] == d.exporter;
      assert Deliveries(p)[i] == d;
    }
  }

  /** Tenant isolation, both ways: where some pipeline carries the signal, an item reaches an
      exporter exactly when a pipeline of the item's own tenant that carries the signal has it. */
  lemma DeliveredExactly(ps: seq<RenderPipeline>, schema: Schema, sig: string, tenant: string, d: Delivery)
    requires Renderable(ps, schema) && sig in SIGNALS
    requires exists p <- ps :: sig in p.graph.signals
    ensures Deliver(Forwarding(ps), sig, tenant).Some?
    ensures d in Deliver(Forwarding(ps), sig, tenant).value <==>
            exists p <- ps :: p.clientId == tenant && sig in p.graph.signals
                           && d.processors == FIXED_PROCESSORS + ProcessorEntries(p) && d.exporter in ExporterEntries(p)
  {
    hide Renderable, Forwarding, Deliver, Deliveries, ProcessorEntries, ExporterEntries, Serving, Flat;
    ForwardingMeans(ps, schema, sig, tenant);
    var serving := Serving(ps, sig, tenant);
    FlatMember(serving, Deliveries, d);
    forall p ensures d in Deliveries(p) <==> d.processors == FIXED_PROCESSORS + ProcessorEntries(p) && d.exporter in ExporterEntries(p) {
      DeliveryOf(p, d);
    }
    forall p ensures p in serving <==> p in ps && sig in p.graph.signals && p.clientId == tenant {
      ServingAre(ps, sig, tenant, p);
    }
  }

  // ---------------------------------------------------------------------
  // Every reference in the forwarding config resolves

  /** A pipeline's receivers, processors and exporters are each defined exactly once. */
  ghost predicate Resolves(cfg: Config, p: Pipeline) {
    && (forall id <- p.receivers :: id == "otlp" || Lookup(cfg.connectors, id).Some?)
    && (forall id <- p.processors :: Lookup(cfg.processors, id).Some?)
    && (forall id <- p.exporters :: Lookup(cfg.exporters, id).Some? || Lookup(cfg.connectors, id).Some?)
  }

  /** The pipelines a connector routes to are defined once and list it as their receiver. */
  ghost predicate Feeds(cfg: Config, connector: (string, seq<Route>)) {
    forall route <- connector.1, id <- route.pipelines ::
      Lookup(cfg.pipelines, id).Some? && connector.0 in Lookup(cfg.pipelines, id).value.receivers
  }

  ghost predicate Coherent(cfg: Config) {
    && DistinctKeys(cfg.processors) && DistinctKeys(cfg.connectors) && DistinctKeys(cfg.exporters) && DistinctKeys(cfg.pipelines)
    && (forall e <- cfg.pipelines :: Resolves(cfg, e.1))
    && (forall c <- cfg.connectors :: Feeds(cfg, c))
  }

  lemma IDOf(es: seq<(string, Yaml)>, id: string)
    ensures id in IDs(es) ==> exists e <- es :: e.0 == id
  {
    if id in IDs(es) {
      var i :| 0 <= i < |es| && IDs(es)[i] == id;
      assert es[i] in es;
    }
  }

  lemma NodesResolve(ps: seq<RenderPipeline>, schema: Schema, p: RenderPipeline, debug: bool)
    requires Renderable(ps, schema) && p in ps
    ensures forall id <- NodeIDs(p, p.graph.processors) :: Lookup(FIXED_PROCESSORS + Flat(ps, ProcessorEntries), id).Some?
    ensures forall id <- NodeIDs(p, p.graph.exporters) :: Lookup(DebugPart(debug) + Flat(ps, ExporterEntries), id).Some?
  {
    hide Renderable, Lookup, NodeEntries, NodeIDs, Flat, IDs;
    FixedSection();
    ComponentsFound(ps, schema, FIXED_PROCESSORS, p);
    ComponentsFound(ps, schema, DebugPart(debug), p);
    IDsAreEntries(p, p.graph.processors);
    IDsAreEntries(p, p.graph.exporters);
    forall id ensures id in NodeIDs(p, p.graph.processors) ==> exists e <- ProcessorEntries(p) :: e.0 == id {
      IDOf(ProcessorEntries(p), id);
    }
    forall id ensures id in NodeIDs(p, p.graph.exporters) ==> exists e <- ExporterEntries(p) :: e.0 == id {
      IDOf(ExporterEntries(p), id);
    }
  }

  lemma FixedResolve(ps: seq<RenderPipeline>, schema: Schema)
    requires Renderable(ps, schema)
    ensures forall id <- FIXED_IDS :: Lookup(FIXED_PROCESSORS + Flat(ps, ProcessorEntries), id).Some?
    ensures Lookup(DebugPart(true) + Flat(ps, ExporterEntries), "debug").Some?
  {
    hide Renderable, Lookup, Flat, IDs;
    FixedSection();
    FixedFound(ps, schema, FIXED_PROCESSORS);
    FixedFound(ps, schema, DebugPart(true));
    assert ("debug", DEBUG_CONFIG) in DebugPart(true);
    forall id <- FIXED_IDS ensures exists e <- FIXED_PROCESSORS :: e.0 == id {
      IDOf(FIXED_PROCESSORS, id);
    }
  }

  lemma EntryResolves(ps: seq<RenderPipeline>, schema: Schema, sig: string)
    requires Renderable(ps, schema) && sig in SIGNALS
    ensures Resolves(Forwarding(ps), EntryPipeline(ps, sig))
  {
    hide Renderable, Lookup, Flat, Carriers, Connectors, Entries;
    FixedResolve(ps, schema);
    if Carriers(ps, sig) == [] {
      assert NeedsDebug(ps, SIGNALS);
    } else {
      ConnectorFound(ps, sig);
    }
  }

  lemma RoutedResolves(ps: seq<RenderPipeline>, schema: Schema, p: RenderPipeline, sig: string)
    requires Renderable(ps, schema) && p in ps && sig in SIGNALS && sig in p.graph.signals
    ensures Resolves(Forwarding(ps), RoutedPipeline(p, sig))
  {
    hide Renderable, Lookup, Flat, Carriers, Connectors, Entries, NodeIDs, NeedsDebug;
    NodesResolve(ps, schema, p, NeedsDebug(ps, SIGNALS));
    Graphs(ps, schema);
    CarriersAre(ps, sig);
    assert p in Carriers(ps, sig);
    ConnectorFound(ps, sig);
  }

  lemma {:induction false} IDsOfMember(ps: seq<RenderPipeline>, client: string, sig: string, id: string)
    requires id in IDsOf(ps, client, sig)
    ensures exists p <- ps :: id == PipelineID(p, sig)
  {
    hide PipelineID;
    if ps != [] {
      var init, last := ps[..|ps| - 1], ps[|ps| - 1];
      assert ps == init + [last];
      if id in IDsOf(init, client, sig) {
        IDsOfMember(init, client, sig, id);
      }
    }
  }

  lemma ConnectorFeeds(ps: seq<RenderPipeline>, schema: Schema, sig: string)
    requires Renderable(ps, schema) && sig in SIGNALS
    ensures Feeds(Forwarding(ps), (RoutingID(sig), Routes(Carriers(ps, sig), sig)))
  {
    hide Renderable, Lookup, Flat, Carriers, Connectors, Entries, NodeIDs, NeedsDebug, Clients, IDsOf, Condition, PipelineID, RoutingID;
    Graphs(ps, schema);
    CarriersAre(ps, sig);
    var routed := Carriers(ps, sig);
    forall route <- Routes(routed, sig), id <- route.pipelines
      ensures Lookup(Forwarding(ps).pipelines, id).Some? && RoutingID(sig) in Lookup(Forwarding(ps).pipelines, id).value.receivers
    {
      var i :| 0 <= i < |Clients(routed)| && Routes(routed, sig)[i] == route;
      IDsOfMember(routed, Clients(routed)[i], sig, id);
      var p :| p in routed && id == PipelineID(p, sig);
      PipelineFound(ps, schema, p, sig);
    }
  }

  lemma EntryOf(ps: seq<RenderPipeline>, e: (string, Pipeline))
    requires e in Entries(ps, SIGNALS)
    ensures exists sig <- SIGNALS :: e.1 == EntryPipeline(ps, sig)
  {
    hide EntryPipeline;
    EntriesAt(ps, SIGNALS);
    var k :| 0 <= k < |SIGNALS| && Entries(ps, SIGNALS)[k] == e;
    assert SIGNALS[k] in SIGNALS;
  }

  lemma RoutedOf(ps: seq<RenderPipeline>, e: (string, Pipeline))
    requires e in Flat(ps, CustomerPipelines)
    ensures exists p <- ps, sig <- SIGNALS :: sig in p.graph.signals && e.1 == RoutedPipeline(p, sig)
  {
    hide RoutedPipeline, PipelineEntries, PipelineID, DirectEntries, DirectPipeline;
    FlatMember(ps, CustomerPipelines, e);
    var p :| p in ps && e in CustomerPipelines(p);
    PipelineEntryOf(p, SIGNALS, e);
  }

  lemma PipelinesResolve(ps: seq<RenderPipeline>, schema: Schema, e: (string, Pipeline))
    requires Renderable(ps, schema) && e in Forwarding(ps).pipelines
    ensures Resolves(Forwarding(ps), e.1)
  {
    hide Renderable, Flat, Entries, Resolves, RoutedPipeline, EntryPipeline, Connectors, NeedsDebug;
    if e in Entries(ps, SIGNALS) {
      EntryOf(ps, e);
      var sig :| sig in SIGNALS && e.1 == EntryPipeline(ps, sig);
      EntryResolves(ps, schema, sig);
    } else {
      RoutedOf(ps, e);
      var p, sig :| p in ps && sig in SIGNALS && sig in p.graph.signals && e.1 == RoutedPipeline(p, sig);
      RoutedResolves(ps, schema, p, sig);
    }
  }

  /** The forwarding config is coherent: no key twice, no dangling reference, every routed
      pipeline reads the connector that routes to it. */
  lemma ForwardingCoherent(ps: seq<RenderPipeline>, schema: Schema)
    requires Renderable(ps, schema)
    ensures Coherent(Forwarding(ps))
  {
    hide Renderable, Flat, Entries, Resolves, Feeds, Connectors, NeedsDebug, Routes, DistinctKeys, RoutingID;
    var cfg := Forwarding(ps);
    FixedSection();
    SignalsApart();
    SectionDistinct(ps, schema, FIXED_PROCESSORS);
    NothingDistinct();
    SectionDistinct(ps, schema, DebugPart(NeedsDebug(ps, SIGNALS)));
    ConnectorsDistinct(ps, SIGNALS);
    PipelinesDistinct(ps, schema);
    forall e <- cfg.pipelines ensures Resolves(cfg, e.1) {
      PipelinesResolve(ps, schema, e);
    }
    forall c <- cfg.connectors ensures Feeds(cfg, c) {
      ConnectorOf(ps, SIGNALS, c);
      var sig :| sig in SIGNALS && c == (RoutingID(sig), Routes(Carriers(ps, sig), sig));
      ConnectorFeeds(ps, schema, sig);
    }
  }

  lemma NothingDistinct()
    ensures DistinctKeys<Yaml>([])
  {
  }

  // ---------------------------------------------------------------------
  // Edge agents

  /** The pipelines that carry the signal, whoever the tenant. */
  function Carrying(ps: seq<RenderPipeline>, sig: string): seq<RenderPipeline> {
    if ps == [] then [] else
    var p := ps[|ps| - 1];
    Carrying(ps[..|ps| - 1], sig) + if sig in p.graph.signals then [p] else []
  }

  ghost function EdgeExpected(ps: seq<RenderPipeline>, sig: string): seq<Delivery> {
    if ps == [] then [Delivery(FIXED_PROCESSORS, ("debug", DEBUG_CONFIG))] else Flat(Carrying(ps, sig), Deliveries)
  }

  lemma IdleConfigs()
    ensures Edge([]) == Forwarding([])
  {
    assert |SIGNALS| > 0 && Carriers([], SIGNALS[0]) == [];
    assert SIGNALS[0] in SIGNALS;
    NoConnectorsAt(SIGNALS);
  }

  lemma {:induction false} NoConnectorsAt(signals: seq<string>)
    ensures Connectors([], signals) == []
  {
    if signals != [] {
      NoConnectorsAt(signals[..|signals| - 1]);
    }
  }

  lemma PipelineType(p: RenderPipeline, sig: string)
    requires sig in SIGNALS
    ensures ComponentType(PipelineID(p, sig)) == sig
  {
    SignalText(sig);
    TypeOf(sig, PipelineKey(p.customer, p.pipeline));
  }

  lemma {:induction false} DirectEntryIDs(p: RenderPipeline, signals: seq<string>, sig: string)
    requires forall s <- signals :: s in SIGNALS
    requires forall i, j :: 0 <= i < j < |signals| ==> signals[i] != signals[j]
    ensures EntryIDs(DirectEntries(p, signals), sig) == if sig in signals && sig in p.graph.signals then [PipelineID(p, sig)] else []
  {
    hide PipelineID, EntryIDs, DirectPipeline;
    if signals == [] {
      NoEntryIDs([], sig);
    } else {
      var init, last := signals[..|signals| - 1], signals[|signals| - 1];
      DirectEntryIDs(p, init, sig);
      DirectEntryID(p, last, sig);
      var one := [(PipelineID(p, last), DirectPipeline(p))];
      EntryIDsConcat(DirectEntries(p, init), one, sig);
      assert signals == init + [last] && last !in init;
      assert last !in p.graph.signals ==> DirectEntries(p, signals) == DirectEntries(p, init);
    }
  }

  lemma DirectEntryID(p: RenderPipeline, signal: string, sig: string)
    requires signal in SIGNALS
    ensures EntryIDs([(PipelineID(p, signal), DirectPipeline(p))], sig) == if signal == sig then [PipelineID(p, signal)] else []
  {
    hide PipelineID, ComponentType, NodeIDs;
    PipelineType(p, signal);
    var one := [(PipelineID(p, signal), DirectPipeline(p))];
    assert one[1..] == [];
  }

  lemma {:induction false} EdgeEntryIDs(ps: seq<RenderPipeline>, sig: string)
    requires sig in SIGNALS
    ensures EntryIDs(Flat(ps, EdgePipelines), sig) == ServingIDs(Carrying(ps, sig), sig)
  {
    hide PipelineID, EntryIDs, DirectEntries;
    if ps == [] {
      NoEntryIDs([], sig);
    } else {
      var init, last := ps[..|ps| - 1], ps[|ps| - 1];
      EdgeEntryIDs(init, sig);
      SignalsApart();
      DirectEntryIDs(last, SIGNALS, sig);
      EntryIDsConcat(Flat(init, EdgePipelines), EdgePipelines(last), sig);
      var before := ServingIDs(Carrying(init, sig), sig);
      assert before + [] == before;
      assert ServingIDs(Carrying(init, sig) + [last], sig) == before + [PipelineID(last, sig)];
    }
  }

  lemma RunDirect(ps: seq<RenderPipeline>, schema: Schema, p: RenderPipeline, sig: string, tenant: string)
    requires Renderable(ps, schema) && p in ps && sig in SIGNALS && sig in p.graph.signals
    ensures RunOne(Edge(ps), PipelineID(p, sig), "otlp", tenant, [], 0) == Some(Deliveries(p))
  {
    hide Renderable, Lookup, NodeEntries, Entries, Flat, Resolve, ExportAll, PipelineID, NodeIDs, IDs;
    var cfg := Edge(ps);
    assert cfg.pipelines == [] + Flat(ps, EdgePipelines) == Flat(ps, EdgePipelines);
    PipelineFound(ps, schema, p, sig);
    FixedSection();
    assert [] + Flat(ps, ExporterEntries) == Flat(ps, ExporterEntries);
    NothingDistinct();
    ComponentsFound(ps, schema, FIXED_PROCESSORS, p);
    ComponentsFound(ps, schema, [], p);
    IDsAreEntries(p, p.graph.processors);
    IDsAreEntries(p, p.graph.exporters);
    ResolveConcat(cfg.processors, FIXED_PROCESSORS, ProcessorEntries(p));
    var done := FIXED_PROCESSORS + ProcessorEntries(p);
    assert [] + done == done;
    NoKeys(ExporterEntries(p));
    ExportEntries(cfg, ExporterEntries(p), tenant, done, 0);
    assert Each(done, ExporterEntries(p)) == Deliveries(p);
  }

  lemma NoKeys(es: seq<(string, Yaml)>)
    ensures forall e <- es :: Lookup<seq<Route>>([], e.0) == None
  {
  }

  lemma {:induction false} RunCarrying(ps: seq<RenderPipeline>, schema: Schema, carrying: seq<RenderPipeline>, sig: string, tenant: string)
    requires Renderable(ps, schema) && sig in SIGNALS && forall p <- carrying :: p in ps && sig in p.graph.signals
    ensures RunAll(Edge(ps), ServingIDs(carrying, sig), "otlp", tenant, [], 0) == Some(Flat(carrying, Deliveries))
    decreases |carrying|
  {
    hide Renderable, Edge, RunOne, PipelineID, Deliveries;
    if carrying != [] {
      var init, last := carrying[..|carrying| - 1], carrying[|carrying| - 1];
      assert last in carrying;
      RunCarrying(ps, schema, init, sig, tenant);
      RunDirect(ps, schema, last, sig, tenant);
      assert ServingIDs(carrying, sig) == ServingIDs(init, sig) + [PipelineID(last, sig)];
      RunAllAppend(Edge(ps), ServingIDs(init, sig), PipelineID(last, sig), "otlp", tenant, [], 0);
    } else {
      assert ServingIDs(carrying, sig) == [];
    }
  }

  lemma {:induction false} CarryingAre(ps: seq<RenderPipeline>, sig: string)
    ensures forall p :: p in Carrying(ps, sig) <==> p in ps && sig in p.graph.signals
  {
    if ps != [] {
      CarryingAre(ps[..|ps| - 1], sig);
      assert ps == ps[..|ps| - 1] + [ps[|ps| - 1]];
    }
  }

  /** The edge config delivers an item to the exporters of exactly the pipelines that carry its
      signal, after the shared and their own processors, and to `debug` only when idle. */
  lemma EdgeMeans(ps: seq<RenderPipeline>, schema: Schema, sig: string, tenant: string)
    requires Renderable(ps, schema) && sig in SIGNALS
    ensures Deliver(Edge(ps), sig, tenant) == Some(EdgeExpected(ps, sig))
  {
    hide Renderable, RunAll, EntryIDs, Flat, Deliveries, ServingIDs, Entries;
    if ps == [] {
      IdleConfigs();
      ForwardingMeans(ps, schema, sig, tenant);
    } else {
      assert Edge(ps).pipelines == [] + Flat(ps, EdgePipelines) == Flat(ps, EdgePipelines);
      EdgeEntryIDs(ps, sig);
      CarryingAre(ps, sig);
      RunCarrying(ps, schema, Carrying(ps, sig), sig, tenant);
    }
  }

  lemma DirectResolves(ps: seq<RenderPipeline>, schema: Schema, p: RenderPipeline)
    requires Renderable(ps, schema) && p in ps
    ensures Resolves(Edge(ps), DirectPipeline(p))
  {
    hide Renderable, Lookup, Flat, Entries, NodeIDs;
    NodesResolve(ps, schema, p, false);
    FixedResolve(ps, schema);
    assert DebugPart(false) + Flat(ps, ExporterEntries) == Flat(ps, ExporterEntries) == [] + Flat(ps, ExporterEntries);
  }

  lemma DirectOf(ps: seq<RenderPipeline>, e: (string, Pipeline))
    requires e in Flat(ps, EdgePipelines)
    ensures exists p <- ps :: e.1 == DirectPipeline(p)
  {
    hide RoutedPipeline, PipelineEntries, PipelineID, DirectEntries, DirectPipeline;
    FlatMember(ps, EdgePipelines, e);
    var p :| p in ps && e in EdgePipelines(p);
    PipelineEntryOf(p, SIGNALS, e);
  }

  lemma NoConnectorsDistinct()
    ensures DistinctKeys<seq<Route>>([])
  {
  }

  /** The edge config is coherent too. */
  lemma EdgeCoherent(ps: seq<RenderPipeline>, schema: Schema)
    requires Renderable(ps, schema)
    ensures Coherent(Edge(ps))
  {
    hide Renderable, Flat, Entries, Resolves, Feeds, DistinctKeys, Forwarding;
    if ps == [] {
      IdleConfigs();
      ForwardingCoherent(ps, schema);
    } else {
      var cfg := Edge(ps);
      FixedSection();
      NothingDistinct();
      NoConnectorsDistinct();
      SectionDistinct(ps, schema, FIXED_PROCESSORS);
      SectionDistinct(ps, schema, []);
      PipelinesDistinct(ps, schema);
      assert cfg.pipelines == [] + Flat(ps, EdgePipelines) == Flat(ps, EdgePipelines);
      forall e <- cfg.pipelines ensures Resolves(cfg, e.1) {
        DirectOf(ps, e);
        var p :| p in ps && e.1 == DirectPipeline(p);
        DirectResolves(ps, schema, p);
      }
    }
  }
}
