/** The renderers themselves: sorting, the duplicate check, the signal index, and the loops that
    build each section, proved to produce the configs of module Rendering. */
module Renderer {
  import opened Prelude
  import opened Values
  import opened Naming
  import opened Sequences
  import opened Validation
  import opened Rendering
  import Sorting

  // ---------------------------------------------------------------------
  // Specification

  /** The pipelines in render order. */
  function InOrder(ps: seq<RenderPipeline>): seq<RenderPipeline> {
    Sorting.Sort(ps, SlugLe)
  }

  /** The config, or the first duplicate pipeline key in render order. */
  ghost function Rendered(ps: seq<RenderPipeline>): Result<Config, string> {
    var dup := FirstDuplicate(InOrder(ps));
    if dup.Some? then Err(dup.value) else Ok(Forwarding(InOrder(ps)))
  }

  ghost function RenderedEdge(ps: seq<RenderPipeline>): Result<Config, string> {
    var dup := FirstDuplicate(InOrder(ps));
    if dup.Some? then Err(dup.value) else Ok(Edge(InOrder(ps)))
  }

  lemma InOrderSorted(ps: seq<RenderPipeline>)
    ensures multiset(InOrder(ps)) == multiset(ps) && Sorting.Sorted(InOrder(ps), SlugLe)
  {
    SlugOrder();
    Sorting.SortMultiset(ps, SlugLe);
    Sorting.SortSorted(ps, SlugLe);
  }

  /** Whichever sorted arrangement a sort produces, the outcome is the specified one. */
  lemma AnyOrder(ps: seq<RenderPipeline>, order: seq<RenderPipeline>)
    requires multiset(order) == multiset(ps) && Sorting.Sorted(order, SlugLe)
    ensures FirstDuplicate(order) == FirstDuplicate(InOrder(ps))
    ensures FirstDuplicate(order).None? ==> order == InOrder(ps)
  {
    hide Sorting.Sorted, Sorting.Sort, FirstDuplicate, Keys, SlugLe, SlugsOf;
    InOrderSorted(ps);
    SameSlugs(order, InOrder(ps));
    SameDuplicate(order, InOrder(ps));
    if FirstDuplicate(order).None? {
      SameOrder(order, InOrder(ps));
    }
  }

  /** Rendering does not depend on the order the pipelines come in: any permutation yields the
      same config, or fails on the same key. */
  lemma OrderIndependent(a: seq<RenderPipeline>, b: seq<RenderPipeline>)
    requires multiset(a) == multiset(b)
    ensures Rendered(a) == Rendered(b) && RenderedEdge(a) == RenderedEdge(b)
  {
    hide Sorting.Sorted, InOrder, FirstDuplicate, Forwarding, Edge, SlugLe;
    InOrderSorted(b);
    AnyOrder(a, InOrder(b));
  }

  /** Rendering fails exactly when two pipelines share a key. */
  lemma FailsExactly(ps: seq<RenderPipeline>)
    ensures Rendered(ps).Ok? <==> Sorting.Distinct(Keys(ps))
    ensures RenderedEdge(ps).Ok? <==> Sorting.Distinct(Keys(ps))
  {
    hide Sorting.Sorted, InOrder, FirstDuplicate, Forwarding, Edge, SlugLe, Sorting.Distinct;
    InOrderSorted(ps);
    NoDuplicate(InOrder(ps));
    Sorting.MapPermutes(ps, InOrder(ps), Key);
    assert Keys(ps) == Sorting.Map(ps, Key) && Keys(InOrder(ps)) == Sorting.Map(InOrder(ps), Key);
    if Sorting.Distinct(Keys(ps)) {
      Sorting.DistinctPermutation(Keys(ps), Keys(InOrder(ps)));
    }
    if Sorting.Distinct(Keys(InOrder(ps))) {
      Sorting.DistinctPermutation(Keys(InOrder(ps)), Keys(ps));
    }
  }

  // ---------------------------------------------------------------------
  // Sorting, duplicates, index

  method SortBySlugs(pipelines: seq<RenderPipeline>) returns (ps: seq<RenderPipeline>)
    ensures multiset(ps) == multiset(pipelines) && Sorting.Sorted(ps, SlugLe)
  {
    ps := Sorting.Sort(pipelines, SlugLe);
    InOrderSorted(pipelines);
  }

  method FindDuplicate(ps: seq<RenderPipeline>) returns (dup: Option<string>)
    ensures dup == FirstDuplicate(ps)
  {
    hide Key;
    var seen: set<string> := {};
    for i := 0 to |ps|
      invariant FirstDuplicate(ps[..i]).None?
      invariant forall k :: k in seen <==> k in Keys(ps[..i])
    {
      var key := Key(ps[i]);
      PrefixStep(ps, i);
      if key in seen {
        AfterDuplicate(ps, i + 1);
        return Some(key);
      }
      seen := seen + {key};
    }
    assert ps[..|ps|] == ps;
    dup := None;
  }

  lemma PrefixStep(ps: seq<RenderPipeline>, i: nat)
    requires i < |ps|
    ensures ps[..i + 1][..i] == ps[..i] && ps[..i + 1][i] == ps[i]
    ensures Keys(ps[..i + 1]) == Keys(ps[..i]) + [Key(ps[i])]
    ensures FirstDuplicate(ps[..i]).None? ==>
            FirstDuplicate(ps[..i + 1]) == if Key(ps[i]) in Keys(ps[..i]) then Some(Key(ps[i])) else None
  {
    assert ps[..i + 1][..i] == ps[..i];
    assert ps[..i + 1][..|ps[..i + 1]| - 1] == ps[..i];
  }

  lemma {:induction false} AfterDuplicate(ps: seq<RenderPipeline>, i: nat)
    requires i <= |ps| && FirstDuplicate(ps[..i]).Some?
    ensures FirstDuplicate(ps) == FirstDuplicate(ps[..i])
  {
    if i == |ps| {
      assert ps[..i] == ps;
    } else {
      var init := ps[..|ps| - 1];
      assert init[..i] == ps[..i];
      AfterDuplicate(init, i);
    }
  }

  function At(index: map<string, seq<RenderPipeline>>, sig: string): seq<RenderPipeline> {
    if sig in index then index[sig] else []
  }

  ghost predicate Indexes(index: map<string, seq<RenderPipeline>>, ps: seq<RenderPipeline>) {
    forall sig :: At(index, sig) == Carriers(ps, sig)
  }

  function Filed(index: map<string, seq<RenderPipeline>>, sig: string, p: RenderPipeline): map<string, seq<RenderPipeline>> {
    index[sig := At(index, sig) + [p]]
  }

  lemma FiledAt(index: map<string, seq<RenderPipeline>>, start: seq<RenderPipeline>, p: RenderPipeline,
                signals: seq<string>, j: nat, sig: string)
    requires j < |signals| && At(index, sig) == start + Occurrences(p, signals[..j], sig)
    ensures At(Filed(index, signals[j], p), sig) == start + Occurrences(p, signals[..j + 1], sig)
  {
    assert signals[..j + 1][..j] == signals[..j] && signals[..j + 1][j] == signals[j];
    var was := Occurrences(p, signals[..j], sig);
    assert was + [] == was;
    assert (start + was) + [p] == start + (was + [p]);
  }

  lemma OccursNowhere(p: RenderPipeline, signals: seq<string>)
    ensures forall sig :: Occurrences(p, signals[..0], sig) == []
  {
  }

  method IndexOne(index: map<string, seq<RenderPipeline>>, p: RenderPipeline) returns (index': map<string, seq<RenderPipeline>>)
    ensures forall sig :: At(index', sig) == At(index, sig) + Occurrences(p, p.graph.signals, sig)
  {
    hide At, Filed, Occurrences;
    var signals := p.graph.signals;
    index' := index;
    OccursNowhere(p, signals);
    for j := 0 to |signals|
      invariant forall sig :: At(index', sig) == At(index, sig) + Occurrences(p, signals[..j], sig)
    {
      ghost var before := index';
      index' := Filed(index', signals[j], p);
      forall sig ensures At(index', sig) == At(index, sig) + Occurrences(p, signals[..j + 1], sig) {
        FiledAt(before, At(index, sig), p, signals, j, sig);
      }
    }
    assert signals[..|signals|] == signals;
  }

  method IndexSignals(ps: seq<RenderPipeline>) returns (index: map<string, seq<RenderPipeline>>)
    ensures Indexes(index, ps)
  {
    hide Occurrences;
    index := map[];
    for i := 0 to |ps|
      invariant Indexes(index, ps[..i])
    {
      ghost var before := index;
      index := IndexOne(index, ps[i]);
      assert ps[..i + 1][..i] == ps[..i] && ps[..i + 1][i] == ps[i];
      forall sig ensures At(index, sig) == Carriers(ps[..i + 1], sig) {
        assert At(before, sig) == Carriers(ps[..i], sig);
      }
    }
    assert ps[..|ps|] == ps;
  }

  // ---------------------------------------------------------------------
  // Components

  method SetNodes(p: RenderPipeline, nodes: seq<Node>, section: seq<(string, Yaml)>) returns (section': seq<(string, Yaml)>)
    ensures section' == section + NodeEntries(p, nodes)
  {
    hide ToNode, ComponentID;
    section' := section;
    for i := 0 to |nodes|
      invariant section' == section + NodeEntries(p, nodes)[..i]
    {
      var config := EncodeNode(if nodes[i].config.Null? then Obj(map[]) else nodes[i].config);
      section' := section' + [(ComponentID(nodes[i], i, p.customer, p.pipeline), config)];
      assert NodeEntries(p, nodes)[..i + 1] == NodeEntries(p, nodes)[..i] + [NodeEntries(p, nodes)[i]];
      assert (section + NodeEntries(p, nodes)[..i]) + [NodeEntries(p, nodes)[i]] ==
             section + (NodeEntries(p, nodes)[..i] + [NodeEntries(p, nodes)[i]]);
    }
    assert NodeEntries(p, nodes)[..|nodes|] == NodeEntries(p, nodes);
  }

  method AppendIDs(p: RenderPipeline, nodes: seq<Node>, ids: seq<string>) returns (ids': seq<string>)
    ensures ids' == ids + NodeIDs(p, nodes)
  {
    hide ComponentID;
    ids' := ids;
    for i := 0 to |nodes|
      invariant ids' == ids + NodeIDs(p, nodes)[..i]
    {
      ids' := ids' + [ComponentID(nodes[i], i, p.customer, p.pipeline)];
      assert NodeIDs(p, nodes)[..i + 1] == NodeIDs(p, nodes)[..i] + [NodeIDs(p, nodes)[i]];
    }
    assert NodeIDs(p, nodes)[..|nodes|] == NodeIDs(p, nodes);
  }

  lemma FlatNext<T, U>(xs: seq<T>, i: nat, f: T -> seq<U>, before: seq<U>)
    requires i < |xs|
    ensures before + Flat(xs[..i + 1], f) == (before + Flat(xs[..i], f)) + f(xs[i])
  {
    assert xs[..i + 1][..i] == xs[..i];
    assert before + (Flat(xs[..i], f) + f(xs[i])) == (before + Flat(xs[..i], f)) + f(xs[i]);
  }

  method SetProcessors(ps: seq<RenderPipeline>, section: seq<(string, Yaml)>) returns (section': seq<(string, Yaml)>)
    ensures section' == section + Flat(ps, ProcessorEntries)
  {
    hide NodeEntries, Flat;
    section' := section;
    FlatNone(ps, ProcessorEntries);
    for i := 0 to |ps|
      invariant section' == section + Flat(ps[..i], ProcessorEntries)
    {
      section' := SetNodes(ps[i], ps[i].graph.processors, section');
      FlatNext(ps, i, ProcessorEntries, section);
    }
    assert ps[..|ps|] == ps;
  }

  method SetExporters(ps: seq<RenderPipeline>, section: seq<(string, Yaml)>) returns (section': seq<(string, Yaml)>)
    ensures section' == section + Flat(ps, ExporterEntries)
  {
    hide NodeEntries, Flat;
    section' := section;
    FlatNone(ps, ExporterEntries);
    for i := 0 to |ps|
      invariant section' == section + Flat(ps[..i], ExporterEntries)
    {
      section' := SetNodes(ps[i], ps[i].graph.exporters, section');
      FlatNext(ps, i, ExporterEntries, section);
    }
    assert ps[..|ps|] == ps;
  }

  lemma FlatNone<T, U>(xs: seq<T>, f: T -> seq<U>)
    ensures Flat(xs[..0], f) == []
  {
  }

  // ---------------------------------------------------------------------
  // Connectors

  function Listed(byClient: map<string, seq<string>>, id: string): seq<string> {
    if id in byClient then byClient[id] else []
  }

  ghost predicate Gathered(byClient: map<string, seq<string>>, order: seq<string>, routed: seq<RenderPipeline>, sig: string) {
    && order == Clients(routed)
    && (forall id :: id in byClient <==> id in order)
    && (forall id :: Listed(byClient, id) == IDsOf(routed, id, sig))
  }

  lemma GatherStep(byClient: map<string, seq<string>>, order: seq<string>, routed: seq<RenderPipeline>, i: nat, sig: string)
    requires i < |routed| && Gathered(byClient, order, routed[..i], sig)
    ensures var p := routed[i];
            Gathered(byClient[p.clientId := Listed(byClient, p.clientId) + [PipelineID(p, sig)]],
                     if p.clientId in byClient then order else order + [p.clientId], routed[..i + 1], sig)
  {
    hide PipelineID;
    var p := routed[i];
    assert routed[..i + 1][..i] == routed[..i] && routed[..i + 1][i] == p;
    var byClient' := byClient[p.clientId := Listed(byClient, p.clientId) + [PipelineID(p, sig)]];
    forall id ensures Listed(byClient', id) == IDsOf(routed[..i + 1], id, sig) {
      assert Listed(byClient, id) == IDsOf(routed[..i], id, sig);
      assert Listed(byClient, id) + [] == Listed(byClient, id);
    }
  }

  /** The clients in order of first appearance, each with its pipelines. */
  method GatherClients(routed: seq<RenderPipeline>, sig: string) returns (byClient: map<string, seq<string>>, clientOrder: seq<string>)
    ensures Gathered(byClient, clientOrder, routed, sig)
  {
    hide Gathered, PipelineID, Listed;
    byClient, clientOrder := map[], [];
    GatherNone(routed, sig);
    for i := 0 to |routed|
      invariant Gathered(byClient, clientOrder, routed[..i], sig)
    {
      var p := routed[i];
      GatherStep(byClient, clientOrder, routed, i, sig);
      if p.clientId !in byClient {
        clientOrder := clientOrder + [p.clientId];
      }
      byClient := byClient[p.clientId := Listed(byClient, p.clientId) + [PipelineID(p, sig)]];
    }
    assert routed[..|routed|] == routed;
  }

  lemma GatherNone(routed: seq<RenderPipeline>, sig: string)
    ensures Gathered(map[], [], routed[..0], sig)
  {
  }

  /** One table entry per client, in order of first appearance, with that client's pipelines. */
  method BuildTable(routed: seq<RenderPipeline>, sig: string) returns (table: seq<Route>)
    ensures table == Routes(routed, sig)
  {
    hide Condition, Clients, IDsOf;
    var byClient, clientOrder := GatherClients(routed, sig);
    table := [];
    for i := 0 to |clientOrder|
      invariant table == Routes(routed, sig)[..i]
    {
      assert Listed(byClient, clientOrder[i]) == IDsOf(routed, clientOrder[i], sig);
      table := table + [Route(Condition(clientOrder[i]), byClient[clientOrder[i]])];
    }
  }

  method BuildConnectors(ghost ps: seq<RenderPipeline>, index: map<string, seq<RenderPipeline>>)
      returns (connectors: seq<(string, seq<Route>)>)
    requires Indexes(index, ps)
    ensures connectors == Connectors(ps, SIGNALS)
  {
    hide Carriers, Routes, RoutingID;
    connectors := [];
    for i := 0 to |SIGNALS|
      invariant connectors == Connectors(ps, SIGNALS[..i])
    {
      assert SIGNALS[..i + 1][..i] == SIGNALS[..i] && SIGNALS[..i + 1][i] == SIGNALS[i];
      var routed := At(index, SIGNALS[i]);
      if |routed| > 0 {
        var table := BuildTable(routed, SIGNALS[i]);
        connectors := connectors + [(RoutingID(SIGNALS[i]), table)];
      }
    }
    assert SIGNALS[..|SIGNALS|] == SIGNALS;
  }

  // ---------------------------------------------------------------------
  // service.pipelines

  method BuildEntries(ghost ps: seq<RenderPipeline>, index: map<string, seq<RenderPipeline>>) returns (entries: seq<(string, Pipeline)>)
    requires Indexes(index, ps)
    ensures entries == Entries(ps, SIGNALS)
  {
    hide Carriers, RoutingID;
    entries := [];
    for i := 0 to |SIGNALS|
      invariant entries == Entries(ps, SIGNALS[..i])
    {
      assert SIGNALS[..i + 1][..i] == SIGNALS[..i] && SIGNALS[..i + 1][i] == SIGNALS[i];
      var sink := if |At(index, SIGNALS[i])| > 0 then RoutingID(SIGNALS[i]) else "debug";
      entries := entries + [(SIGNALS[i] + "/in", Pipeline(["otlp"], FIXED_IDS, [sink]))];
    }
    assert SIGNALS[..|SIGNALS|] == SIGNALS;
  }

  method HasSignal(signals: seq<string>, sig: string) returns (has: bool)
    ensures has <==> sig in signals
  {
    for i := 0 to |signals|
      invariant sig !in signals[..i]
    {
      if signals[i] == sig {
        return true;
      }
    }
    has := false;
  }

  method SetRouted(p: RenderPipeline, pipelines: seq<(string, Pipeline)>) returns (pipelines': seq<(string, Pipeline)>)
    ensures pipelines' == pipelines + CustomerPipelines(p)
  {
    hide NodeIDs, PipelineID, RoutingID;
    pipelines' := pipelines;
    for i := 0 to |SIGNALS|
      invariant pipelines' == pipelines + PipelineEntries(p, SIGNALS[..i])
    {
      assert SIGNALS[..i + 1][..i] == SIGNALS[..i] && SIGNALS[..i + 1][i] == SIGNALS[i];
      var has := HasSignal(p.graph.signals, SIGNALS[i]);
      if has {
        var procIDs := AppendIDs(p, p.graph.processors, []);
        var expIDs := AppendIDs(p, p.graph.exporters, []);
        assert [] + NodeIDs(p, p.graph.processors) == NodeIDs(p, p.graph.processors);
        assert [] + NodeIDs(p, p.graph.exporters) == NodeIDs(p, p.graph.exporters);
        pipelines' := pipelines' + [(PipelineID(p, SIGNALS[i]), Pipeline([RoutingID(SIGNALS[i])], procIDs, expIDs))];
      }
    }
    assert SIGNALS[..|SIGNALS|] == SIGNALS;
  }

  method SetDirect(p: RenderPipeline, pipelines: seq<(string, Pipeline)>) returns (pipelines': seq<(string, Pipeline)>)
    ensures pipelines' == pipelines + EdgePipelines(p)
  {
    hide NodeIDs, PipelineID;
    pipelines' := pipelines;
    for i := 0 to |SIGNALS|
      invariant pipelines' == pipelines + DirectEntries(p, SIGNALS[..i])
    {
      assert SIGNALS[..i + 1][..i] == SIGNALS[..i] && SIGNALS[..i + 1][i] == SIGNALS[i];
      var has := HasSignal(p.graph.signals, SIGNALS[i]);
      if has {
        var procIDs := AppendIDs(p, p.graph.processors, ["memory_limiter", "batch"]);
        var expIDs := AppendIDs(p, p.graph.exporters, []);
        assert [] + NodeIDs(p, p.graph.exporters) == NodeIDs(p, p.graph.exporters);
        pipelines' := pipelines' + [(PipelineID(p, SIGNALS[i]), Pipeline(["otlp"], procIDs, expIDs))];
      }
    }
    assert SIGNALS[..|SIGNALS|] == SIGNALS;
  }

  method SetAllRouted(ps: seq<RenderPipeline>, pipelines: seq<(string, Pipeline)>) returns (pipelines': seq<(string, Pipeline)>)
    ensures pipelines' == pipelines + Flat(ps, CustomerPipelines)
  {
    hide CustomerPipelines, Flat;
    pipelines' := pipelines;
    FlatNone(ps, CustomerPipelines);
    for i := 0 to |ps|
      invariant pipelines' == pipelines + Flat(ps[..i], CustomerPipelines)
    {
      pipelines' := SetRouted(ps[i], pipelines');
      FlatNext(ps, i, CustomerPipelines, pipelines);
    }
    assert ps[..|ps|] == ps;
  }

  method SetAllDirect(ps: seq<RenderPipeline>, pipelines: seq<(string, Pipeline)>) returns (pipelines': seq<(string, Pipeline)>)
    ensures pipelines' == pipelines + Flat(ps, EdgePipelines)
  {
    hide EdgePipelines, Flat;
    pipelines' := pipelines;
    FlatNone(ps, EdgePipelines);
    for i := 0 to |ps|
      invariant pipelines' == pipelines + Flat(ps[..i], EdgePipelines)
    {
      pipelines' := SetDirect(ps[i], pipelines');
      FlatNext(ps, i, EdgePipelines, pipelines);
    }
    assert ps[..|ps|] == ps;
  }

  method AnyUnrouted(ghost ps: seq<RenderPipeline>, index: map<string, seq<RenderPipeline>>) returns (need: bool)
    requires Indexes(index, ps)
    ensures need <==> NeedsDebug(ps, SIGNALS)
  {
    hide Carriers;
    need := false;
    for i := 0 to |SIGNALS|
      invariant need <==> exists j :: 0 <= j < i && Carriers(ps, SIGNALS[j]) == []
    {
      if |At(index, SIGNALS[i])| == 0 {
        need := true;
      }
    }
    assert NeedsDebug(ps, SIGNALS) <==> exists j :: 0 <= j < |SIGNALS| && Carriers(ps, SIGNALS[j]) == [];
  }

  // ---------------------------------------------------------------------
  // The renderers

  method RenderForwardingConfig(pipelines: seq<RenderPipeline>) returns (r: Result<Config, string>)
    ensures r == Rendered(pipelines)
  {
    hide InOrder, FirstDuplicate, Connectors, Entries, Flat, NeedsDebug, Indexes, Sorting.Sorted;
    var ps := SortBySlugs(pipelines);
    AnyOrder(pipelines, ps);
    var dup := FindDuplicate(ps);
    if dup.Some? {
      return Err(dup.value);
    }
    var index := IndexSignals(ps);
    var processors := SetProcessors(ps, FIXED_PROCESSORS);
    var connectors := BuildConnectors(ps, index);
    var need := AnyUnrouted(ps, index);
    var exporters := SetExporters(ps, if need then [("debug", DEBUG_CONFIG)] else []);
    var entries := BuildEntries(ps, index);
    var svcPipelines := SetAllRouted(ps, entries);
    r := Ok(Config(processors, connectors, exporters, svcPipelines));
  }

  method RenderEdgeConfig(pipelines: seq<RenderPipeline>) returns (r: Result<Config, string>)
    ensures r == RenderedEdge(pipelines)
  {
    hide InOrder, FirstDuplicate, Entries, Flat, Sorting.Sorted;
    var ps := SortBySlugs(pipelines);
    AnyOrder(pipelines, ps);
    var dup := FindDuplicate(ps);
    if dup.Some? {
      return Err(dup.value);
    }
    var processors := SetProcessors(ps, FIXED_PROCESSORS);
    var exporters := SetExporters(ps, if |ps| == 0 then [("debug", DEBUG_CONFIG)] else []);
    var entries: seq<(string, Pipeline)> := [];
    if |ps| == 0 {
      entries := IdleEntries();
    }
    var svcPipelines := SetAllDirect(ps, entries);
    r := Ok(Config(processors, [], exporters, svcPipelines));
  }

  /** The receiver drained into `debug` for every signal. */
  method IdleEntries() returns (entries: seq<(string, Pipeline)>)
    ensures entries == Entries([], SIGNALS)
  {
    entries := [];
    for i := 0 to |SIGNALS|
      invariant entries == Entries([], SIGNALS[..i])
    {
      assert SIGNALS[..i + 1][..i] == SIGNALS[..i] && SIGNALS[..i + 1][i] == SIGNALS[i];
      entries := entries + [(SIGNALS[i] + "/in", Pipeline(["otlp"], FIXED_IDS, ["debug"]))];
    }
    assert SIGNALS[..|SIGNALS|] == SIGNALS;
  }

  method RenderFragment(p: RenderPipeline) returns (fragment: Config)
    ensures fragment == Fragment(p)
  {
    hide NodeEntries, CustomerPipelines;
    var processors := SetNodes(p, p.graph.processors, []);
    var exporters := SetNodes(p, p.graph.exporters, []);
    var svcPipelines := SetRouted(p, []);
    fragment := Config(processors, [], exporters, svcPipelines);
    assert [] + ProcessorEntries(p) == ProcessorEntries(p) && [] + ExporterEntries(p) == ExporterEntries(p);
    assert [] + CustomerPipelines(p) == CustomerPipelines(p);
  }

  method RenderEdgeFragment(p: RenderPipeline) returns (fragment: Config)
    ensures fragment == EdgeFragment(p)
  {
    hide NodeEntries, EdgePipelines;
    var processors := SetNodes(p, p.graph.processors, []);
    var exporters := SetNodes(p, p.graph.exporters, []);
    var svcPipelines := SetDirect(p, []);
    fragment := Config(processors, [], exporters, svcPipelines);
    assert [] + ProcessorEntries(p) == ProcessorEntries(p) && [] + ExporterEntries(p) == ExporterEntries(p);
    assert [] + EdgePipelines(p) == EdgePipelines(p);
  }
}
