/** The collector configs rendered from a customer's pipelines: sections are sequences of
    key/value entries in the order they are set, so a duplicate key is expressible. Constant
    sections that no pipeline influences are not represented. */
module Rendering {
  import opened Prelude
  import opened Values
  import opened Naming
  import opened Sequences
  import opened Validation
  import Sorting

  /** One active pipeline as the renderer sees it. */
  datatype RenderPipeline = RenderPipeline(customer: string, clientId: string, pipeline: string, graph: Graph)

  /** A service.pipelines entry: component IDs, in order. */
  datatype Pipeline = Pipeline(receivers: seq<string>, processors: seq<string>, exporters: seq<string>)

  /** A routing table entry. */
  datatype Route = Route(condition: string, pipelines: seq<string>)

  datatype Config = Config(processors: seq<(string, Yaml)>, connectors: seq<(string, seq<Route>)>,
                           exporters: seq<(string, Yaml)>, pipelines: seq<(string, Pipeline)>)

  // ---------------------------------------------------------------------
  // Fixed parts

  const DEBUG_CONFIG := Mapping([])

  const FIXED_PROCESSORS := [
    ("memory_limiter", Mapping([("check_interval", Scalar(Str("1s"))), ("limit_percentage", Scalar(Number("80"))),
                                ("spike_limit_percentage", Scalar(Number("20")))])),
    ("batch", Mapping([("send_batch_size", Scalar(Number("8192"))), ("timeout", Scalar(Str("5s")))]))]

  const FIXED_IDS := ["memory_limiter", "batch"]

  function RoutingID(signal: string): string {
    "routing/tenants_" + signal
  }

  function Escape(s: string): string {
    if s == "" then "" else (if s[0] == '"' || s[0] == '\\' then ['\\', s[0]] else [s[0]]) + Escape(s[1..])
  }

  /** The condition that selects a tenant's items, the client ID quoted. */
  function Condition(clientId: string): string {
    "resource.attributes[\"tenant.id\"] == " + "\"" + Escape(clientId) + "\""
  }

  // ---------------------------------------------------------------------
  // One pipeline

  /** A component's config; one that was left out is an empty mapping. */
  ghost function ConfigNode(config: Value): Yaml {
    ToNode(if config.Null? then Obj(map[]) else config)
  }

  ghost function NodeEntries(p: RenderPipeline, nodes: seq<Node>): seq<(string, Yaml)> {
    seq(|nodes|, i requires 0 <= i < |nodes| => (ComponentID(nodes[i], i, p.customer, p.pipeline), ConfigNode(nodes[i].config)))
  }

  ghost function ProcessorEntries(p: RenderPipeline): seq<(string, Yaml)> {
    NodeEntries(p, p.graph.processors)
  }

  ghost function ExporterEntries(p: RenderPipeline): seq<(string, Yaml)> {
    NodeEntries(p, p.graph.exporters)
  }

  function NodeIDs(p: RenderPipeline, nodes: seq<Node>): seq<string> {
    seq(|nodes|, i requires 0 <= i < |nodes| => ComponentID(nodes[i], i, p.customer, p.pipeline))
  }

  function PipelineID(p: RenderPipeline, signal: string): string {
    CollectorPipelineID(signal, p.customer, p.pipeline)
  }

  /** The pipeline's entry for one signal, fed by the signal's routing connector. */
  function RoutedPipeline(p: RenderPipeline, signal: string): Pipeline {
    Pipeline([RoutingID(signal)], NodeIDs(p, p.graph.processors), NodeIDs(p, p.graph.exporters))
  }

  /** One entry per listed signal the graph carries. */
  function PipelineEntries(p: RenderPipeline, signals: seq<string>): seq<(string, Pipeline)> {
    if signals == [] then [] else
    var sig := signals[|signals| - 1];
    PipelineEntries(p, signals[..|signals| - 1]) +
      if sig in p.graph.signals then [(PipelineID(p, sig), RoutedPipeline(p, sig))] else []
  }

  function CustomerPipelines(p: RenderPipeline): seq<(string, Pipeline)> {
    PipelineEntries(p, SIGNALS)
  }

  // ---------------------------------------------------------------------
  // Routing

  /** p once for every occurrence of the signal in its graph. */
  function Occurrences(p: RenderPipeline, signals: seq<string>, signal: string): seq<RenderPipeline> {
    if signals == [] then [] else
    Occurrences(p, signals[..|signals| - 1], signal) + if signals[|signals| - 1] == signal then [p] else []
  }

  /** The pipelines that carry a signal, in order. */
  function Carriers(ps: seq<RenderPipeline>, signal: string): seq<RenderPipeline> {
    if ps == [] then [] else
    var p := ps[|ps| - 1];
    Carriers(ps[..|ps| - 1], signal) + Occurrences(p, p.graph.signals, signal)
  }

  /** The client IDs of a list of pipelines, by first appearance. */
  function Clients(ps: seq<RenderPipeline>): seq<string> {
    if ps == [] then [] else
    var init, id := Clients(ps[..|ps| - 1]), ps[|ps| - 1].clientId;
    if id in init then init else init + [id]
  }

  /** The IDs of one client's pipelines. */
  function IDsOf(ps: seq<RenderPipeline>, clientId: string, signal: string): seq<string> {
    if ps == [] then [] else
    var p := ps[|ps| - 1];
    IDsOf(ps[..|ps| - 1], clientId, signal) + if p.clientId == clientId then [PipelineID(p, signal)] else []
  }

  function Routes(routed: seq<RenderPipeline>, signal: string): seq<Route> {
    var clients := Clients(routed);
    seq(|clients|, i requires 0 <= i < |clients| => Route(Condition(clients[i]), IDsOf(routed, clients[i], signal)))
  }

  function Connectors(ps: seq<RenderPipeline>, signals: seq<string>): seq<(string, seq<Route>)> {
    if signals == [] then [] else
    var sig := signals[|signals| - 1];
    Connectors(ps, signals[..|signals| - 1]) +
      if Carriers(ps, sig) == [] then [] else [(RoutingID(sig), Routes(Carriers(ps, sig), sig))]
  }

  predicate NeedsDebug(ps: seq<RenderPipeline>, signals: seq<string>) {
    exists sig <- signals :: Carriers(ps, sig) == []
  }

  function EntryPipeline(ps: seq<RenderPipeline>, signal: string): Pipeline {
    Pipeline(["otlp"], FIXED_IDS, [if Carriers(ps, signal) == [] then "debug" else RoutingID(signal)])
  }

  function Entries(ps: seq<RenderPipeline>, signals: seq<string>): seq<(string, Pipeline)> {
    if signals == [] then [] else
    var sig := signals[|signals| - 1];
    Entries(ps, signals[..|signals| - 1]) + [(sig + "/in", EntryPipeline(ps, sig))]
  }

  // ---------------------------------------------------------------------
  // The forwarding config, from pipelines in render order

  ghost function Forwarding(ps: seq<RenderPipeline>): Config {
    Config(FIXED_PROCESSORS + Flat(ps, ProcessorEntries),
           Connectors(ps, SIGNALS),
           (if NeedsDebug(ps, SIGNALS) then [("debug", DEBUG_CONFIG)] else []) + Flat(ps, ExporterEntries),
           Entries(ps, SIGNALS) + Flat(ps, CustomerPipelines))
  }

  // ---------------------------------------------------------------------
  // The edge config: no connectors, every pipeline reads the receiver itself

  function DirectPipeline(p: RenderPipeline): Pipeline {
    Pipeline(["otlp"], FIXED_IDS + NodeIDs(p, p.graph.processors), NodeIDs(p, p.graph.exporters))
  }

  function DirectEntries(p: RenderPipeline, signals: seq<string>): seq<(string, Pipeline)> {
    if signals == [] then [] else
    var sig := signals[|signals| - 1];
    DirectEntries(p, signals[..|signals| - 1]) + if sig in p.graph.signals then [(PipelineID(p, sig), DirectPipeline(p))] else []
  }

  function EdgePipelines(p: RenderPipeline): seq<(string, Pipeline)> {
    DirectEntries(p, SIGNALS)
  }

  ghost function Edge(ps: seq<RenderPipeline>): Config {
    Config(FIXED_PROCESSORS + Flat(ps, ProcessorEntries),
           [],
           (if ps == [] then [("debug", DEBUG_CONFIG)] else []) + Flat(ps, ExporterEntries),
           (if ps == [] then Entries(ps, SIGNALS) else []) + Flat(ps, EdgePipelines))
  }

  // ---------------------------------------------------------------------
  // Per-pipeline fragments

  ghost function Fragment(p: RenderPipeline): Config {
    Config(ProcessorEntries(p), [], ExporterEntries(p), CustomerPipelines(p))
  }

  ghost function EdgeFragment(p: RenderPipeline): Config {
    Config(ProcessorEntries(p), [], ExporterEntries(p), EdgePipelines(p))
  }

  ghost predicate BlockAt<T>(part: seq<T>, whole: seq<T>, i: int) {
    0 <= i <= |whole| - |part| && whole[i..i + |part|] == part
  }

  /** part occurs in whole as one block. */
  ghost predicate Within<T>(part: seq<T>, whole: seq<T>) {
    exists i :: BlockAt(part, whole, i)
  }

  lemma WithinAt<T>(part: seq<T>, whole: seq<T>, a: seq<T>, b: seq<T>)
    requires whole == a + part + b
    ensures Within(part, whole)
  {
    assert BlockAt(part, whole, |a|);
  }

  lemma FlatWithin<T, U>(xs: seq<T>, x: T, f: T -> seq<U>, before: seq<U>)
    requires x in xs
    ensures Within(f(x), before + Flat(xs, f))
  {
    var i :| 0 <= i < |xs| && xs[i] == x;
    FlatSplit(xs, i, f);
    var a, b := Flat(xs[..i], f), Flat(xs[i + 1..], f);
    assert before + (a + f(x) + b) == (before + a) + f(x) + b;
    WithinAt(f(x), before + Flat(xs, f), before + a, b);
  }

  /** Each pipeline's fragment appears in the full config, section by section, unchanged. */
  lemma FragmentEmbedded(ps: seq<RenderPipeline>, p: RenderPipeline)
    requires p in ps
    ensures Within(Fragment(p).processors, Forwarding(ps).processors)
    ensures Within(Fragment(p).exporters, Forwarding(ps).exporters)
    ensures Within(Fragment(p).pipelines, Forwarding(ps).pipelines)
  {
    hide Within;
    FlatWithin(ps, p, ProcessorEntries, FIXED_PROCESSORS);
    FlatWithin(ps, p, ExporterEntries, if NeedsDebug(ps, SIGNALS) then [("debug", DEBUG_CONFIG)] else []);
    FlatWithin(ps, p, CustomerPipelines, Entries(ps, SIGNALS));
  }

  lemma EdgeFragmentEmbedded(ps: seq<RenderPipeline>, p: RenderPipeline)
    requires p in ps
    ensures Within(EdgeFragment(p).processors, Edge(ps).processors)
    ensures Within(EdgeFragment(p).exporters, Edge(ps).exporters)
    ensures Within(EdgeFragment(p).pipelines, Edge(ps).pipelines)
  {
    hide Within;
    FlatWithin(ps, p, ProcessorEntries, FIXED_PROCESSORS);
    FlatWithin(ps, p, ExporterEntries, []);
    FlatWithin(ps, p, EdgePipelines, []);
  }

  // ---------------------------------------------------------------------
  // Render order and duplicates

  /** Pipelines are sorted by customer slug, then pipeline slug. */
  predicate SlugLe(a: RenderPipeline, b: RenderPipeline) {
    if a.customer != b.customer then Sorting.StringLe(a.customer, b.customer) else Sorting.StringLe(a.pipeline, b.pipeline)
  }

  function Key(p: RenderPipeline): string {
    PipelineKey(p.customer, p.pipeline)
  }

  /** The first key, in order, that an earlier pipeline already has. */
  function FirstDuplicate(ps: seq<RenderPipeline>): Option<string> {
    if ps == [] then None else
    var init := ps[..|ps| - 1];
    if FirstDuplicate(init).Some? then FirstDuplicate(init)
    else if Key(ps[|ps| - 1]) in Keys(init) then Some(Key(ps[|ps| - 1])) else None
  }

  function Keys(ps: seq<RenderPipeline>): seq<string> {
    seq(|ps|, i requires 0 <= i < |ps| => Key(ps[i]))
  }

  lemma {:induction false} NoDuplicate(ps: seq<RenderPipeline>)
    ensures FirstDuplicate(ps).None? <==> Sorting.Distinct(Keys(ps))
  {
    if ps != [] {
      var init, last := ps[..|ps| - 1], ps[|ps| - 1];
      NoDuplicate(init);
      assert Keys(ps) == Keys(init) + [Key(last)];
      Sorting.DistinctAppend(Keys(init), Key(last));
    }
  }

  // ---------------------------------------------------------------------
  // Order independence

  type Slugs = (string, string)

  function SlugPair(p: RenderPipeline): Slugs {
    (p.customer, p.pipeline)
  }

  function SlugsOf(ps: seq<RenderPipeline>): seq<Slugs> {
    Sorting.Map(ps, SlugPair)
  }

  predicate PairLe(a: Slugs, b: Slugs) {
    if a.0 != b.0 then Sorting.StringLe(a.0, b.0) else Sorting.StringLe(a.1, b.1)
  }

  lemma PairOrder()
    ensures Sorting.Preorder(PairLe) && Sorting.Antisymmetric(PairLe)
  {
    hide Sorting.StringLe;
    Sorting.StringOrder();
    assert forall a, b, c :: Sorting.StringLe(a, b) && Sorting.StringLe(b, c) ==> Sorting.StringLe(a, c);
    forall a, b ensures PairLe(a, b) || PairLe(b, a) {
    }
    forall a, b, c | PairLe(a, b) && PairLe(b, c) ensures PairLe(a, c) {
    }
    forall a, b | PairLe(a, b) && PairLe(b, a) ensures a == b {
    }
  }

  lemma SlugOrder()
    ensures Sorting.Preorder(SlugLe)
  {
    hide Sorting.StringLe;
    PairOrder();
    forall a, b: RenderPipeline ensures SlugLe(a, b) <==> PairLe((a.customer, a.pipeline), (b.customer, b.pipeline)) {
    }
    forall a: RenderPipeline, b: RenderPipeline ensures SlugLe(a, b) || SlugLe(b, a) {
      assert PairLe((a.customer, a.pipeline), (b.customer, b.pipeline)) || PairLe((b.customer, b.pipeline), (a.customer, a.pipeline));
    }
    forall a: RenderPipeline, b: RenderPipeline, c: RenderPipeline | SlugLe(a, b) && SlugLe(b, c) ensures SlugLe(a, c) {
      assert PairLe((a.customer, a.pipeline), (c.customer, c.pipeline));
    }
  }

  lemma SlugsSorted(ps: seq<RenderPipeline>)
    requires Sorting.Sorted(ps, SlugLe)
    ensures Sorting.Sorted(SlugsOf(ps), PairLe)
    ensures |SlugsOf(ps)| == |Keys(ps)| == |ps|
    ensures forall i :: 0 <= i < |ps| ==> Keys(ps)[i] == PipelineKey(SlugsOf(ps)[i].0, SlugsOf(ps)[i].1)
  {
    hide Sorting.StringLe;
    assert forall i :: 0 <= i < |ps| ==> SlugsOf(ps)[i] == SlugPair(ps[i]);
  }

  /** However the sort breaks ties, two sorted arrangements list the same slugs in the same order. */
  lemma SameSlugs(a: seq<RenderPipeline>, b: seq<RenderPipeline>)
    requires multiset(a) == multiset(b) && Sorting.Sorted(a, SlugLe) && Sorting.Sorted(b, SlugLe)
    ensures SlugsOf(a) == SlugsOf(b) && Keys(a) == Keys(b)
  {
    hide Sorting.StringLe, Sorting.Preorder, Sorting.Antisymmetric;
    PairOrder();
    Sorting.MapPermutes(a, b, SlugPair);
    SlugsSorted(a);
    SlugsSorted(b);
    Sorting.SortedUnique(SlugsOf(a), SlugsOf(b), PairLe);
    forall i | 0 <= i < |a| ensures i < |b| && Keys(a)[i] == Keys(b)[i] {
      assert SlugsOf(a)[i] == SlugsOf(b)[i];
    }
  }

  lemma {:induction false} SameDuplicate(a: seq<RenderPipeline>, b: seq<RenderPipeline>)
    requires Keys(a) == Keys(b)
    ensures FirstDuplicate(a) == FirstDuplicate(b)
    decreases |a|
  {
    if a != [] {
      assert |Keys(a)| == |Keys(b)|;
      var a', b' := a[..|a| - 1], b[..|b| - 1];
      assert Keys(a') == Keys(a)[..|a| - 1] && Keys(b') == Keys(b)[..|b| - 1];
      SameDuplicate(a', b');
      assert Key(a[|a| - 1]) == Keys(a)[|a| - 1] && Key(b[|b| - 1]) == Keys(b)[|b| - 1];
    }
  }

  /** Without duplicate keys there is only one sorted arrangement. */
  lemma SameOrder(a: seq<RenderPipeline>, b: seq<RenderPipeline>)
    requires multiset(a) == multiset(b) && Sorting.Sorted(a, SlugLe) && Sorting.Sorted(b, SlugLe)
    requires FirstDuplicate(a).None?
    ensures a == b
  {
    hide Sorting.Sorted, Sorting.StringLe, FirstDuplicate;
    SameSlugs(a, b);
    NoDuplicate(a);
    forall i | 0 <= i < |a| ensures i < |b| && a[i] == b[i] {
      assert |a| == |Keys(a)| == |Keys(b)| == |b|;
      assert a[i] in multiset(a) && a[i] in b;
      var j :| 0 <= j < |b| && b[j] == a[i];
      assert Keys(b)[j] == Key(a[i]) == Keys(a)[i];
      assert Keys(a)[j] == Keys(a)[i];
    }
  }
}
