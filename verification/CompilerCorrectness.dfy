/** The rendered configs mean what the pipelines say: an item reaches exactly the exporters of its
    tenant's pipelines for its signal, after exactly their processors. */
module CompilerCorrectness {
  import opened Prelude
  import opened Values
  import opened Naming
  import opened Sequences
  import opened Validation
  import opened Rendering
  import opened Collector

  // ---------------------------------------------------------------------
  // Pipeline IDs are defined once

  lemma SignalsApart()
    ensures |SIGNALS| == 3 && "logs" != "traces" && "logs" != "metrics" && "traces" != "metrics"
    ensures forall i, j :: 0 <= i < j < 3 ==> SIGNALS[i] != SIGNALS[j]
  {
    assert "logs"[0] != "traces"[0] && "logs"[0] != "metrics"[0] && "traces"[0] != "metrics"[0];
  }

  /** Entries over a list of signals, in order. */
  lemma {:induction false} EntriesAt(ps: seq<RenderPipeline>, signals: seq<string>)
    ensures |Entries(ps, signals)| == |signals|
    ensures forall i :: 0 <= i < |signals| ==> Entries(ps, signals)[i] == (signals[i] + "/in", EntryPipeline(ps, signals[i]))
  {
    hide EntryPipeline;
    if signals != [] {
      EntriesAt(ps, signals[..|signals| - 1]);
    }
  }

  lemma InApart(a: string, b: string)
    requires a + "/in" == b + "/in"
    ensures a == b
  {
    assert a == (a + "/in")[..|a|] && b == (b + "/in")[..|b|];
  }

  lemma EntriesDistinct(ps: seq<RenderPipeline>)
    ensures DistinctKeys(Entries(ps, SIGNALS))
  {
    hide EntryPipeline;
    EntriesAt(ps, SIGNALS);
    SignalsApart();
    forall i, j | 0 <= i < j < 3 ensures Entries(ps, SIGNALS)[i].0 != Entries(ps, SIGNALS)[j].0 {
      if Entries(ps, SIGNALS)[i].0 == Entries(ps, SIGNALS)[j].0 {
        InApart(SIGNALS[i], SIGNALS[j]);
      }
    }
  }

  /** The signal an entry of PipelineEntries or DirectEntries stands for. */
  lemma {:induction false} PipelineEntryOf(p: RenderPipeline, signals: seq<string>, e: (string, Pipeline))
    ensures e in PipelineEntries(p, signals) <==>
            exists sig <- signals :: sig in p.graph.signals && e == (PipelineID(p, sig), RoutedPipeline(p, sig))
    ensures e in DirectEntries(p, signals) <==>
            exists sig <- signals :: sig in p.graph.signals && e == (PipelineID(p, sig), DirectPipeline(p))
  {
    hide PipelineID, RoutedPipeline, DirectPipeline;
    if signals != [] {
      var init, last := signals[..|signals| - 1], signals[|signals| - 1];
      PipelineEntryOf(p, init, e);
      assert signals == init + [last];
    }
  }

  lemma {:induction false} PipelineEntriesDistinct(p: RenderPipeline, signals: seq<string>)
    requires Plain(p.customer) && (forall sig <- signals :: '/' !in sig)
    requires forall i, j :: 0 <= i < j < |signals| ==> signals[i] != signals[j]
    ensures DistinctKeys(PipelineEntries(p, signals)) && DistinctKeys(DirectEntries(p, signals))
  {
    hide PipelineID, RoutedPipeline, DirectPipeline, Plain;
    if signals != [] {
      var init, last := signals[..|signals| - 1], signals[|signals| - 1];
      PipelineEntriesDistinct(p, init);
      forall e | e in PipelineEntries(p, init) || e in DirectEntries(p, init) ensures e.0 != PipelineID(p, last) {
        PipelineEntryOf(p, init, e);
        var sig :| sig in init && e.0 == PipelineID(p, sig);
        if e.0 == PipelineID(p, last) {
          SamePipelineID(p, sig, p, last);
        }
      }
      DistinctConcat(PipelineEntries(p, init), [(PipelineID(p, last), RoutedPipeline(p, last))]);
      DistinctConcat(DirectEntries(p, init), [(PipelineID(p, last), DirectPipeline(p))]);
    }
  }

  lemma SamePipelineID(p: RenderPipeline, sig: string, q: RenderPipeline, sig': string)
    requires Plain(p.customer) && Plain(q.customer) && '/' !in sig && '/' !in sig'
    requires PipelineID(p, sig) == PipelineID(q, sig')
    ensures sig == sig' && SlugPair(p) == SlugPair(q)
  {
    PipelineIDInjective(sig, p.customer, p.pipeline, sig', q.customer, q.pipeline);
  }

  lemma InIsNoPipelineID(p: RenderPipeline, sig: string, sig': string)
    requires '/' !in sig && '/' !in sig'
    ensures PipelineID(p, sig) != sig' + "/in"
  {
    var key := PipelineKey(p.customer, p.pipeline);
    assert key[|p.customer|] == '_' && '_' in key && '_' !in "in";
    assert sig' + "/in" == sig' + "/" + "in";
    if PipelineID(p, sig) == sig' + "/in" {
      SlashSplit(sig, key, sig', "in");
    }
  }

  lemma AllSignalText()
    ensures forall sig <- SIGNALS :: '/' !in sig && Plain(sig)
  {
    forall sig <- SIGNALS ensures '/' !in sig && Plain(sig) {
      SignalText(sig);
    }
  }

  /** What a member of the flattened pipeline section is. */
  lemma SectionEntry(ps: seq<RenderPipeline>, e: (string, Pipeline)) returns (p: RenderPipeline, sig: string)
    requires e in Flat(ps, CustomerPipelines) || e in Flat(ps, EdgePipelines)
    ensures p in ps && sig in SIGNALS && sig in p.graph.signals && e.0 == PipelineID(p, sig)
    ensures e in Flat(ps, CustomerPipelines) && e !in Flat(ps, EdgePipelines) ==> e.1 == RoutedPipeline(p, sig)
    ensures e in Flat(ps, EdgePipelines) && e !in Flat(ps, CustomerPipelines) ==> e.1 == DirectPipeline(p)
  {
    hide PipelineEntries, DirectEntries, PipelineID, RoutedPipeline, DirectPipeline;
    FlatMember(ps, CustomerPipelines, e);
    FlatMember(ps, EdgePipelines, e);
    if e in Flat(ps, CustomerPipelines) {
      p :| p in ps && e in CustomerPipelines(p);
      PipelineEntryOf(p, SIGNALS, e);
      sig :| sig in SIGNALS && sig in p.graph.signals && e == (PipelineID(p, sig), RoutedPipeline(p, sig));
    } else {
      p :| p in ps && e in EdgePipelines(p);
      PipelineEntryOf(p, SIGNALS, e);
      sig :| sig in SIGNALS && sig in p.graph.signals && e == (PipelineID(p, sig), DirectPipeline(p));
    }
  }

  lemma KeysApart(ps: seq<RenderPipeline>, schema: Schema, i: nat, j: nat)
    requires Renderable(ps, schema) && i < j < |ps|
    ensures forall a <- CustomerPipelines(ps[i]), b <- CustomerPipelines(ps[j]) :: a.0 != b.0
    ensures forall a <- EdgePipelines(ps[i]), b <- EdgePipelines(ps[j]) :: a.0 != b.0
  {
    hide PipelineEntries, DirectEntries, PipelineID, RoutedPipeline, DirectPipeline, Plain, StructurallyValid;
    AllSignalText();
    assert ps[i] in ps && ps[j] in ps;
    forall a: (string, Pipeline), b: (string, Pipeline)
      | (a in CustomerPipelines(ps[i]) && b in CustomerPipelines(ps[j])) || (a in EdgePipelines(ps[i]) && b in EdgePipelines(ps[j]))
      ensures a.0 != b.0
    {
      PipelineEntryOf(ps[i], SIGNALS, a);
      PipelineEntryOf(ps[j], SIGNALS, b);
      var s :| s in SIGNALS && a.0 == PipelineID(ps[i], s);
      var t :| t in SIGNALS && b.0 == PipelineID(ps[j], t);
      if a.0 == b.0 {
        SamePipelineID(ps[i], s, ps[j], t);
      }
    }
  }

  lemma PipelinesDistinct(ps: seq<RenderPipeline>, schema: Schema)
    requires Renderable(ps, schema)
    ensures DistinctKeys(Entries(ps, SIGNALS) + Flat(ps, CustomerPipelines))
    ensures DistinctKeys(Flat(ps, EdgePipelines))
  {
    hide PipelineEntries, DirectEntries, PipelineID, Plain, StructurallyValid, EntryPipeline, SlugPair;
    AllSignalText();
    SignalsApart();
    forall p <- ps ensures DistinctKeys(CustomerPipelines(p)) && DistinctKeys(EdgePipelines(p)) {
      PipelineEntriesDistinct(p, SIGNALS);
    }
    forall i, j | 0 <= i < j < |ps|
      ensures forall a <- CustomerPipelines(ps[i]), b <- CustomerPipelines(ps[j]) :: a.0 != b.0
      ensures forall a <- EdgePipelines(ps[i]), b <- EdgePipelines(ps[j]) :: a.0 != b.0
    {
      KeysApart(ps, schema, i, j);
    }
    FlatDistinct(ps, CustomerPipelines);
    FlatDistinct(ps, EdgePipelines);
    EntriesDistinct(ps);
    EntriesAt(ps, SIGNALS);
    forall a <- Entries(ps, SIGNALS), b <- Flat(ps, CustomerPipelines) ensures a.0 != b.0 {
      var p, sig := SectionEntry(ps, b);
      var k :| 0 <= k < 3 && Entries(ps, SIGNALS)[k] == a;
      assert SIGNALS[k] in SIGNALS;
      InIsNoPipelineID(p, sig, SIGNALS[k]);
    }
    DistinctConcat(Entries(ps, SIGNALS), Flat(ps, CustomerPipelines));
  }

  lemma PipelineFound(ps: seq<RenderPipeline>, schema: Schema, p: RenderPipeline, sig: string)
    requires Renderable(ps, schema) && p in ps && sig in SIGNALS && sig in p.graph.signals
    ensures Lookup(Entries(ps, SIGNALS) + Flat(ps, CustomerPipelines), PipelineID(p, sig)) == Some(RoutedPipeline(p, sig))
    ensures Lookup(Flat(ps, EdgePipelines), PipelineID(p, sig)) == Some(DirectPipeline(p))
  {
    hide Renderable, PipelineEntries, DirectEntries, Entries, Lookup;
    PipelinesDistinct(ps, schema);
    var a, b := (PipelineID(p, sig), RoutedPipeline(p, sig)), (PipelineID(p, sig), DirectPipeline(p));
    PipelineEntryOf(p, SIGNALS, a);
    PipelineEntryOf(p, SIGNALS, b);
    FlatMember(ps, CustomerPipelines, a);
    FlatMember(ps, EdgePipelines, b);
    LookupMember(Entries(ps, SIGNALS) + Flat(ps, CustomerPipelines), a.0, a.1);
    LookupMember(Flat(ps, EdgePipelines), b.0, b.1);
  }

  lemma EntryFound(ps: seq<RenderPipeline>, schema: Schema, sig: string)
    requires Renderable(ps, schema) && sig in SIGNALS
    ensures Lookup(Entries(ps, SIGNALS) + Flat(ps, CustomerPipelines), sig + "/in") == Some(EntryPipeline(ps, sig))
  {
    hide Renderable, EntryPipeline, Lookup;
    PipelinesDistinct(ps, schema);
    EntriesAt(ps, SIGNALS);
    var k :| 0 <= k < |SIGNALS| && SIGNALS[k] == sig;
    var e := Entries(ps, SIGNALS)[k];
    LookupMember(Entries(ps, SIGNALS) + Flat(ps, CustomerPipelines), e.0, e.1);
  }

  // ---------------------------------------------------------------------
  // Only the signal's own entry reads the receiver

  lemma EntryType(sig: string)
    requires sig in SIGNALS
    ensures ComponentType(sig + "/in") == sig
  {
    SignalText(sig);
    assert sig + "/in" == sig + "/" + "in";
    TypeOf(sig, "in");
  }

  lemma {:induction false} EntryIDsOf(ps: seq<RenderPipeline>, signals: seq<string>, sig: string)
    requires forall s <- signals :: s in SIGNALS
    requires forall i, j :: 0 <= i < j < |signals| ==> signals[i] != signals[j]
    ensures EntryIDs(Entries(ps, signals), sig) == if sig in signals then [sig + "/in"] else []
  {
    hide EntryIDs, EntryPipeline;
    if signals == [] {
      NoEntryIDs([], sig);
    } else {
      var init, last := signals[..|signals| - 1], signals[|signals| - 1];
      EntryIDsOf(ps, init, sig);
      OneEntryID(ps, last, sig);
      EntryIDsConcat(Entries(ps, init), [(last + "/in", EntryPipeline(ps, last))], sig);
      assert signals == init + [last] && last !in init;
    }
  }

  lemma OneEntryID(ps: seq<RenderPipeline>, signal: string, sig: string)
    requires signal in SIGNALS
    ensures EntryIDs([(signal + "/in", EntryPipeline(ps, signal))], sig) == if signal == sig then [sig + "/in"] else []
  {
    hide Carriers, ComponentType;
    EntryType(signal);
    var one := [(signal + "/in", EntryPipeline(ps, signal))];
    assert one[1..] == [];
  }

  lemma RoutingIsNoReceiver(sig: string)
    ensures RoutingID(sig) != "otlp"
  {
    assert RoutingID(sig)[0] == 'r';
  }

  lemma ForwardingEntries(ps: seq<RenderPipeline>, sig: string)
    requires sig in SIGNALS
    ensures EntryIDs(Entries(ps, SIGNALS) + Flat(ps, CustomerPipelines), sig) == [sig + "/in"]
  {
    hide Entries, PipelineEntries, DirectEntries, PipelineID;
    SignalsApart();
    EntryIDsOf(ps, SIGNALS, sig);
    forall e <- Flat(ps, CustomerPipelines) ensures "otlp" !in e.1.receivers {
      FlatMember(ps, CustomerPipelines, e);
      var p :| p in ps && e in CustomerPipelines(p);
      PipelineEntryOf(p, SIGNALS, e);
      var s :| s in SIGNALS && e == (PipelineID(p, s), RoutedPipeline(p, s));
      RoutingIsNoReceiver(s);
    }
    NoEntryIDs(Flat(ps, CustomerPipelines), sig);
    EntryIDsConcat(Entries(ps, SIGNALS), Flat(ps, CustomerPipelines), sig);
    assert [sig + "/in"] + [] == [sig + "/in"];
  }

  // ---------------------------------------------------------------------
  // Routing

  lemma {:induction false} OccursOnce(p: RenderPipeline, signals: seq<string>, sig: string)
    requires forall i, j :: 0 <= i < j < |signals| ==> signals[i] != signals[j]
    ensures Occurrences(p, signals, sig) == if sig in signals then [p] else []
  {
    if signals != [] {
      var init, last := signals[..|signals| - 1], signals[|signals| - 1];
      OccursOnce(p, init, sig);
      assert signals == init + [last];
      assert last !in init;
    }
  }

  lemma {:induction false} CarriersAre(ps: seq<RenderPipeline>, sig: string)
    requires forall p <- ps :: SignalsOk(p.graph.signals)
    ensures forall p :: p in Carriers(ps, sig) <==> p in ps && sig in p.graph.signals
  {
    hide Occurrences;
    if ps != [] {
      var init, last := ps[..|ps| - 1], ps[|ps| - 1];
      CarriersAre(init, sig);
      assert last in ps;
      OccursOnce(last, last.graph.signals, sig);
      assert ps == init + [last];
    }
  }

  /** The routing table lists the tenant's serving pipelines. */
  lemma {:induction false} RoutedIDs(ps: seq<RenderPipeline>, sig: string, tenant: string)
    requires forall p <- ps :: SignalsOk(p.graph.signals)
    ensures IDsOf(Carriers(ps, sig), tenant, sig) == ServingIDs(Serving(ps, sig, tenant), sig)
  {
    hide Occurrences, PipelineID;
    if ps != [] {
      var init, last := ps[..|ps| - 1], ps[|ps| - 1];
      RoutedIDs(init, sig, tenant);
      assert last in ps;
      OccursOnce(last, last.graph.signals, sig);
      if sig in last.graph.signals {
        assert (Carriers(init, sig) + [last])[..|Carriers(init, sig)|] == Carriers(init, sig);
        assert ServingIDs(Serving(init, sig, tenant) + [last], sig) ==
               ServingIDs(Serving(init, sig, tenant), sig) + [PipelineID(last, sig)];
      } else {
        assert Carriers(init, sig) + [] == Carriers(init, sig);
      }
    }
  }

  function ServingIDs(serving: seq<RenderPipeline>, sig: string): seq<string> {
    seq(|serving|, i requires 0 <= i < |serving| => PipelineID(serving[i], sig))
  }

  lemma {:induction false} EscapeInjective(a: string, b: string)
    requires Escape(a) == Escape(b)
    ensures a == b
  {
    if a == "" || b == "" {
    } else {
      assert Escape(a)[0] == Escape(b)[0];
      var n := if a[0] == '"' || a[0] == '\\' then 2 else 1;
      assert Escape(a)[n - 1] == Escape(b)[n - 1];
      assert a[0] == b[0];
      assert Escape(a)[n..] == Escape(a[1..]) && Escape(b)[n..] == Escape(b[1..]);
      EscapeInjective(a[1..], b[1..]);
      assert a == [a[0]] + a[1..] && b == [b[0]] + b[1..];
    }
  }

  lemma ConditionInjective(a: string, b: string)
    requires Condition(a) == Condition(b)
    ensures a == b
  {
    var n := |"resource.attributes[\"tenant.id\"] == " + "\""|;
    assert Condition(a)[n..|Condition(a)| - 1] == Escape(a);
    assert Condition(b)[n..|Condition(b)| - 1] == Escape(b);
    EscapeInjective(a, b);
  }

  lemma {:induction false} ClientsAre(ps: seq<RenderPipeline>, id: string)
    ensures id in Clients(ps) <==> exists p <- ps :: p.clientId == id
  {
    if ps != [] {
      var init, last := ps[..|ps| - 1], ps[|ps| - 1];
      ClientsAre(init, id);
      assert ps == init + [last];
    }
  }

  lemma {:induction false} FirstRouteAmong(routes: seq<Route>, clients: seq<string>, tenant: string)
    requires |routes| == |clients| && forall i :: 0 <= i < |routes| ==> routes[i].condition == Condition(clients[i])
    ensures tenant !in clients ==> FirstRoute(routes, tenant) == None
    ensures tenant in clients ==> exists i :: 0 <= i < |clients| && clients[i] == tenant && FirstRoute(routes, tenant) == Some(routes[i])
    decreases |routes|
  {
    hide Condition;
    if routes != [] {
      FirstRouteAmong(routes[1..], clients[1..], tenant);
      if routes[0].condition == Condition(tenant) {
        ConditionInjective(clients[0], tenant);
      } else if tenant in clients {
        assert tenant in clients[1..];
        var i :| 0 <= i < |clients[1..]| && clients[1..][i] == tenant && FirstRoute(routes[1..], tenant) == Some(routes[1..][i]);
        assert clients[i + 1] == tenant && routes[i + 1] == routes[1..][i];
      }
    }
  }

  /** The route taken leads to the tenant's serving pipelines; it exists exactly when there are any. */
  lemma RouteTaken(ps: seq<RenderPipeline>, sig: string, tenant: string)
    requires forall p <- ps :: SignalsOk(p.graph.signals)
    ensures var route := FirstRoute(Routes(Carriers(ps, sig), sig), tenant);
            && (route.Some? <==> Serving(ps, sig, tenant) != [])
            && (route.Some? ==> route.value.pipelines == ServingIDs(Serving(ps, sig, tenant), sig))
  {
    hide Condition, IDsOf, Carriers, Clients;
    var routed := Carriers(ps, sig);
    FirstRouteAmong(Routes(routed, sig), Clients(routed), tenant);
    RoutedIDs(ps, sig, tenant);
    if tenant !in Clients(routed) {
      ClientsAre(routed, tenant);
      NoIDs(routed, tenant, sig);
      assert |ServingIDs(Serving(ps, sig, tenant), sig)| == 0;
    } else {
      ClientsAre(routed, tenant);
      SomeIDs(routed, tenant, sig);
      assert |ServingIDs(Serving(ps, sig, tenant), sig)| > 0;
    }
  }

  lemma {:induction false} SomeIDs(ps: seq<RenderPipeline>, tenant: string, sig: string)
    requires exists p <- ps :: p.clientId == tenant
    ensures IDsOf(ps, tenant, sig) != []
  {
    hide PipelineID;
    if ps[|ps| - 1].clientId != tenant {
      assert ps == ps[..|ps| - 1] + [ps[|ps| - 1]];
      SomeIDs(ps[..|ps| - 1], tenant, sig);
    }
  }

  lemma {:induction false} NoIDs(ps: seq<RenderPipeline>, tenant: string, sig: string)
    requires forall p <- ps :: p.clientId != tenant
    ensures IDsOf(ps, tenant, sig) == []
  {
    if ps != [] {
      assert ps[|ps| - 1] in ps;
      NoIDs(ps[..|ps| - 1], tenant, sig);
    }
  }

  // ---------------------------------------------------------------------
  // Connectors

  lemma RoutingApart(a: string, b: string)
    requires RoutingID(a) == RoutingID(b)
    ensures a == b
  {
    var n := |"routing/tenants_"|;
    assert RoutingID(a)[n..] == a && RoutingID(b)[n..] == b;
  }

  lemma {:induction false} ConnectorOf(ps: seq<RenderPipeline>, signals: seq<string>, e: (string, seq<Route>))
    ensures e in Connectors(ps, signals) <==>
            exists sig <- signals :: Carriers(ps, sig) != [] && e == (RoutingID(sig), Routes(Carriers(ps, sig), sig))
  {
    hide Carriers, Routes, RoutingID;
    if signals != [] {
      var init, last := signals[..|signals| - 1], signals[|signals| - 1];
      ConnectorOf(ps, init, e);
      assert signals == init + [last];
    }
  }

  lemma {:induction false} ConnectorsDistinct(ps: seq<RenderPipeline>, signals: seq<string>)
    requires forall i, j :: 0 <= i < j < |signals| ==> signals[i] != signals[j]
    ensures DistinctKeys(Connectors(ps, signals))
  {
    hide Carriers, Routes, RoutingID;
    if signals != [] {
      var init, last := signals[..|signals| - 1], signals[|signals| - 1];
      ConnectorsDistinct(ps, init);
      var e := (RoutingID(last), Routes(Carriers(ps, last), last));
      forall a <- Connectors(ps, init) ensures a.0 != e.0 {
        ConnectorOf(ps, init, a);
        var sig :| sig in init && a.0 == RoutingID(sig);
        if a.0 == e.0 {
          RoutingApart(sig, last);
        }
      }
      DistinctConcat(Connectors(ps, init), [e]);
    }
  }

  lemma ConnectorFound(ps: seq<RenderPipeline>, sig: string)
    requires sig in SIGNALS && Carriers(ps, sig) != []
    ensures Lookup(Connectors(ps, SIGNALS), RoutingID(sig)) == Some(Routes(Carriers(ps, sig), sig))
    ensures |Connectors(ps, SIGNALS)| > 0
  {
    hide Carriers, Routes, RoutingID, Connectors, Lookup;
    SignalsApart();
    ConnectorsDistinct(ps, SIGNALS);
    var e := (RoutingID(sig), Routes(Carriers(ps, sig), sig));
    ConnectorOf(ps, SIGNALS, e);
    LookupMember(Connectors(ps, SIGNALS), e.0, e.1);
  }

  /** No other name is a connector. */
  lemma NotAConnector(ps: seq<RenderPipeline>, id: string)
    requires ComponentType(id) != "routing"
    ensures Lookup(Connectors(ps, SIGNALS), id) == None
  {
    hide Carriers, Routes, Connectors, ComponentType;
    if HasKey(Connectors(ps, SIGNALS), id) {
      var i :| 0 <= i < |Connectors(ps, SIGNALS)| && Connectors(ps, SIGNALS)[i].0 == id;
      ConnectorOf(ps, SIGNALS, Connectors(ps, SIGNALS)[i]);
      var sig :| sig in SIGNALS && id == RoutingID(sig);
      assert RoutingID(sig) == "routing" + "/" + ("tenants_" + sig);
      TypeOf("routing", "tenants_" + sig);
    }
    LookupNone(Connectors(ps, SIGNALS), id);
  }

  lemma ExporterKinds(p: RenderPipeline, schema: Schema)
    requires StructurallyValid(p.graph, schema)
    ensures forall e <- ExporterEntries(p) :: ComponentType(e.0) != "routing"
  {
    hide ConfigNode, ComponentType, ComponentID, ProbeID;
    var nodes := p.graph.exporters;
    forall e <- ExporterEntries(p) ensures ComponentType(e.0) != "routing" {
      var i :| 0 <= i < |nodes| && ExporterEntries(p)[i] == e;
      ExporterType(nodes[i], i, p.customer, p.pipeline);
    }
  }

  lemma ExporterType(n: Node, i: nat, customer: string, pipeline: string)
    requires n.kind in EXPORTERS
    ensures ComponentType(ComponentID(n, i, customer, pipeline)) != "routing"
  {
    hide ComponentType;
    KnownKinds(n.kind);
    var rest := PipelineKey(customer, pipeline) + "__" + NodeSuffix(n, i);
    assert ComponentID(n, i, customer, pipeline) == n.kind + "/" + rest;
    TypeOf(n.kind, rest);
    assert "routing" !in EXPORTERS;
  }

  // ---------------------------------------------------------------------
  // One customer pipeline

  lemma IDsAreEntries(p: RenderPipeline, nodes: seq<Node>)
    ensures NodeIDs(p, nodes) == IDs(NodeEntries(p, nodes))
  {
    hide ConfigNode, ComponentID;
  }

  lemma FixedSection()
    ensures DistinctKeys(FIXED_PROCESSORS) && IDs(FIXED_PROCESSORS) == FIXED_IDS
    ensures forall e <- FIXED_PROCESSORS :: '/' !in e.0
    ensures DistinctKeys([("debug", DEBUG_CONFIG)]) && '/' !in "debug"
  {
    assert "memory_limiter"[0] != "batch"[0];
  }

  ghost function DebugPart(needed: bool): seq<(string, Yaml)> {
    if needed then [("debug", DEBUG_CONFIG)] else []
  }

  lemma RunRouted(ps: seq<RenderPipeline>, schema: Schema, p: RenderPipeline, sig: string, tenant: string, hops: nat)
    requires Renderable(ps, schema) && p in ps && sig in SIGNALS && sig in p.graph.signals
    ensures RunOne(Forwarding(ps), PipelineID(p, sig), RoutingID(sig), tenant, FIXED_PROCESSORS, hops) == Some(Deliveries(p))
  {
    hide Renderable, Lookup, NodeEntries, Carriers, Connectors, Entries, Flat, Resolve, ExportAll, NeedsDebug, RoutingID, PipelineID;
    var cfg := Forwarding(ps);
    PipelineFound(ps, schema, p, sig);
    FixedSection();
    var debug := DebugPart(NeedsDebug(ps, SIGNALS));
    ComponentsFound(ps, schema, FIXED_PROCESSORS, p);
    ComponentsFound(ps, schema, debug, p);
    IDsAreEntries(p, p.graph.processors);
    IDsAreEntries(p, p.graph.exporters);
    ResolveEntries(cfg.processors, ProcessorEntries(p));
    NoConnectors(ps, schema, p);
    var done := FIXED_PROCESSORS + ProcessorEntries(p);
    ExportEntries(cfg, ExporterEntries(p), tenant, done, hops);
    assert Each(done, ExporterEntries(p)) == Deliveries(p);
  }

  lemma NoConnectors(ps: seq<RenderPipeline>, schema: Schema, p: RenderPipeline)
    requires Renderable(ps, schema) && p in ps
    ensures forall e <- ExporterEntries(p) :: Lookup(Connectors(ps, SIGNALS), e.0) == None
  {
    hide Lookup, ExporterEntries, Connectors, StructurallyValid;
    ExporterKinds(p, schema);
    forall e <- ExporterEntries(p) ensures Lookup(Connectors(ps, SIGNALS), e.0) == None {
      NotAConnector(ps, e.0);
    }
  }

  lemma {:induction false} RunServing(ps: seq<RenderPipeline>, schema: Schema, serving: seq<RenderPipeline>,
                                      sig: string, tenant: string, hops: nat)
    requires Renderable(ps, schema) && sig in SIGNALS && forall p <- serving :: p in ps && sig in p.graph.signals
    ensures RunAll(Forwarding(ps), ServingIDs(serving, sig), RoutingID(sig), tenant, FIXED_PROCESSORS, hops) ==
              Some(Flat(serving, Deliveries))
    decreases |serving|
  {
    hide Renderable, Forwarding, RunOne, RoutingID, PipelineID, Deliveries;
    if serving != [] {
      var init, last := serving[..|serving| - 1], serving[|serving| - 1];
      assert last in serving;
      RunServing(ps, schema, init, sig, tenant, hops);
      RunRouted(ps, schema, last, sig, tenant, hops);
      assert ServingIDs(serving, sig) == ServingIDs(init, sig) + [PipelineID(last, sig)];
      RunAllAppend(Forwarding(ps), ServingIDs(init, sig), PipelineID(last, sig), RoutingID(sig), tenant, FIXED_PROCESSORS, hops);
    } else {
      assert ServingIDs(serving, sig) == [];
    }
  }

  lemma {:induction false} ServingAre(ps: seq<RenderPipeline>, sig: string, tenant: string, p: RenderPipeline)
    ensures p in Serving(ps, sig, tenant) <==> p in ps && sig in p.graph.signals && p.clientId == tenant
  {
    if ps != [] {
      ServingAre(ps[..|ps| - 1], sig, tenant, p);
      assert ps == ps[..|ps| - 1] + [ps[|ps| - 1]];
    }
  }

  // ---------------------------------------------------------------------
  // The forwarding config

  lemma Graphs(ps: seq<RenderPipeline>, schema: Schema)
    requires Renderable(ps, schema)
    ensures forall p <- ps :: SignalsOk(p.graph.signals)
  {
  }

  /** The item is exported by the entry pipeline's only sink. */
  lemma RunEntry(ps: seq<RenderPipeline>, schema: Schema, sig: string, tenant: string, hops: nat)
    requires Renderable(ps, schema) && sig in SIGNALS
    ensures var sink := if Carriers(ps, sig) == [] then "debug" else RoutingID(sig);
            RunAll(Forwarding(ps), [sig + "/in"], "otlp", tenant, [], hops) ==
            ExportOne(Forwarding(ps), sink, tenant, FIXED_PROCESSORS, hops)
  {
    hide Renderable, Lookup, Carriers, Connectors, Entries, Flat, Resolve, ExportOne, NeedsDebug, RoutingID;
    var cfg := Forwarding(ps);
    EntryFound(ps, schema, sig);
    FixedSection();
    FixedFound(ps, schema, FIXED_PROCESSORS);
    ResolveEntries(cfg.processors, FIXED_PROCESSORS);
    assert [] + FIXED_PROCESSORS == FIXED_PROCESSORS;
    var sink := if Carriers(ps, sig) == [] then "debug" else RoutingID(sig);
    var out := ExportOne(cfg, sink, tenant, FIXED_PROCESSORS, hops);
    assert [sink][1..] == [] && [sig + "/in"][1..] == [];
    assert out.Some? ==> out.value + [] == out.value;
    assert ExportAll(cfg, [sink], tenant, FIXED_PROCESSORS, hops) == out;
    assert RunOne(cfg, sig + "/in", "otlp", tenant, [], hops) == out;
  }

  lemma DebugType()
    ensures ComponentType("debug") != "routing"
  {
    assert ComponentType("debug") == "" || ComponentType("debug")[0] == 'd';
  }

  lemma DebugSink(ps: seq<RenderPipeline>, schema: Schema, sig: string, tenant: string, hops: nat)
    requires Renderable(ps, schema) && sig in SIGNALS && Carriers(ps, sig) == []
    ensures ExportOne(Forwarding(ps), "debug", tenant, FIXED_PROCESSORS, hops) ==
              Some([Delivery(FIXED_PROCESSORS, ("debug", DEBUG_CONFIG))])
  {
    hide Renderable, Lookup, Carriers, Connectors, Entries, Flat, RunAll, ComponentType, RoutingID;
    FixedSection();
    FixedFound(ps, schema, [("debug", DEBUG_CONFIG)]);
    assert ("debug", DEBUG_CONFIG) in [("debug", DEBUG_CONFIG)];
    DebugType();
    NotAConnector(ps, "debug");
  }

  lemma ServingRuns(ps: seq<RenderPipeline>, schema: Schema, sig: string, tenant: string, hops: nat)
    requires Renderable(ps, schema) && sig in SIGNALS
    ensures RunAll(Forwarding(ps), ServingIDs(Serving(ps, sig, tenant), sig), RoutingID(sig), tenant, FIXED_PROCESSORS, hops) ==
            Some(Flat(Serving(ps, sig, tenant), Deliveries))
    ensures Flat<RenderPipeline, Delivery>([], Deliveries) == []
  {
    hide Renderable, RunAll, RoutingID, Deliveries, Forwarding, Serving, ServingIDs;
    var serving := Serving(ps, sig, tenant);
    forall p <- serving ensures p in ps && sig in p.graph.signals {
      ServingAre(ps, sig, tenant, p);
    }
    RunServing(ps, schema, serving, sig, tenant, hops);
  }

  lemma RoutingSink(ps: seq<RenderPipeline>, schema: Schema, sig: string, tenant: string)
    requires Renderable(ps, schema) && sig in SIGNALS && Carriers(ps, sig) != []
    ensures ExportOne(Forwarding(ps), RoutingID(sig), tenant, FIXED_PROCESSORS, |Connectors(ps, SIGNALS)|) ==
            Some(Flat(Serving(ps, sig, tenant), Deliveries))
  {
    hide Renderable, Lookup, Carriers, Connectors, Entries, RunAll, RoutingID, NeedsDebug, Deliveries, Routes, FirstRoute,
         Flat, Serving, ServingIDs;
    ConnectorFound(ps, sig);
    Graphs(ps, schema);
    RouteTaken(ps, sig, tenant);
    ServingRuns(ps, schema, sig, tenant, |Connectors(ps, SIGNALS)| - 1);
  }

  /** Compiler correctness: under the rendered forwarding config an item of any tenant and signal
      reaches exactly the exporters of that tenant's pipelines that carry the signal, each after
      the shared processors and exactly that pipeline's processors in order; `debug` gets it
      exactly when no pipeline of any tenant carries the signal. */
  lemma ForwardingMeans(ps: seq<RenderPipeline>, schema: Schema, sig: string, tenant: string)
    requires Renderable(ps, schema) && sig in SIGNALS
    ensures Deliver(Forwarding(ps), sig, tenant) == Some(Expected(ps, sig, tenant))
  {
    hide Renderable, Carriers, Connectors, Entries, Flat, RunAll, ExportOne, RoutingID, NeedsDebug, Deliveries, EntryIDs, Serving;
    ForwardingEntries(ps, sig);
    var hops := |Connectors(ps, SIGNALS)|;
    RunEntry(ps, schema, sig, tenant, hops);
    Graphs(ps, schema);
    CarriersAre(ps, sig);
    if Carriers(ps, sig) == [] {
      forall p <- ps ensures sig !in p.graph.signals {
        assert p !in Carriers(ps, sig);
      }
      DebugSink(ps, schema, sig, tenant, hops);
    } else {
      assert Carriers(ps, sig)[0] in Carriers(ps, sig);
      RoutingSink(ps, schema, sig, tenant);
    }
  }
}
