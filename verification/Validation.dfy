/** Structural validation of pipeline graphs against the component catalog. Whether a config
    satisfies its component's JSON Schema is an oracle. */
module Validation {
  import opened Prelude
  import opened Values
  import opened Naming
  import Slugs
  import Text

  /** Signals in canonical render order. */
  const SIGNALS := ["logs", "traces", "metrics"]

  const PROCESSORS := {"batch", "memory_limiter", "filter", "transform", "attributes", "resource"}

  const EXPORTERS := {"otlp", "otlphttp", "debug", "clickhouse", "prometheusremotewrite", "file"}

  predicate ValidNodeName(name: string) {
    && 1 <= |name| <= 64 && Slugs.IsAlnum(name[0])
    && forall c <- name :: Slugs.IsAlnum(c) || c == '-'
  }

  type Schema = (string, Value) -> bool

  predicate NodeOk(n: Node, known: set<string>, schema: Schema) {
    && (n.name.Some? && n.name.value != "" ==> ValidNodeName(n.name.value))
    && n.kind in known && schema(n.kind, n.config)
  }

  /** The duplicate check renders IDs under a placeholder identity. */
  function ProbeID(nodes: seq<Node>, i: nat): string
    requires i < |nodes|
  {
    ComponentID(nodes[i], i, "c", "p")
  }

  ghost predicate NodesOk(nodes: seq<Node>, known: set<string>, schema: Schema) {
    && (forall i :: 0 <= i < |nodes| ==> NodeOk(nodes[i], known, schema))
    && (forall i, j :: 0 <= i < j < |nodes| ==> ProbeID(nodes, i) != ProbeID(nodes, j))
  }

  ghost predicate SignalsOk(signals: seq<string>) {
    && (forall i :: 0 <= i < |signals| ==> signals[i] in SIGNALS)
    && (forall i, j :: 0 <= i < j < |signals| ==> signals[i] != signals[j])
  }

  /** At least one signal and one exporter, known signals and components, usable names, configs
      that fit their schemas, and no two nodes of a list with the same ID. */
  ghost predicate StructurallyValid(g: Graph, schema: Schema) {
    && g.signals != [] && SignalsOk(g.signals)
    && g.exporters != []
    && NodesOk(g.processors, PROCESSORS, schema) && NodesOk(g.exporters, EXPORTERS, schema)
  }

  /** Where an issue was found. */
  datatype Issue = Issue(path: string)

  method ValidateSignals(signals: seq<string>) returns (issues: seq<Issue>)
    ensures issues == [] <==> SignalsOk(signals)
  {
    issues := [];
    var seen: set<string> := {};
    for i := 0 to |signals|
      invariant issues == [] <==> SignalsOk(signals[..i])
      invariant seen == set s <- signals[..i]
    {
      assert signals[..i + 1] == signals[..i] + [signals[i]];
      assert SignalsOk(signals[..i + 1]) ==> SignalsOk(signals[..i]) by {
        if SignalsOk(signals[..i + 1]) {
          assert forall j :: 0 <= j < i ==> signals[..i][j] == signals[..i + 1][j];
        }
      }
      if signals[i] !in SIGNALS {
        assert signals[..i + 1][i] !in SIGNALS;
        issues := issues + [Issue("signals[" + Text.Itoa(i) + "]")];
      } else if signals[i] in seen {
        var j :| 0 <= j < i && signals[..i][j] == signals[i];
        assert signals[..i + 1][j] == signals[..i + 1][i];
        issues := issues + [Issue("signals[" + Text.Itoa(i) + "]")];
      }
      seen := seen + {signals[i]};
    }
    assert signals[..|signals|] == signals;
  }

  lemma NodesOkPrefix(nodes: seq<Node>, i: nat, known: set<string>, schema: Schema)
    requires i < |nodes|
    ensures NodesOk(nodes[..i + 1], known, schema) <==>
              && NodesOk(nodes[..i], known, schema) && NodeOk(nodes[i], known, schema)
              && forall j :: 0 <= j < i ==> ProbeID(nodes, j) != ProbeID(nodes, i)
  {
    var a, b := nodes[..i], nodes[..i + 1];
    assert forall j :: 0 <= j < i ==> a[j] == b[j] && ProbeID(a, j) == ProbeID(b, j) == ProbeID(nodes, j);
    assert b[i] == nodes[i] && ProbeID(b, i) == ProbeID(nodes, i);
  }

  method ValidateNodes(field: string, nodes: seq<Node>, known: set<string>, schema: Schema) returns (issues: seq<Issue>)
    ensures issues == [] <==> NodesOk(nodes, known, schema)
  {
    issues := [];
    var seen: map<string, nat> := map[];
    for i := 0 to |nodes|
      invariant issues == [] <==> NodesOk(nodes[..i], known, schema)
      invariant issues == [] ==> forall id :: id in seen <==> exists j :: 0 <= j < i && ProbeID(nodes, j) == id
    {
      hide ValidNodeName, ComponentID;
      NodesOkPrefix(nodes, i, known, schema);
      var n, base := nodes[i], field + "[" + Text.Itoa(i) + "]";
      ghost var before := issues;
      if n.name.Some? && n.name.value != "" && !ValidNodeName(n.name.value) {
        issues := issues + [Issue(base + ".name")];
      }
      if n.kind !in known {
        issues := issues + [Issue(base + ".type")];
        continue;
      }
      var id := ProbeID(nodes, i);
      if id in seen {
        issues := issues + [Issue(base)];
      }
      seen := seen[id := i];
      if !schema(n.kind, n.config) {
        issues := issues + [Issue(base + ".config")];
      }
    }
    assert nodes[..|nodes|] == nodes;
  }

  /** No issue is reported exactly for structurally valid graphs. */
  method ValidateStructural(g: Graph, schema: Schema) returns (issues: seq<Issue>)
    ensures issues == [] <==> StructurallyValid(g, schema)
  {
    hide SignalsOk, NodesOk;
    issues := [];
    if g.signals == [] {
      issues := issues + [Issue("signals")];
    }
    var found := ValidateSignals(g.signals);
    issues := issues + found;
    if g.exporters == [] {
      issues := issues + [Issue("exporters")];
    }
    found := ValidateNodes("processors", g.processors, PROCESSORS, schema);
    issues := issues + found;
    found := ValidateNodes("exporters", g.exporters, EXPORTERS, schema);
    issues := issues + found;
  }

  // ---------------------------------------------------------------------
  // What validity means for rendered IDs

  lemma KnownKinds(kind: string)
    requires kind in PROCESSORS + EXPORTERS
    ensures kind != "" && '/' !in kind
  {
  }

  lemma SignalText(signal: string)
    requires signal in SIGNALS
    ensures '/' !in signal && Plain(signal)
  {
  }

  /** IDs that differ under the placeholder identity differ under every identity. */
  lemma ProbeIsEnough(nodes: seq<Node>, i: nat, j: nat, customer: string, pipeline: string)
    requires i < |nodes| && j < |nodes|
    requires '/' !in nodes[i].kind && '/' !in nodes[j].kind && Plain(customer) && Plain(pipeline)
    requires ComponentID(nodes[i], i, customer, pipeline) == ComponentID(nodes[j], j, customer, pipeline)
    ensures ProbeID(nodes, i) == ProbeID(nodes, j)
  {
    ComponentIDInjective(nodes[i], i, customer, pipeline, nodes[j], j, customer, pipeline);
  }
}
