/** The secret walk over a whole graph. A secret is located by the index of its exporter and the
    field; processors have none. */
module GraphSecrets {
  import opened Prelude
  import opened Values
  import opened SecretWalk
  import opened Catalog

  type SchemaTable = string -> Option<Schema>

  function TransformNodes(section: string, nodes: seq<Node>, table: SchemaTable, fn: Rewrite): seq<Node> {
    seq(|nodes|, i requires 0 <= i < |nodes| =>
      nodes[i].(config := Transform(nodes[i].config, table(nodes[i].kind), Base(section, i), fn)))
  }

  function TransformGraph(g: Graph, fn: Rewrite): Graph {
    Graph(g.signals, TransformNodes("processors", g.processors, ProcessorSchema, fn),
          TransformNodes("exporters", g.exporters, ExporterSchema, fn))
  }

  ghost function NodeSecrets(section: string, nodes: seq<Node>, table: SchemaTable): set<(string, Value)> {
    set i, e | 0 <= i < |nodes| && e in SecretsIn(nodes[i].config, table(nodes[i].kind), Base(section, i)) :: e
  }

  /** Every secret of the graph with its printed path. */
  ghost function AllSecrets(g: Graph): set<(string, Value)> {
    NodeSecrets("processors", g.processors, ProcessorSchema) + NodeSecrets("exporters", g.exporters, ExporterSchema)
  }

  // ---------------------------------------------------------------------
  // Located secrets

  lemma FieldIff(i: nat, kind: string, config: Value, f: Field, x: Value)
    ensures (PathOf(i, f), x) in SecretsIn(config, ExporterSchema(kind), Base("exporters", i)) <==> FieldAt(kind, config, f) == Some(x)
  {
    hide ExporterSchema, Base, FieldAt, PathOf;
    var e := (PathOf(i, f), x);
    PathIs(i, f);
    ExporterSecrets(kind, config, Base("exporters", i), e);
    if exists h :: IsField(kind, config, Base("exporters", i), h, e) {
      var h :| IsField(kind, config, Base("exporters", i), h, e);
      PathIs(i, h);
      PathInjective(i, f, i, h);
    }
    if FieldAt(kind, config, f) == Some(x) {
      assert IsField(kind, config, Base("exporters", i), f, e);
    }
  }

  lemma PathIs(i: nat, f: Field)
    ensures PathOf(i, f) == FieldPath(Base("exporters", i), f)
  {
  }

  lemma NoProcessorSecrets(nodes: seq<Node>, i: nat)
    requires i < |nodes|
    ensures SecretsIn(nodes[i].config, ProcessorSchema(nodes[i].kind), Base("processors", i)) == {}
  {
    hide ProcessorSchema, Base;
    if ProcessorSchema(nodes[i].kind).Some? {
      ProcessorsClean(nodes[i].kind);
      CleanNone(nodes[i].config, ProcessorSchema(nodes[i].kind).value, Base("processors", i));
    }
  }

  ghost predicate Located(g: Graph, i: nat, f: Field, e: (string, Value)) {
    SecretAt(g, i, f) == Some(e.1) && e.0 == PathOf(i, f)
  }

  lemma ProcessorsSecretFree(nodes: seq<Node>)
    ensures NodeSecrets("processors", nodes, ProcessorSchema) == {}
  {
    hide ProcessorSchema, Base, SecretsIn;
    forall i | 0 <= i < |nodes| ensures SecretsIn(nodes[i].config, ProcessorSchema(nodes[i].kind), Base("processors", i)) == {} {
      NoProcessorSecrets(nodes, i);
    }
  }

  lemma InExporter(nodes: seq<Node>, e: (string, Value))
    ensures e in NodeSecrets("exporters", nodes, ExporterSchema) <==>
            exists i :: 0 <= i < |nodes| && e in SecretsIn(nodes[i].config, ExporterSchema(nodes[i].kind), Base("exporters", i))
  {
    hide ExporterSchema, Base, SecretsIn;
  }

  /** The walk finds exactly the located secrets. */
  lemma SecretsLocated(g: Graph, e: (string, Value))
    ensures e in AllSecrets(g) <==> exists i, f :: Located(g, i, f, e)
  {
    hide ExporterSchema, ProcessorSchema, Base, FieldAt, PathOf, SecretsIn, NodeSecrets;
    ProcessorsSecretFree(g.processors);
    InExporter(g.exporters, e);
    if e in AllSecrets(g) {
      var i :| 0 <= i < |g.exporters| && e in SecretsIn(g.exporters[i].config, ExporterSchema(g.exporters[i].kind), Base("exporters", i));
      ExporterSecrets(g.exporters[i].kind, g.exporters[i].config, Base("exporters", i), e);
      var f :| IsField(g.exporters[i].kind, g.exporters[i].config, Base("exporters", i), f, e);
      PathIs(i, f);
      assert Located(g, i, f, e);
    }
    if i: nat, f: Field :| Located(g, i, f, e) {
      FieldIff(i, g.exporters[i].kind, g.exporters[i].config, f, e.1);
    }
  }

  /** No two secrets of a graph share a path. */
  lemma SecretsFunctional(g: Graph)
    ensures Agree(AllSecrets(g), AllSecrets(g))
  {
    hide AllSecrets, SecretAt, PathOf;
    forall p, x, y | (p, x) in AllSecrets(g) && (p, y) in AllSecrets(g) ensures x == y {
      SecretsLocated(g, (p, x));
      SecretsLocated(g, (p, y));
      var i, f :| Located(g, i, f, (p, x));
      var j, h :| Located(g, j, h, (p, y));
      PathInjective(i, f, j, h);
    }
  }

  lemma AtPath(g: Graph, i: nat, f: Field, x: Value)
    ensures (PathOf(i, f), x) in AllSecrets(g) <==> SecretAt(g, i, f) == Some(x)
  {
    hide AllSecrets, SecretAt, PathOf;
    SecretsLocated(g, (PathOf(i, f), x));
    if (PathOf(i, f), x) in AllSecrets(g) {
      var j, h :| Located(g, j, h, (PathOf(i, f), x));
      PathInjective(i, f, j, h);
    }
    if SecretAt(g, i, f) == Some(x) {
      assert Located(g, i, f, (PathOf(i, f), x));
    }
  }

  // ---------------------------------------------------------------------
  // What the graph walk does

  function Mapped(x: Option<Value>, path: string, fn: Rewrite): Option<Value> {
    if x.None? then None else Some(fn(path, x.value))
  }

  lemma FieldMapped(i: nat, kind: string, config: Value, f: Field, fn: Rewrite)
    ensures FieldAt(kind, Transform(config, ExporterSchema(kind), Base("exporters", i), fn), f) ==
              Mapped(FieldAt(kind, config, f), PathOf(i, f), fn)
  {
    hide ExporterSchema, Base, FieldAt, PathOf, SecretsIn, Transform;
    var after := Transform(config, ExporterSchema(kind), Base("exporters", i), fn);
    if FieldAt(kind, after, f).Some? {
      var y := FieldAt(kind, after, f).value;
      FieldIff(i, kind, after, f, y);
      TransformRewrites(config, ExporterSchema(kind), Base("exporters", i), fn, (PathOf(i, f), y));
      var x :| (PathOf(i, f), x) in SecretsIn(config, ExporterSchema(kind), Base("exporters", i)) && y == fn(PathOf(i, f), x);
      FieldIff(i, kind, config, f, x);
    } else if FieldAt(kind, config, f).Some? {
      var x := FieldAt(kind, config, f).value;
      var y := fn(PathOf(i, f), x);
      FieldIff(i, kind, config, f, x);
      TransformRewrites(config, ExporterSchema(kind), Base("exporters", i), fn, (PathOf(i, f), y));
      FieldIff(i, kind, after, f, y);
    }
  }

  /** Every located secret is rewritten at its own path. */
  lemma GraphMapped(g: Graph, fn: Rewrite, i: nat, f: Field)
    ensures SecretAt(TransformGraph(g, fn), i, f) == Mapped(SecretAt(g, i, f), PathOf(i, f), fn)
  {
    hide ExporterSchema, ProcessorSchema, Base, FieldAt, PathOf, Transform;
    if i < |g.exporters| {
      FieldMapped(i, g.exporters[i].kind, g.exporters[i].config, f, fn);
    }
  }

  ghost predicate AlikeNode(a: Node, b: Node, table: SchemaTable) {
    a.kind == b.kind && a.name == b.name && Alike(a.config, b.config, table(a.kind))
  }

  ghost predicate AlikeNodes(a: seq<Node>, b: seq<Node>, table: SchemaTable) {
    |a| == |b| && forall i :: 0 <= i < |a| ==> AlikeNode(a[i], b[i], table)
  }

  /** Two graphs that differ at most in secrets. */
  ghost predicate AlikeGraphs(a: Graph, b: Graph) {
    a.signals == b.signals && AlikeNodes(a.processors, b.processors, ProcessorSchema) &&
        AlikeNodes(a.exporters, b.exporters, ExporterSchema)
  }

  lemma NodesAlike(section: string, nodes: seq<Node>, table: SchemaTable, fn: Rewrite)
    ensures AlikeNodes(nodes, TransformNodes(section, nodes, table, fn), table)
  {
    hide Base, Transform, Alike;
    var after := TransformNodes(section, nodes, table, fn);
    forall i | 0 <= i < |nodes| ensures AlikeNode(nodes[i], after[i], table) {
      TransformAlike(nodes[i].config, table(nodes[i].kind), Base(section, i), fn);
    }
  }

  lemma GraphAlike(g: Graph, fn: Rewrite)
    ensures AlikeGraphs(g, TransformGraph(g, fn))
  {
    hide AlikeNodes, TransformNodes;
    NodesAlike("processors", g.processors, ProcessorSchema, fn);
    NodesAlike("exporters", g.exporters, ExporterSchema, fn);
  }

  lemma ProcessorsEqual(a: seq<Node>, b: seq<Node>)
    requires AlikeNodes(a, b, ProcessorSchema)
    ensures a == b
  {
    hide ProcessorSchema, Base, SecretsIn, Alike;
    forall i | 0 <= i < |a| ensures a[i] == b[i] {
      NoProcessorSecrets(a, i);
      NoProcessorSecrets(b, i);
      assert AlikeNode(a[i], b[i], ProcessorSchema);
      AlikeEqual(a[i].config, b[i].config, ProcessorSchema(a[i].kind), Base("processors", i));
    }
  }

  lemma ExporterEqual(a: Node, b: Node, i: nat)
    requires AlikeNode(a, b, ExporterSchema) && forall f :: FieldAt(a.kind, a.config, f) == FieldAt(b.kind, b.config, f)
    ensures a == b
  {
    hide ExporterSchema, Base, SecretsIn, Alike, FieldAt, PathOf;
    var base, s := Base("exporters", i), ExporterSchema(a.kind);
    forall p, x, y | (p, x) in SecretsIn(a.config, s, base) && (p, y) in SecretsIn(b.config, s, base) ensures x == y {
      ExporterSecrets(a.kind, a.config, base, (p, x));
      ExporterSecrets(b.kind, b.config, base, (p, y));
      var f :| IsField(a.kind, a.config, base, f, (p, x));
      var h :| IsField(b.kind, b.config, base, h, (p, y));
      PathIs(i, f);
      PathIs(i, h);
      PathInjective(i, f, i, h);
      assert FieldAt(a.kind, a.config, f) == FieldAt(b.kind, b.config, f);
    }
    AlikeEqual(a.config, b.config, s, base);
  }

  /** A graph is determined by its non-secret part and its located secrets. */
  lemma GraphsEqual(a: Graph, b: Graph)
    requires AlikeGraphs(a, b) && forall i, f :: SecretAt(a, i, f) == SecretAt(b, i, f)
    ensures a == b
  {
    hide ExporterSchema, ProcessorSchema, Alike, FieldAt;
    ProcessorsEqual(a.processors, b.processors);
    forall i | 0 <= i < |a.exporters| ensures a.exporters[i] == b.exporters[i] {
      assert AlikeNode(a.exporters[i], b.exporters[i], ExporterSchema);
      forall f ensures FieldAt(a.exporters[i].kind, a.exporters[i].config, f) == FieldAt(b.exporters[i].kind, b.exporters[i].config, f) {
        assert SecretAt(a, i, f) == SecretAt(b, i, f);
      }
      ExporterEqual(a.exporters[i], b.exporters[i], i);
    }
    assert a.exporters == b.exporters;
  }

  /** Graphs that differ at most in secrets have them at the same places. */
  lemma SamePlaces(a: Graph, b: Graph, i: nat, f: Field)
    requires AlikeGraphs(a, b)
    ensures SecretAt(a, i, f).Some? <==> SecretAt(b, i, f).Some?
  {
    hide ExporterSchema, ProcessorSchema, Alike, FieldAt, PathOf, Base, SecretsIn;
    if i < |a.exporters| {
      var na, nb := a.exporters[i], b.exporters[i];
      assert AlikeNode(na, nb, ExporterSchema);
      AlikePaths(na.config, nb.config, ExporterSchema(na.kind), Base("exporters", i), PathOf(i, f));
      forall x ensures (PathOf(i, f), x) in SecretsIn(na.config, ExporterSchema(na.kind), Base("exporters", i)) <==>
             FieldAt(na.kind, na.config, f) == Some(x) {
        FieldIff(i, na.kind, na.config, f, x);
      }
      forall x ensures (PathOf(i, f), x) in SecretsIn(nb.config, ExporterSchema(nb.kind), Base("exporters", i)) <==>
             FieldAt(nb.kind, nb.config, f) == Some(x) {
        FieldIff(i, nb.kind, nb.config, f, x);
      }
    }
  }

  lemma AlikeGraphsSymmetric(a: Graph, b: Graph)
    requires AlikeGraphs(a, b)
    ensures AlikeGraphs(b, a)
  {
    hide Alike;
    forall i | 0 <= i < |a.processors| ensures AlikeNode(b.processors[i], a.processors[i], ProcessorSchema) {
      assert AlikeNode(a.processors[i], b.processors[i], ProcessorSchema);
      AlikeSymmetric(a.processors[i].config, b.processors[i].config, ProcessorSchema(a.processors[i].kind));
    }
    forall i | 0 <= i < |a.exporters| ensures AlikeNode(b.exporters[i], a.exporters[i], ExporterSchema) {
      assert AlikeNode(a.exporters[i], b.exporters[i], ExporterSchema);
      AlikeSymmetric(a.exporters[i].config, b.exporters[i].config, ExporterSchema(a.exporters[i].kind));
    }
  }

  lemma NodesTransitive(a: seq<Node>, b: seq<Node>, c: seq<Node>, table: SchemaTable)
    requires AlikeNodes(a, b, table) && AlikeNodes(b, c, table)
    ensures AlikeNodes(a, c, table)
  {
    hide Alike;
    forall i | 0 <= i < |a| ensures AlikeNode(a[i], c[i], table) {
      assert AlikeNode(a[i], b[i], table) && AlikeNode(b[i], c[i], table);
      AlikeTransitive(a[i].config, b[i].config, c[i].config, table(a[i].kind));
    }
  }

  lemma AlikeGraphsTransitive(a: Graph, b: Graph, c: Graph)
    requires AlikeGraphs(a, b) && AlikeGraphs(b, c)
    ensures AlikeGraphs(a, c)
  {
    hide AlikeNodes;
    NodesTransitive(a.processors, b.processors, c.processors, ProcessorSchema);
    NodesTransitive(a.exporters, b.exporters, c.exporters, ExporterSchema);
  }
}
