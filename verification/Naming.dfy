/** Component and pipeline IDs of the rendered collector configs, and attributing a metric label
    back to its pipeline. */
module Naming {
  import opened Prelude
  import opened Values
  import Text

  function PipelineKey(customer: string, pipeline: string): string {
    customer + "__" + pipeline
  }

  function CollectorPipelineID(signal: string, customer: string, pipeline: string): string {
    signal + "/" + PipelineKey(customer, pipeline)
  }

  /** The node's own name, or its index. */
  function NodeSuffix(n: Node, i: nat): string {
    if n.name.Some? && n.name.value != "" then n.name.value else Text.Itoa(i)
  }

  function ComponentID(n: Node, i: nat, customer: string, pipeline: string): string {
    n.kind + "/" + PipelineKey(customer, pipeline) + "__" + NodeSuffix(n, i)
  }

  /** The part of an ID before the first slash. */
  function ComponentType(id: string): string {
    if id == "" then "" else if id[0] == '/' then "" else [id[0]] + ComponentType(id[1..])
  }

  /** A text that can stand between underscores: customer and pipeline slugs have none. */
  predicate Plain(s: string) {
    '_' !in s
  }

  // ---------------------------------------------------------------------
  // IDs are injective

  lemma KeyTail(customer: string, pipeline: string, tail: string)
    ensures PipelineKey(customer, pipeline) + tail == customer + ['_'] + (['_'] + pipeline + tail)
  {
  }

  lemma KeyInjective(c: string, p: string, c': string, p': string)
    requires Plain(c) && Plain(c')
    requires PipelineKey(c, p) == PipelineKey(c', p')
    ensures c == c' && p == p'
  {
    KeyTail(c, p, "");
    KeyTail(c', p', "");
    assert PipelineKey(c, p) + "" == PipelineKey(c, p) && PipelineKey(c', p') + "" == PipelineKey(c', p');
    Text.SplitFirst('_', c, ['_'] + p + "", c', ['_'] + p' + "");
    assert p == (['_'] + p + "")[1..] && p' == (['_'] + p' + "")[1..];
  }

  lemma LongKeyInjective(c: string, p: string, s: string, c': string, p': string, s': string)
    requires Plain(c) && Plain(c') && Plain(p) && Plain(p')
    requires PipelineKey(c, p) + "__" + s == PipelineKey(c', p') + "__" + s'
    ensures c == c' && p == p' && s == s'
  {
    assert PipelineKey(c, p) + "__" + s == PipelineKey(c, p + "__" + s);
    assert PipelineKey(c', p') + "__" + s' == PipelineKey(c', p' + "__" + s');
    KeyInjective(c, p + "__" + s, c', p' + "__" + s');
    assert p + "__" + s == PipelineKey(p, s) && p' + "__" + s' == PipelineKey(p', s');
    KeyInjective(p, s, p', s');
  }

  lemma SlashSplit(a: string, x: string, b: string, y: string)
    requires '/' !in a && '/' !in b && a + "/" + x == b + "/" + y
    ensures a == b && x == y
  {
    Text.SplitFirst('/', a, x, b, y);
  }

  /** A component ID determines type, customer, pipeline and node suffix. */
  lemma ComponentIDInjective(n: Node, i: nat, c: string, p: string, n': Node, i': nat, c': string, p': string)
    requires '/' !in n.kind && '/' !in n'.kind && Plain(c) && Plain(c') && Plain(p) && Plain(p')
    requires ComponentID(n, i, c, p) == ComponentID(n', i', c', p')
    ensures n.kind == n'.kind && c == c' && p == p' && NodeSuffix(n, i) == NodeSuffix(n', i')
  {
    var x, x' := PipelineKey(c, p) + "__" + NodeSuffix(n, i), PipelineKey(c', p') + "__" + NodeSuffix(n', i');
    assert ComponentID(n, i, c, p) == n.kind + "/" + x && ComponentID(n', i', c', p') == n'.kind + "/" + x';
    SlashSplit(n.kind, x, n'.kind, x');
    LongKeyInjective(c, p, NodeSuffix(n, i), c', p', NodeSuffix(n', i'));
  }

  /** A pipeline ID determines signal, customer and pipeline. */
  lemma PipelineIDInjective(s: string, c: string, p: string, s': string, c': string, p': string)
    requires '/' !in s && '/' !in s' && Plain(c) && Plain(c')
    requires CollectorPipelineID(s, c, p) == CollectorPipelineID(s', c', p')
    ensures s == s' && c == c' && p == p'
  {
    SlashSplit(s, PipelineKey(c, p), s', PipelineKey(c', p'));
    KeyInjective(c, p, c', p');
  }

  lemma {:induction false} TypeOf(kind: string, rest: string)
    requires '/' !in kind
    ensures ComponentType(kind + "/" + rest) == kind
    decreases |kind|
  {
    var id := kind + "/" + rest;
    if kind != "" {
      assert id[0] == kind[0] && kind[0] in kind;
      assert id[1..] == kind[1..] + "/" + rest;
      TypeOf(kind[1..], rest);
    }
  }

  // ---------------------------------------------------------------------
  // Attribution

  /** Full match of `^[^/]+/<customer>__<pipeline>__.*`, the key taken literally. */
  ghost predicate LabelMatches(customer: string, pipeline: string, id: string) {
    exists kind, rest :: MatchedAs(customer, pipeline, id, kind, rest)
  }

  ghost predicate MatchedAs(customer: string, pipeline: string, id: string, kind: string, rest: string) {
    kind != "" && '/' !in kind && '\n' !in rest && id == kind + "/" + (PipelineKey(customer, pipeline) + "__" + rest)
  }

  /** The label pattern of a pipeline matches a rendered component ID exactly when the component
      belongs to that pipeline. */
  lemma Attribution(customer: string, pipeline: string, n: Node, i: nat, c: string, p: string)
    requires Plain(customer) && Plain(pipeline) && Plain(c) && Plain(p)
    requires n.kind != "" && '/' !in n.kind && '\n' !in NodeSuffix(n, i)
    ensures LabelMatches(customer, pipeline, ComponentID(n, i, c, p)) <==> customer == c && pipeline == p
  {
    var id := ComponentID(n, i, c, p);
    var tail := PipelineKey(c, p) + "__" + NodeSuffix(n, i);
    assert id == n.kind + "/" + tail;
    if customer == c && pipeline == p {
      assert MatchedAs(customer, pipeline, id, n.kind, NodeSuffix(n, i));
    }
    if LabelMatches(customer, pipeline, id) {
      var kind, rest :| MatchedAs(customer, pipeline, id, kind, rest);
      SlashSplit(n.kind, tail, kind, PipelineKey(customer, pipeline) + "__" + rest);
      LongKeyInjective(c, p, NodeSuffix(n, i), customer, pipeline, rest);
    }
  }

  /** The shared debug exporter is attributed to no pipeline. */
  lemma DebugUnattributed(customer: string, pipeline: string)
    ensures !LabelMatches(customer, pipeline, "debug")
  {
    forall kind, rest ensures !MatchedAs(customer, pipeline, "debug", kind, rest) {
      assert '/' in "/" + (PipelineKey(customer, pipeline) + "__" + rest);
      assert '/' in kind + "/" + (PipelineKey(customer, pipeline) + "__" + rest);
      assert '/' !in "debug";
    }
  }
}
