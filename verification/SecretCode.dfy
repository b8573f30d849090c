/** The secret walks as the code runs them: objects are visited key by key in no particular
    order, indexing the predecessor's secrets and collecting issues on the way. */
module SecretCode {
  import opened Prelude
  import opened Values
  import opened SecretWalk
  import opened Catalog
  import opened GraphSecrets
  import opened Secrets

  /** Some secret of the set satisfies the verdict. */
  ghost predicate AnyFault(es: set<(string, Value)>, c: Crypto, prev: map<string, Value>, draw: Draw) {
    exists e <- es :: EncryptField(c, prev, draw, e.0, e.1).Fault?
  }

  ghost function ProblemsIn(es: set<(string, Value)>, c: Crypto, prev: map<string, Value>, draw: Draw): set<string> {
    set e | e in es && EncryptField(c, prev, draw, e.0, e.1).Problem? :: e.0
  }

  lemma ProblemsUnion(a: set<(string, Value)>, b: set<(string, Value)>, c: Crypto, prev: map<string, Value>, draw: Draw)
    ensures ProblemsIn(a + b, c, prev, draw) == ProblemsIn(a, c, prev, draw) + ProblemsIn(b, c, prev, draw)
    ensures AnyFault(a + b, c, prev, draw) <==> AnyFault(a, c, prev, draw) || AnyFault(b, c, prev, draw)
  {
    hide EncryptField;
  }

  /** The secrets below a set of keys of an object, and below the first items of an array. */
  ghost function Below(v: Value, s: Schema, path: string, keys: set<string>): set<(string, Value)>
    requires v.Obj?
  {
    set k, e | k in keys && k in v.fields && e in SecretsIn(v.fields[k], Sub(s, k), KeyPath(path, k)) :: e
  }

  ghost function BelowItems(v: Value, s: Schema, path: string, n: nat): set<(string, Value)>
    requires v.Arr? && n <= |v.items|
  {
    set i, e | 0 <= i < n && e in SecretsIn(v.items[i], s.items, ItemPath(path, i)) :: e
  }

  lemma BelowNext(v: Value, s: Schema, path: string, keys: set<string>, k: string)
    requires v.Obj? && k in v.fields
    ensures Below(v, s, path, keys + {k}) == Below(v, s, path, keys) + SecretsIn(v.fields[k], Sub(s, k), KeyPath(path, k))
  {
    hide SecretsIn, Sub, KeyPath;
  }

  lemma BelowAll(v: Value, s: Schema, path: string)
    requires v.Obj? && !s.secret
    ensures Below(v, s, path, v.fields.Keys) == SecretsIn(v, Some(s), path) && Below(v, s, path, {}) == {}
  {
  }

  lemma BelowItemsNext(v: Value, s: Schema, path: string, n: nat)
    requires v.Arr? && n < |v.items|
    ensures BelowItems(v, s, path, n + 1) == BelowItems(v, s, path, n) + SecretsIn(v.items[n], s.items, ItemPath(path, n))
  {
    hide SecretsIn, ItemPath;
  }

  lemma BelowItemsAll(v: Value, s: Schema, path: string)
    requires v.Arr? && !s.secret && s.items.Some?
    ensures BelowItems(v, s, path, |v.items|) == SecretsIn(v, Some(s), path) && BelowItems(v, s, path, 0) == {}
  {
  }

  /** Adding es to an index: every path of es is present, and nothing is made up. */
  ghost predicate Extends(after: map<string, Value>, before: map<string, Value>, es: set<(string, Value)>) {
    && (forall p <- before :: p in after)
    && (forall e <- es :: e.0 in after)
    && (forall p <- after :: (p in before && after[p] == before[p]) || (p, after[p]) in es)
  }

  lemma ExtendsStep(c: map<string, Value>, b: map<string, Value>, a: map<string, Value>, more: set<(string, Value)>,
                    es: set<(string, Value)>)
    requires Extends(b, a, es) && Extends(c, b, more)
    ensures Extends(c, a, es + more)
  {
  }

  lemma ExtendsNone(a: map<string, Value>)
    ensures Extends(a, a, {})
  {
  }

  /** An index of a graph's secrets is the index: no two of them share a path. */
  lemma ExtendsIndex(m: map<string, Value>, g: Graph)
    requires Extends(m, map[], AllSecrets(g))
    ensures m == Index(Some(g))
  {
    hide AllSecrets;
    SecretsFunctional(g);
    var es := AllSecrets(g);
    var index := Index(Some(g));
    forall p ensures p in m <==> p in index {
      if p in m {
        assert (p, m[p]) in es;
        assert (p, m[p]).0 in (set e | e in es :: e.0);
      }
    }
    forall p <- m ensures m[p] == index[p] {
      assert (p, m[p]) in es && (p, PickAt(es, p)) in es;
    }
  }

  /** The issue list grew by exactly these paths. */
  ghost predicate Noted(after: seq<string>, before: seq<string>, paths: set<string>) {
    (set p | p in after) == (set p | p in before) + paths
  }

  lemma NotedStep(c: seq<string>, b: seq<string>, a: seq<string>, more: set<string>, paths: set<string>)
    requires Noted(b, a, paths) && Noted(c, b, more)
    ensures Noted(c, a, paths + more)
  {
  }

  lemma NotedNone(a: seq<string>)
    ensures Noted(a, a, {})
  {
  }

  /** Some keys are left, the others are done and their results are in out. */
  ghost predicate Progress(keys: set<string>, done: set<string>, out: map<string, Value>, v: Value, s: Schema, path: string, fn: Rewrite) {
    && v.Obj? && keys + done == v.fields.Keys && keys !! done && out.Keys == done
    && forall k <- out :: out[k] == Transform(v.fields[k], Sub(s, k), KeyPath(path, k), fn)
  }

  lemma ProgressNone(v: Value, s: Schema, path: string, fn: Rewrite)
    requires v.Obj?
    ensures Progress(v.fields.Keys, {}, map[], v, s, path, fn)
  {
  }

  lemma ProgressStep(keys: set<string>, done: set<string>, out: map<string, Value>, v: Value, s: Schema, path: string,
                     fn: Rewrite, k: string)
    requires Progress(keys, done, out, v, s, path, fn) && k in keys
    ensures k in v.fields && done <= v.fields.Keys && done + {k} <= v.fields.Keys
    ensures Progress(keys - {k}, done + {k}, out[k := Transform(v.fields[k], Sub(s, k), KeyPath(path, k), fn)], v, s, path, fn)
  {
    hide Transform, Sub, KeyPath;
  }

  lemma ProgressAll(done: set<string>, out: map<string, Value>, v: Value, s: Schema, path: string, fn: Rewrite)
    requires Progress({}, done, out, v, s, path, fn) && !s.secret
    ensures done == v.fields.Keys && Obj(out) == Transform(v, Some(s), path, fn)
  {
    hide Transform, Sub, KeyPath;
    ObjectTransform(v, s, path, fn, out);
  }

  class Encryption {
    const crypto: Crypto
    const draw: Draw
    var prevSecrets: map<string, Value>
    var issues: seq<string>

    constructor (crypto: Crypto, draw: Draw)
      ensures this.crypto == crypto && this.draw == draw && prevSecrets == map[] && issues == []
    {
      this.crypto, this.draw := crypto, draw;
      prevSecrets, issues := map[], [];
    }

    // -------------------------------------------------------------------
    // Indexing the predecessor

    method IndexValue(v: Value, schema: Option<Schema>, path: string)
      modifies this`prevSecrets
      ensures Extends(prevSecrets, old(prevSecrets), SecretsIn(v, schema, path))
      decreases v, 1
    {
      hide Extends, SecretsIn, Sub, KeyPath, ItemPath, Below, BelowItems;
      ExtendsNone(prevSecrets);
      if schema.None? {
        NoSecrets(v, path);
        return;
      }
      var s := schema.value;
      if s.secret {
        OneSecret(v, s, path, prevSecrets);
        prevSecrets := prevSecrets[path := v];
        return;
      }
      match v
      case Obj(fields) =>
        BelowAll(v, s, path);
        IndexFields(v, s, path);
      case Arr(items) =>
        if s.items.Some? {
          BelowItemsAll(v, s, path);
          IndexItems(v, s, path);
        } else {
          NoItemSecrets(v, s, path);
        }
      case _ =>
        ScalarSecrets(v, s, path);
    }

    method IndexFields(v: Value, s: Schema, path: string)
      requires v.Obj?
      modifies this`prevSecrets
      ensures Extends(prevSecrets, old(prevSecrets), Below(v, s, path, v.fields.Keys))
      decreases v, 0
    {
      hide Extends, SecretsIn, Sub, KeyPath, Below;
      ExtendsNone(prevSecrets);
      BelowNone(v, s, path);
      var keys := v.fields.Keys;
      ghost var done: set<string> := {};
      while keys != {}
        invariant keys <= v.fields.Keys && done == v.fields.Keys - keys
        invariant Extends(prevSecrets, old(prevSecrets), Below(v, s, path, done))
        decreases |keys|
      {
        var k :| k in keys;
        ghost var before := prevSecrets;
        IndexValue(v.fields[k], Sub(s, k), KeyPath(path, k));
        ExtendsStep(prevSecrets, before, old(prevSecrets), SecretsIn(v.fields[k], Sub(s, k), KeyPath(path, k)), Below(v, s, path, done));
        BelowNext(v, s, path, done, k);
        keys, done := keys - {k}, done + {k};
      }
      assert done == v.fields.Keys;
    }

    method IndexItems(v: Value, s: Schema, path: string)
      requires v.Arr?
      modifies this`prevSecrets
      ensures Extends(prevSecrets, old(prevSecrets), BelowItems(v, s, path, |v.items|))
      decreases v, 0
    {
      hide Extends, SecretsIn, ItemPath, BelowItems;
      ExtendsNone(prevSecrets);
      BelowNoItems(v, s, path);
      for i := 0 to |v.items|
        invariant Extends(prevSecrets, old(prevSecrets), BelowItems(v, s, path, i))
      {
        ghost var before := prevSecrets;
        IndexValue(v.items[i], s.items, ItemPath(path, i));
        ExtendsStep(prevSecrets, before, old(prevSecrets), SecretsIn(v.items[i], s.items, ItemPath(path, i)), BelowItems(v, s, path, i));
        BelowItemsNext(v, s, path, i);
      }
    }

    method IndexNodes(section: string, nodes: seq<Node>, table: SchemaTable)
      modifies this`prevSecrets
      ensures Extends(prevSecrets, old(prevSecrets), NodeSecrets(section, nodes, table))
    {
      hide Extends, SecretsIn, Base, NodeSecrets;
      ExtendsNone(prevSecrets);
      NoNodes(section, nodes, table);
      for i := 0 to |nodes|
        invariant Extends(prevSecrets, old(prevSecrets), NodeSecrets(section, nodes[..i], table))
      {
        ghost var before := prevSecrets;
        IndexValue(nodes[i].config, table(nodes[i].kind), Base(section, i));
        NodesNext(section, nodes, table, i);
        ExtendsStep(prevSecrets, before, old(prevSecrets), SecretsIn(nodes[i].config, table(nodes[i].kind),
            Base(section, i)), NodeSecrets(section, nodes[..i], table));
      }
      assert nodes[..|nodes|] == nodes;
    }

    /** Indexes the previous version's secrets by path. */
    method IndexGraph(prev: Graph)
      requires prevSecrets == map[]
      modifies this`prevSecrets
      ensures prevSecrets == Index(Some(prev))
    {
      hide Extends, NodeSecrets, Index;
      IndexNodes("processors", prev.processors, ProcessorSchema);
      ghost var between := prevSecrets;
      IndexNodes("exporters", prev.exporters, ExporterSchema);
      ExtendsStep(prevSecrets, between, map[], NodeSecrets("exporters", prev.exporters, ExporterSchema),
                  NodeSecrets("processors", prev.processors, ProcessorSchema));
      ExtendsIndex(prevSecrets, prev);
    }

    // -------------------------------------------------------------------
    // Encrypting

    /** One secret field: the value to store, or None when sealing faults. */
    method EncryptSecret(path: string, v: Value) returns (r: Option<Value>)
      modifies this`issues
      ensures r.None? <==> AnyFault({(path, v)}, crypto, prevSecrets, draw)
      ensures r.Some? ==>
                && r.value == Written(crypto, prevSecrets, draw)(path, v)
                && Noted(issues, old(issues), ProblemsIn({(path, v)}, crypto, prevSecrets, draw))
    {
      assert (path, v) in {(path, v)};
      if Marker(crypto, v) || !v.Str? {
        return Some(v);
      }
      var s := v.s;
      if s == SENTINEL {
        if path !in prevSecrets {
          issues := issues + [path];
          return Some(v);
        }
        var prevVal := prevSecrets[path];
        if Marker(crypto, prevVal) {
          return Some(prevVal);
        }
        s := if prevVal.Str? then prevVal.s else "";
      }
      if !crypto.key {
        issues := issues + [path];
        return Some(v);
      }
      var nonce := draw(path);
      if nonce.None? {
        return None;
      }
      return Some(NewMarker(crypto.seal(nonce.value, s)));
    }

    method EncryptValue(v: Value, schema: Option<Schema>, path: string) returns (r: Option<Value>)
      modifies this`issues
      ensures r.None? <==> AnyFault(SecretsIn(v, schema, path), crypto, prevSecrets, draw)
      ensures r.Some? ==>
                && r.value == Transform(v, schema, path, Written(crypto, prevSecrets, draw))
                && Noted(issues, old(issues), ProblemsIn(SecretsIn(v, schema, path), crypto, prevSecrets, draw))
      decreases v, 1
    {
      hide SecretsIn, Sub, KeyPath, ItemPath, Below, BelowItems, EncryptField, AnyFault, ProblemsIn, Written;
      if schema.None? {
        NoSecrets(v, path);
        NoProblems(crypto, prevSecrets, draw);
        return Some(v);
      }
      var s := schema.value;
      if s.secret {
        SecretItself(v, s, path);
        r := EncryptSecret(path, v);
        return;
      }
      match v
      case Obj(fields) =>
        BelowAll(v, s, path);
        r := EncryptFields(v, s, path);
      case Arr(items) =>
        if s.items.Some? {
          BelowItemsAll(v, s, path);
          r := EncryptItems(v, s, path);
        } else {
          NoItemSecrets(v, s, path);
          NoProblems(crypto, prevSecrets, draw);
          r := Some(v);
        }
      case _ =>
        ScalarSecrets(v, s, path);
        NoProblems(crypto, prevSecrets, draw);
        r := Some(v);
    }

    method EncryptFields(v: Value, s: Schema, path: string) returns (r: Option<Value>)
      requires v.Obj? && !s.secret
      modifies this`issues
      ensures r.None? <==> AnyFault(Below(v, s, path, v.fields.Keys), crypto, prevSecrets, draw)
      ensures r.Some? ==>
                && r.value == Transform(v, Some(s), path, Written(crypto, prevSecrets, draw))
                && Noted(issues, old(issues), ProblemsIn(Below(v, s, path, v.fields.Keys), crypto, prevSecrets, draw))
      decreases v, 0
    {
      hide SecretsIn, Sub, KeyPath, Below, EncryptField, AnyFault, ProblemsIn, Written, Transform, Noted, Progress;
      var fn := Written(crypto, prevSecrets, draw);
      BelowNone(v, s, path);
      NoProblems(crypto, prevSecrets, draw);
      NotedNone(issues);
      var keys := v.fields.Keys;
      var out: map<string, Value> := map[];
      ghost var done: set<string> := {};
      ProgressNone(v, s, path, fn);
      while keys != {}
        invariant Progress(keys, done, out, v, s, path, fn)
        invariant !AnyFault(Below(v, s, path, done), crypto, prevSecrets, draw)
        invariant Noted(issues, old(issues), ProblemsIn(Below(v, s, path, done), crypto, prevSecrets, draw))
        decreases |keys|
      {
        var k :| k in keys;
        ProgressStep(keys, done, out, v, s, path, fn, k);
        ghost var before := issues;
        var sub := EncryptValue(v.fields[k], Sub(s, k), KeyPath(path, k));
        BelowNext(v, s, path, done, k);
        ProblemsUnion(Below(v, s, path, done), SecretsIn(v.fields[k], Sub(s, k), KeyPath(path, k)), crypto, prevSecrets, draw);
        if sub.None? {
          BelowSome(v, s, path, done + {k}, crypto, prevSecrets, draw);
          return None;
        }
        NotedStep(issues, before, old(issues), ProblemsIn(SecretsIn(v.fields[k], Sub(s, k), KeyPath(path, k)), crypto,
            prevSecrets, draw), ProblemsIn(Below(v, s, path, done), crypto, prevSecrets, draw));
        keys, done, out := keys - {k}, done + {k}, out[k := sub.value];
      }
      ProgressAll(done, out, v, s, path, fn);
      r := Some(Obj(out));
    }

    method EncryptItems(v: Value, s: Schema, path: string) returns (r: Option<Value>)
      requires v.Arr? && !s.secret && s.items.Some?
      modifies this`issues
      ensures r.None? <==> AnyFault(BelowItems(v, s, path, |v.items|), crypto, prevSecrets, draw)
      ensures r.Some? ==>
                && r.value == Transform(v, Some(s), path, Written(crypto, prevSecrets, draw))
                && Noted(issues, old(issues), ProblemsIn(BelowItems(v, s, path, |v.items|), crypto, prevSecrets, draw))
      decreases v, 0
    {
      hide SecretsIn, ItemPath, BelowItems, EncryptField, AnyFault, ProblemsIn, Written, Transform, Noted;
      var fn := Written(crypto, prevSecrets, draw);
      BelowNoItems(v, s, path);
      NoProblems(crypto, prevSecrets, draw);
      NotedNone(issues);
      var out: seq<Value> := [];
      for i := 0 to |v.items|
        invariant |out| == i
        invariant !AnyFault(BelowItems(v, s, path, i), crypto, prevSecrets, draw)
        invariant Noted(issues, old(issues), ProblemsIn(BelowItems(v, s, path, i), crypto, prevSecrets, draw))
        invariant forall j :: 0 <= j < i ==> out[j] == Transform(v.items[j], s.items, ItemPath(path, j), fn)
      {
        ghost var before := issues;
        var sub := EncryptValue(v.items[i], s.items, ItemPath(path, i));
        BelowItemsNext(v, s, path, i);
        ProblemsUnion(BelowItems(v, s, path, i), SecretsIn(v.items[i], s.items, ItemPath(path, i)), crypto, prevSecrets, draw);
        if sub.None? {
          BelowItemsSome(v, s, path, i + 1, crypto, prevSecrets, draw);
          return None;
        }
        NotedStep(issues, before, old(issues), ProblemsIn(SecretsIn(v.items[i], s.items, ItemPath(path, i)), crypto,
            prevSecrets, draw), ProblemsIn(BelowItems(v, s, path, i), crypto, prevSecrets, draw));
        out := out + [sub.value];
      }
      ArrayTransform(v, s, path, fn, out);
      r := Some(Arr(out));
    }

    method EncryptNodes(section: string, nodes: seq<Node>, table: SchemaTable) returns (r: Option<seq<Node>>)
      modifies this`issues
      ensures r.None? <==> AnyFault(NodeSecrets(section, nodes, table), crypto, prevSecrets, draw)
      ensures r.Some? ==>
                && r.value == TransformNodes(section, nodes, table, Written(crypto, prevSecrets, draw))
                && Noted(issues, old(issues), ProblemsIn(NodeSecrets(section, nodes, table), crypto, prevSecrets, draw))
    {
      hide SecretsIn, Base, NodeSecrets, EncryptField, AnyFault, ProblemsIn, Written, Transform, Noted;
      var fn := Written(crypto, prevSecrets, draw);
      NoNodes(section, nodes, table);
      NoProblems(crypto, prevSecrets, draw);
      NotedNone(issues);
      var out: seq<Node> := [];
      for i := 0 to |nodes|
        invariant |out| == i
        invariant !AnyFault(NodeSecrets(section, nodes[..i], table), crypto, prevSecrets, draw)
        invariant Noted(issues, old(issues), ProblemsIn(NodeSecrets(section, nodes[..i], table), crypto, prevSecrets, draw))
        invariant forall j :: 0 <= j < i ==> out[j] == nodes[j].(config :=
                  Transform(nodes[j].config, table(nodes[j].kind), Base(section, j), fn))
      {
        ghost var before := issues;
        var cfg := EncryptValue(nodes[i].config, table(nodes[i].kind), Base(section, i));
        NodesNext(section, nodes, table, i);
        ProblemsUnion(NodeSecrets(section, nodes[..i], table), SecretsIn(nodes[i].config, table(nodes[i].kind),
            Base(section, i)), crypto, prevSecrets, draw);
        if cfg.None? {
          NodesSome(section, nodes, table, i + 1, crypto, prevSecrets, draw);
          return None;
        }
        NotedStep(issues, before, old(issues), ProblemsIn(SecretsIn(nodes[i].config, table(nodes[i].kind),
            Base(section, i)), crypto, prevSecrets, draw), ProblemsIn(NodeSecrets(section, nodes[..i], table), crypto,
                prevSecrets, draw));
        out := out + [nodes[i].(config := cfg.value)];
      }
      assert nodes[..|nodes|] == nodes;
      r := Some(out);
    }
  }

  // ---------------------------------------------------------------------
  // Small facts used above

  lemma NoSecrets(v: Value, path: string)
    ensures SecretsIn(v, None, path) == {}
  {
  }

  lemma SecretItself(v: Value, s: Schema, path: string)
    requires s.secret
    ensures SecretsIn(v, Some(s), path) == {(path, v)}
  {
  }

  lemma OneSecret(v: Value, s: Schema, path: string, m: map<string, Value>)
    requires s.secret
    ensures Extends(m[path := v], m, SecretsIn(v, Some(s), path))
  {
  }

  lemma NoItemSecrets(v: Value, s: Schema, path: string)
    requires v.Arr? && !s.secret && s.items.None?
    ensures SecretsIn(v, Some(s), path) == {}
  {
  }

  lemma ScalarSecrets(v: Value, s: Schema, path: string)
    requires !v.Arr? && !v.Obj? && !s.secret
    ensures SecretsIn(v, Some(s), path) == {}
  {
  }

  lemma BelowNone(v: Value, s: Schema, path: string)
    requires v.Obj?
    ensures Below(v, s, path, {}) == {}
  {
  }

  lemma BelowNoItems(v: Value, s: Schema, path: string)
    requires v.Arr?
    ensures BelowItems(v, s, path, 0) == {}
  {
  }

  lemma NoProblems(c: Crypto, prev: map<string, Value>, draw: Draw)
    ensures ProblemsIn({}, c, prev, draw) == {} && !AnyFault({}, c, prev, draw)
  {
  }

  lemma FaultGrows(a: set<(string, Value)>, b: set<(string, Value)>, c: Crypto, prev: map<string, Value>, draw: Draw)
    requires a <= b && AnyFault(a, c, prev, draw)
    ensures AnyFault(b, c, prev, draw)
  {
    hide EncryptField;
  }

  lemma BelowSome(v: Value, s: Schema, path: string, keys: set<string>, c: Crypto, prev: map<string, Value>, draw: Draw)
    requires v.Obj? && keys <= v.fields.Keys && AnyFault(Below(v, s, path, keys), c, prev, draw)
    ensures AnyFault(Below(v, s, path, v.fields.Keys), c, prev, draw)
  {
    hide SecretsIn, Sub, KeyPath, AnyFault;
    FaultGrows(Below(v, s, path, keys), Below(v, s, path, v.fields.Keys), c, prev, draw);
  }

  lemma BelowItemsSome(v: Value, s: Schema, path: string, n: nat, c: Crypto, prev: map<string, Value>, draw: Draw)
    requires v.Arr? && n <= |v.items| && AnyFault(BelowItems(v, s, path, n), c, prev, draw)
    ensures AnyFault(BelowItems(v, s, path, |v.items|), c, prev, draw)
  {
    hide SecretsIn, ItemPath, AnyFault;
    FaultGrows(BelowItems(v, s, path, n), BelowItems(v, s, path, |v.items|), c, prev, draw);
  }

  lemma NodesNext(section: string, nodes: seq<Node>, table: SchemaTable, i: nat)
    requires i < |nodes|
    ensures NodeSecrets(section, nodes[..i + 1], table) ==
            NodeSecrets(section, nodes[..i], table) + SecretsIn(nodes[i].config, table(nodes[i].kind), Base(section, i))
  {
    hide SecretsIn, Base;
    var a, b := nodes[..i + 1], nodes[..i];
    assert forall j :: 0 <= j < i ==> a[j] == b[j];
    assert a[i] == nodes[i];
  }

  lemma NodesSome(section: string, nodes: seq<Node>, table: SchemaTable, n: nat, c: Crypto, prev: map<string, Value>, draw: Draw)
    requires n <= |nodes| && AnyFault(NodeSecrets(section, nodes[..n], table), c, prev, draw)
    ensures AnyFault(NodeSecrets(section, nodes, table), c, prev, draw)
  {
    hide SecretsIn, Base, AnyFault;
    assert forall j :: 0 <= j < n ==> nodes[..n][j] == nodes[j];
    FaultGrows(NodeSecrets(section, nodes[..n], table), NodeSecrets(section, nodes, table), c, prev, draw);
  }

  lemma NoNodes(section: string, nodes: seq<Node>, table: SchemaTable)
    ensures NodeSecrets(section, nodes[..0], table) == {}
  {
  }

  lemma ObjectTransform(v: Value, s: Schema, path: string, fn: Rewrite, out: map<string, Value>)
    requires v.Obj? && !s.secret && out.Keys == v.fields.Keys
    requires forall k <- out :: out[k] == Transform(v.fields[k], Sub(s, k), KeyPath(path, k), fn)
    ensures Obj(out) == Transform(v, Some(s), path, fn)
  {
    hide Sub, KeyPath;
    assert out == map k | k in v.fields :: Transform(v.fields[k], Sub(s, k), KeyPath(path, k), fn);
  }

  lemma ArrayTransform(v: Value, s: Schema, path: string, fn: Rewrite, out: seq<Value>)
    requires v.Arr? && !s.secret && s.items.Some? && |out| == |v.items|
    requires forall j :: 0 <= j < |out| ==> out[j] == Transform(v.items[j], s.items, ItemPath(path, j), fn)
    ensures Arr(out) == Transform(v, Some(s), path, fn)
  {
    hide ItemPath;
  }

  // ---------------------------------------------------------------------
  // The entry point

  /** Encrypts a submitted graph against the previous version. */
  method EncryptGraphSecrets(g: Graph, crypto: Crypto, draw: Draw, prev: Option<Graph>) returns (r: Result<(Graph, seq<string>), ()>)
    ensures match Encrypt(g, crypto, Index(prev), draw)
            case Failed => r == Err(())
            case Rejected(paths) => r.Ok? && r.value.1 != [] && (set p | p in r.value.1) == paths
            case Stored(out) => r == Ok((out, []))
  {
    hide NodeSecrets, Index, AnyFault, ProblemsIn, Written, EncryptField, TransformNodes;
    var e := new Encryption(crypto, draw);
    if prev.Some? {
      e.IndexGraph(prev.value);
    }
    IndexNone();
    assert e.prevSecrets == Index(prev);
    var processors := e.EncryptNodes("processors", g.processors, ProcessorSchema);
    ghost var a, b := NodeSecrets("processors", g.processors, ProcessorSchema), NodeSecrets("exporters", g.exporters, ExporterSchema);
    ProblemsUnion(a, b, crypto, e.prevSecrets, draw);
    OutcomeIs(g, crypto, e.prevSecrets, draw);
    if processors.None? {
      return Err(());
    }
    var exporters := e.EncryptNodes("exporters", g.exporters, ExporterSchema);
    if exporters.None? {
      return Err(());
    }
    ghost var listed := set p | p in e.issues;
    assert listed == ProblemsIn(AllSecrets(g), crypto, e.prevSecrets, draw);
    if |e.issues| > 0 {
      assert e.issues[0] in listed;
      return Ok((Graph([], [], []), e.issues));
    }
    assert listed == {};
    return Ok((Graph(g.signals, processors.value, exporters.value), []));
  }

  lemma IndexNone()
    ensures Index(None) == map[]
  {
  }

  lemma OutcomeIs(g: Graph, c: Crypto, prev: map<string, Value>, draw: Draw)
    ensures Encrypt(g, c, prev, draw) ==
            if AnyFault(AllSecrets(g), c, prev, draw) then Failed
            else if ProblemsIn(AllSecrets(g), c, prev, draw) != {} then Rejected(ProblemsIn(AllSecrets(g), c, prev, draw))
            else Stored(TransformGraph(g, Written(c, prev, draw)))
  {
    hide AllSecrets, EncryptField, TransformGraph;
    assert ProblemsIn(AllSecrets(g), c, prev, draw) == IssuePaths(g, c, prev, draw);
  }

  // ---------------------------------------------------------------------
  // Decrypting

  /** Whether every secret below a value opens. */
  predicate Opens(v: Value, schema: Option<Schema>, c: Crypto)
    decreases v
  {
    if schema.None? then true else
    var s := schema.value;
    if s.secret then OpenField(c, v).Some? else
    match v
    case Obj(fields) => forall k <- fields :: Opens(fields[k], Sub(s, k), c)
    case Arr(items) => s.items.Some? ==> forall i :: 0 <= i < |items| ==> Opens(items[i], s.items, c)
    case _ => true
  }

  lemma {:induction false} OpensIff(v: Value, schema: Option<Schema>, path: string, c: Crypto)
    ensures Opens(v, schema, c) <==> forall e <- SecretsIn(v, schema, path) :: OpenField(c, e.1).Some?
    decreases v
  {
    hide OpenField, KeyPath, ItemPath, Sub;
    if schema.Some? {
      var s := schema.value;
      if s.secret {
        SecretItself(v, s, path);
        assert (path, v) in SecretsIn(v, schema, path);
      } else if v.Obj? {
        forall k <- v.fields ensures Opens(v.fields[k], Sub(s, k), c) <==>
                                     forall e <- SecretsIn(v.fields[k], Sub(s, k), KeyPath(path, k)) :: OpenField(c, e.1).Some? {
          OpensIff(v.fields[k], Sub(s, k), KeyPath(path, k), c);
        }
      } else if v.Arr? && s.items.Some? {
        forall i | 0 <= i < |v.items| ensures Opens(v.items[i], s.items, c) <==>
                                              forall e <- SecretsIn(v.items[i], s.items, ItemPath(path, i)) :: OpenField(c, e.1).Some? {
          OpensIff(v.items[i], s.items, ItemPath(path, i), c);
        }
      }
    }
  }

  ghost predicate AllOpen(es: set<(string, Value)>, c: Crypto) {
    forall e <- es :: OpenField(c, e.1).Some?
  }

  method NodesOpen(section: string, nodes: seq<Node>, table: SchemaTable, c: Crypto) returns (ok: bool)
    ensures ok <==> AllOpen(NodeSecrets(section, nodes, table), c)
  {
    hide OpenField, Base, SecretsIn, Opens;
    for i := 0 to |nodes|
      invariant AllOpen(NodeSecrets(section, nodes[..i], table), c)
    {
      NodesNext(section, nodes, table, i);
      OpensIff(nodes[i].config, table(nodes[i].kind), Base(section, i), c);
      if !Opens(nodes[i].config, table(nodes[i].kind), c) {
        return false;
      }
    }
    assert nodes[..|nodes|] == nodes;
    return true;
  }

  /** Replaces markers by their plaintext, or fails if one does not open. */
  method DecryptGraphSecrets(g: Graph, c: Crypto) returns (r: Option<Graph>)
    ensures r == Decrypt(g, c)
  {
    hide OpenField, NodeSecrets, TransformGraph;
    var a := NodesOpen("processors", g.processors, ProcessorSchema, c);
    var b := NodesOpen("exporters", g.exporters, ExporterSchema, c);
    assert a && b <==> AllOpen(AllSecrets(g), c);
    return if a && b then Some(TransformGraph(g, Opened(c))) else None;
  }
}
