/** The schema-directed walk over a config value that finds and replaces its secret fields. */
module SecretWalk {
  import opened Prelude
  import opened Values
  import Text

  /** The part of a JSON Schema the walk looks at: whether the field is a password, the schemas
      of named properties, of other properties, and of array items. */
  datatype Schema = Schema(secret: bool, props: map<string, Schema>, rest: Option<Schema>, items: Option<Schema>)

  function Sub(s: Schema, key: string): Option<Schema> {
    if key in s.props then Some(s.props[key]) else s.rest
  }

  function KeyPath(path: string, key: string): string {
    path + "." + key
  }

  function ItemPath(path: string, i: nat): string {
    path + "[" + Text.Itoa(i) + "]"
  }

  type Rewrite = (string, Value) -> Value

  /** Every secret field replaced by fn's result at its printed path. */
  function Transform(v: Value, schema: Option<Schema>, path: string, fn: Rewrite): Value
    decreases v
  {
    if schema.None? then v else
    var s := schema.value;
    if s.secret then fn(path, v) else
    match v
    case Obj(fields) => Obj(map k | k in fields :: Transform(fields[k], Sub(s, k), KeyPath(path, k), fn))
    case Arr(items) =>
      if s.items.None? then v
      else Arr(seq(|items|, i requires 0 <= i < |items| => Transform(items[i], s.items, ItemPath(path, i), fn)))
    case _ => v
  }

  /** The secret fields of a value with their printed paths. */
  ghost function SecretsIn(v: Value, schema: Option<Schema>, path: string): set<(string, Value)>
    decreases v
  {
    if schema.None? then {} else
    var s := schema.value;
    if s.secret then {(path, v)} else
    match v
    case Obj(fields) => set k, e | k in fields && e in SecretsIn(fields[k], Sub(s, k), KeyPath(path, k)) :: e
    case Arr(items) =>
      if s.items.None? then {} else
      set i, e | 0 <= i < |items| && e in SecretsIn(items[i], s.items, ItemPath(path, i)) :: e
    case _ => {}
  }

  /** Two values that differ at most in their secret fields. */
  ghost predicate Alike(a: Value, b: Value, schema: Option<Schema>)
    decreases a
  {
    if schema.None? then a == b else
    var s := schema.value;
    s.secret || a == b
    || (a.Obj? && b.Obj? && a.fields.Keys == b.fields.Keys && forall k <- a.fields :: Alike(a.fields[k], b.fields[k], Sub(s, k)))
    || (a.Arr? && b.Arr? && s.items.Some? && |a.items| == |b.items| && forall i :: 0 <= i < |a.items| ==>
        Alike(a.items[i], b.items[i], s.items))
  }

  // ---------------------------------------------------------------------
  // Membership

  lemma ChildSecrets(v: Value, s: Schema, path: string, k: string)
    requires v.Obj? && !s.secret && k in v.fields
    ensures SecretsIn(v.fields[k], Sub(s, k), KeyPath(path, k)) <= SecretsIn(v, Some(s), path)
  {
  }

  lemma ItemSecrets(v: Value, s: Schema, path: string, i: nat)
    requires v.Arr? && !s.secret && s.items.Some? && i < |v.items|
    ensures SecretsIn(v.items[i], s.items, ItemPath(path, i)) <= SecretsIn(v, Some(s), path)
  {
  }

  lemma InObject(v: Value, s: Schema, path: string, e: (string, Value))
    requires v.Obj? && !s.secret
    ensures e in SecretsIn(v, Some(s), path) <==> exists k <- v.fields :: e in SecretsIn(v.fields[k], Sub(s, k), KeyPath(path, k))
  {
  }

  lemma InArray(v: Value, s: Schema, path: string, e: (string, Value))
    requires v.Arr? && !s.secret && s.items.Some?
    ensures e in SecretsIn(v, Some(s), path) <==>
            exists i :: 0 <= i < |v.items| && e in SecretsIn(v.items[i], s.items, ItemPath(path, i))
  {
  }

  // ---------------------------------------------------------------------
  // What Transform does

  /** The secrets of the result are the rewritten secrets, at the same paths. */
  lemma {:induction false} TransformRewrites(v: Value, schema: Option<Schema>, path: string, fn: Rewrite, e: (string, Value))
    ensures e in SecretsIn(Transform(v, schema, path, fn), schema, path) <==>
            exists x :: (e.0, x) in SecretsIn(v, schema, path) && e.1 == fn(e.0, x)
    decreases v
  {
    hide KeyPath, ItemPath, Sub;
    if schema.Some? {
      var s := schema.value;
      if s.secret {
        assert e in SecretsIn(fn(path, v), schema, path) <==> e == (path, fn(path, v));
        assert (path, v) in SecretsIn(v, schema, path);
      } else if v.Obj? {
        var t := Transform(v, schema, path, fn);
        assert t.fields.Keys == v.fields.Keys;
        assert forall k <- v.fields :: t.fields[k] == Transform(v.fields[k], Sub(s, k), KeyPath(path, k), fn);
        InObject(t, s, path, e);
        forall x ensures (e.0, x) in SecretsIn(v, schema, path) <==> exists k <- v.fields ::
               (e.0, x) in SecretsIn(v.fields[k], Sub(s, k), KeyPath(path, k)) {
          InObject(v, s, path, (e.0, x));
        }
        forall k | k in v.fields
          ensures e in SecretsIn(Transform(v.fields[k], Sub(s, k), KeyPath(path, k), fn), Sub(s, k), KeyPath(path, k)) <==>
                  exists x :: (e.0, x) in SecretsIn(v.fields[k], Sub(s, k), KeyPath(path, k)) && e.1 == fn(e.0, x)
        {
          TransformRewrites(v.fields[k], Sub(s, k), KeyPath(path, k), fn, e);
        }
      } else if v.Arr? && s.items.Some? {
        var t := Transform(v, schema, path, fn);
        InArray(t, s, path, e);
        forall x ensures (e.0, x) in SecretsIn(v, schema, path) <==>
                         exists i :: 0 <= i < |v.items| && (e.0, x) in SecretsIn(v.items[i], s.items, ItemPath(path, i)) {
          InArray(v, s, path, (e.0, x));
        }
        forall i | 0 <= i < |v.items|
          ensures e in SecretsIn(Transform(v.items[i], s.items, ItemPath(path, i), fn), s.items, ItemPath(path, i)) <==>
                  exists x :: (e.0, x) in SecretsIn(v.items[i], s.items, ItemPath(path, i)) && e.1 == fn(e.0, x)
        {
          TransformRewrites(v.items[i], s.items, ItemPath(path, i), fn, e);
        }
      }
    }
  }

  /** Nothing but secret fields changes. */
  lemma {:induction false} TransformAlike(v: Value, schema: Option<Schema>, path: string, fn: Rewrite)
    ensures Alike(v, Transform(v, schema, path, fn), schema)
    decreases v
  {
    hide KeyPath, ItemPath, Sub;
    if schema.Some? && !schema.value.secret {
      var s := schema.value;
      if v.Obj? {
        forall k <- v.fields ensures Alike(v.fields[k], Transform(v.fields[k], Sub(s, k), KeyPath(path, k), fn), Sub(s, k)) {
          TransformAlike(v.fields[k], Sub(s, k), KeyPath(path, k), fn);
        }
      } else if v.Arr? && s.items.Some? {
        forall i | 0 <= i < |v.items| ensures Alike(v.items[i], Transform(v.items[i], s.items, ItemPath(path, i), fn), s.items) {
          TransformAlike(v.items[i], s.items, ItemPath(path, i), fn);
        }
      }
    }
  }

  ghost predicate Agree(a: set<(string, Value)>, b: set<(string, Value)>) {
    forall p, x, y :: (p, x) in a && (p, y) in b ==> x == y
  }

  /** Values that differ at most in secrets and agree on every secret are equal. */
  lemma {:induction false} AlikeEqual(a: Value, b: Value, schema: Option<Schema>, path: string)
    requires Alike(a, b, schema) && Agree(SecretsIn(a, schema, path), SecretsIn(b, schema, path))
    ensures a == b
    decreases a
  {
    hide KeyPath, ItemPath, Sub;
    if schema.Some? {
      var s := schema.value;
      if s.secret {
        assert (path, a) in SecretsIn(a, schema, path) && (path, b) in SecretsIn(b, schema, path);
      } else if a.Obj? && b.Obj? && a.fields.Keys == b.fields.Keys && forall k <- a.fields :: Alike(a.fields[k], b.fields[k], Sub(s, k)) {
        forall k <- a.fields ensures a.fields[k] == b.fields[k] {
          ChildSecrets(a, s, path, k);
          ChildSecrets(b, s, path, k);
          AlikeEqual(a.fields[k], b.fields[k], Sub(s, k), KeyPath(path, k));
        }
        assert a.fields == b.fields;
      } else if a.Arr? && b.Arr? && s.items.Some? && |a.items| == |b.items| && forall i :: 0 <= i < |a.items| ==>
          Alike(a.items[i], b.items[i], s.items) {
        forall i | 0 <= i < |a.items| ensures a.items[i] == b.items[i] {
          ItemSecrets(a, s, path, i);
          ItemSecrets(b, s, path, i);
          AlikeEqual(a.items[i], b.items[i], s.items, ItemPath(path, i));
        }
        assert a.items == b.items;
      }
    }
  }

  /** Equal results of one rewrite come from values that are alike. */
  lemma {:induction false} TransformsAlike(a: Value, b: Value, schema: Option<Schema>, path: string, fn: Rewrite)
    ensures Transform(a, schema, path, fn) == Transform(b, schema, path, fn) ==> Alike(a, b, schema)
    decreases a
  {
    hide KeyPath, ItemPath, Sub;
    if schema.Some? && !schema.value.secret && Transform(a, schema, path, fn) == Transform(b, schema, path, fn) {
      var s := schema.value;
      if a.Obj? {
        var ta, tb := Transform(a, schema, path, fn), Transform(b, schema, path, fn);
        assert ta.fields.Keys == a.fields.Keys && tb.fields.Keys == b.fields.Keys;
        forall k <- a.fields ensures Alike(a.fields[k], b.fields[k], Sub(s, k)) {
          assert ta.fields[k] == tb.fields[k];
          TransformsAlike(a.fields[k], b.fields[k], Sub(s, k), KeyPath(path, k), fn);
        }
      } else if a.Arr? && s.items.Some? {
        var ta, tb := Transform(a, schema, path, fn), Transform(b, schema, path, fn);
        assert |ta.items| == |a.items| && |tb.items| == |b.items|;
        forall i | 0 <= i < |a.items| ensures Alike(a.items[i], b.items[i], s.items) {
          assert ta.items[i] == tb.items[i];
          TransformsAlike(a.items[i], b.items[i], s.items, ItemPath(path, i), fn);
        }
      }
    }
  }

  /** Alike values have secrets at the same paths. */
  lemma {:induction false} AlikePaths(a: Value, b: Value, schema: Option<Schema>, path: string, p: string)
    requires Alike(a, b, schema)
    ensures (exists x :: (p, x) in SecretsIn(a, schema, path)) <==> (exists x :: (p, x) in SecretsIn(b, schema, path))
    decreases a
  {
    hide KeyPath, ItemPath, Sub;
    if schema.Some? && a != b {
      var s := schema.value;
      if s.secret {
        assert (path, a) in SecretsIn(a, schema, path) && (path, b) in SecretsIn(b, schema, path);
      } else if a.Obj? {
        forall k <- a.fields
          ensures (exists x :: (p, x) in SecretsIn(a.fields[k], Sub(s, k), KeyPath(path, k))) <==>
                  (exists x :: (p, x) in SecretsIn(b.fields[k], Sub(s, k), KeyPath(path, k)))
        {
          AlikePaths(a.fields[k], b.fields[k], Sub(s, k), KeyPath(path, k), p);
        }
      } else {
        forall i | 0 <= i < |a.items|
          ensures (exists x :: (p, x) in SecretsIn(a.items[i], s.items, ItemPath(path, i))) <==>
                  (exists x :: (p, x) in SecretsIn(b.items[i], s.items, ItemPath(path, i)))
        {
          AlikePaths(a.items[i], b.items[i], s.items, ItemPath(path, i), p);
        }
      }
    }
  }

  /** Alike is an equivalence: symmetric and transitive. */
  lemma {:induction false} AlikeSymmetric(a: Value, b: Value, schema: Option<Schema>)
    requires Alike(a, b, schema)
    ensures Alike(b, a, schema)
    decreases a
  {
    hide Sub;
    if schema.Some? && !schema.value.secret && a != b {
      var s := schema.value;
      if a.Obj? {
        forall k <- b.fields ensures Alike(b.fields[k], a.fields[k], Sub(s, k)) {
          AlikeSymmetric(a.fields[k], b.fields[k], Sub(s, k));
        }
      } else {
        forall i | 0 <= i < |b.items| ensures Alike(b.items[i], a.items[i], s.items) {
          AlikeSymmetric(a.items[i], b.items[i], s.items);
        }
      }
    }
  }

  lemma {:induction false} AlikeTransitive(a: Value, b: Value, c: Value, schema: Option<Schema>)
    requires Alike(a, b, schema) && Alike(b, c, schema)
    ensures Alike(a, c, schema)
    decreases a
  {
    hide Sub;
    if schema.Some? && !schema.value.secret && a != b && b != c {
      var s := schema.value;
      if a.Obj? {
        forall k <- a.fields ensures Alike(a.fields[k], c.fields[k], Sub(s, k)) {
          AlikeTransitive(a.fields[k], b.fields[k], c.fields[k], Sub(s, k));
        }
      } else {
        forall i | 0 <= i < |a.items| ensures Alike(a.items[i], c.items[i], s.items) {
          AlikeTransitive(a.items[i], b.items[i], c.items[i], s.items);
        }
      }
    }
  }

  // ---------------------------------------------------------------------
  // Schemas without secrets

  ghost predicate Clean(s: Schema) {
    !s.secret && (forall k <- s.props :: Clean(s.props[k])) && (s.rest.Some? ==> Clean(s.rest.value)) &&
        (s.items.Some? ==> Clean(s.items.value))
  }

  lemma {:induction false} CleanNone(v: Value, s: Schema, path: string)
    requires Clean(s)
    ensures SecretsIn(v, Some(s), path) == {}
    decreases v
  {
    if v.Obj? {
      forall k <- v.fields ensures SecretsIn(v.fields[k], Sub(s, k), KeyPath(path, k)) == {} {
        if Sub(s, k).Some? {
          CleanNone(v.fields[k], Sub(s, k).value, KeyPath(path, k));
        }
      }
    } else if v.Arr? && s.items.Some? {
      forall i | 0 <= i < |v.items| ensures SecretsIn(v.items[i], s.items, ItemPath(path, i)) == {} {
        CleanNone(v.items[i], s.items.value, ItemPath(path, i));
      }
    }
  }
}
