/** JSON values of component configs, the YAML tree they are rendered to, and pipeline graphs. */
module Values {
  import opened Prelude
  import Sorting

  /** A decoded JSON value. A number is the numeral it is printed as, so numbers that print alike,
      such as 1 and 1.0, are one value. */
  datatype Value = Null | Bool(b: bool) | Number(text: string) | Str(s: string) | Arr(items: seq<Value>) | Obj(fields: map<string, Value>)

  /** A YAML node; a mapping keeps its entries in insertion order. */
  datatype Yaml = Scalar(value: Value) | Sequence(items: seq<Yaml>) | Mapping(entries: seq<(string, Yaml)>)

  /** One processor or exporter of a graph. */
  datatype Node = Node(kind: string, name: Option<string>, config: Value)

  datatype Graph = Graph(signals: seq<string>, processors: seq<Node>, exporters: seq<Node>)

  /** A set of keys in sorted order. */
  ghost function SortedKeys(keys: set<string>): seq<string>
    decreases |keys|
  {
    if keys == {} then [] else
    var k :| k in keys;
    Sorting.Insert(SortedKeys(keys - {k}), k, Sorting.StringLe)
  }

  lemma {:induction false} SortedKeysIs(keys: set<string>)
    ensures Sorting.Sorted(SortedKeys(keys), Sorting.StringLe)
    ensures multiset(SortedKeys(keys)) == multiset(keys)
    ensures forall k :: k in SortedKeys(keys) <==> k in keys
    decreases |keys|
  {
    hide Sorting.Insert, Sorting.StringLe, Sorting.Preorder, Sorting.Sorted, Sorting.Antisymmetric;
    Sorting.StringOrder();
    if keys == {} {
      Sorting.SortedNone<string>(Sorting.StringLe);
    } else {
      var k :| k in keys && SortedKeys(keys) == Sorting.Insert(SortedKeys(keys - {k}), k, Sorting.StringLe);
      SortedKeysIs(keys - {k});
      Sorting.InsertSorted(SortedKeys(keys - {k}), k, Sorting.StringLe);
      Sorting.InsertMultiset(SortedKeys(keys - {k}), k, Sorting.StringLe);
      forall j ensures j in SortedKeys(keys) <==> j in keys {
        Sorting.InsertElements(SortedKeys(keys - {k}), k, j, Sorting.StringLe);
      }
      assert multiset(keys) == multiset(keys - {k}) + multiset{k};
    }
  }

  /** The YAML tree of a value: maps become mappings with sorted keys. */
  ghost function ToNode(v: Value): Yaml {
    match v
    case Obj(fields) =>
      var keys := SortedKeys(fields.Keys);
      SortedKeysIs(fields.Keys);
      Mapping(seq(|keys|, i requires 0 <= i < |keys| => (keys[i], ToNode(fields[keys[i]]))))
    case Arr(items) => Sequence(seq(|items|, i requires 0 <= i < |items| => ToNode(items[i])))
    case _ => Scalar(v)
  }

  lemma SameObj(a: Value, b: Value)
    requires a.Obj? && b.Obj? && ToNode(a) == ToNode(b)
    ensures a.fields.Keys == b.fields.Keys
    ensures forall k <- a.fields :: ToNode(a.fields[k]) == ToNode(b.fields[k])
  {
    hide SortedKeys, ToNode;
    ObjEntries(a);
    ObjEntries(b);
    var keys, keys' := SortedKeys(a.fields.Keys), SortedKeys(b.fields.Keys);
    forall i | 0 <= i < |keys| ensures keys[i] == keys'[i] {
      assert ToNode(a).entries[i].0 == ToNode(b).entries[i].0;
    }
    assert keys == keys';
    forall k <- a.fields ensures ToNode(a.fields[k]) == ToNode(b.fields[k]) {
      var i :| 0 <= i < |keys| && keys[i] == k;
      assert ToNode(a).entries[i].1 == ToNode(b).entries[i].1;
    }
  }

  lemma SameArr(a: Value, b: Value)
    requires a.Arr? && b.Arr? && ToNode(a) == ToNode(b)
    ensures |a.items| == |b.items| && forall i :: 0 <= i < |a.items| ==> ToNode(a.items[i]) == ToNode(b.items[i])
  {
    forall i | 0 <= i < |a.items| ensures ToNode(a.items[i]) == ToNode(b.items[i]) {
      assert ToNode(a).items[i] == ToNode(b).items[i];
    }
  }

  lemma NodeShape(v: Value)
    ensures v.Obj? <==> ToNode(v).Mapping?
    ensures v.Arr? <==> ToNode(v).Sequence?
    ensures !v.Obj? && !v.Arr? ==> ToNode(v) == Scalar(v)
  {
  }

  /** Rendering loses nothing: different values have different trees. */
  lemma {:induction false} ToNodeInjective(a: Value, b: Value)
    requires ToNode(a) == ToNode(b)
    ensures a == b
    decreases a
  {
    hide ToNode;
    NodeShape(a);
    NodeShape(b);
    match a
    case Obj(fields) =>
      SameObj(a, b);
      forall k <- fields ensures fields[k] == b.fields[k] {
        ToNodeInjective(fields[k], b.fields[k]);
      }
    case Arr(items) =>
      SameArr(a, b);
      forall i | 0 <= i < |items| ensures items[i] == b.items[i] {
        ToNodeInjective(items[i], b.items[i]);
      }
    case _ =>
  }

  lemma ObjEntries(v: Value)
    requires v.Obj?
    ensures ToNode(v).Mapping? && |ToNode(v).entries| == |SortedKeys(v.fields.Keys)|
    ensures forall k :: k in SortedKeys(v.fields.Keys) <==> k in v.fields
    ensures forall i :: 0 <= i < |SortedKeys(v.fields.Keys)| ==>
              ToNode(v).entries[i] == (SortedKeys(v.fields.Keys)[i], ToNode(v.fields[SortedKeys(v.fields.Keys)[i]]))
  {
    SortedKeysIs(v.fields.Keys);
  }

  // ---------------------------------------------------------------------
  // The code: keys collected in map order, then sorted

  method KeysSorted(fields: map<string, Value>) returns (keys: seq<string>)
    ensures keys == SortedKeys(fields.Keys)
  {
    keys := [];
    var todo := fields.Keys;
    while todo != {}
      invariant todo <= fields.Keys
      invariant multiset(keys) + multiset(todo) == multiset(fields.Keys)
      decreases todo
    {
      var k :| k in todo;
      keys := keys + [k];
      todo := todo - {k};
    }
    ghost var collected := keys;
    keys := Sorting.Sort(keys, Sorting.StringLe);
    Sorting.StringOrder();
    Sorting.SortSorted(collected, Sorting.StringLe);
    Sorting.SortMultiset(collected, Sorting.StringLe);
    SortedKeysIs(fields.Keys);
    Sorting.SortedUnique(keys, SortedKeys(fields.Keys), Sorting.StringLe);
  }

  method EncodeNode(v: Value) returns (y: Yaml)
    ensures y == ToNode(v)
    decreases v
  {
    match v
    case Obj(fields) =>
      SortedKeysIs(fields.Keys);
      var keys := KeysSorted(fields);
      var entries: seq<(string, Yaml)> := [];
      for i := 0 to |keys|
        invariant |entries| == i
        invariant forall j :: 0 <= j < i ==> entries[j] == (keys[j], ToNode(fields[keys[j]]))
      {
        assert keys[i] in fields;
        var child := EncodeNode(fields[keys[i]]);
        entries := entries + [(keys[i], child)];
      }
      y := Mapping(entries);
    case Arr(items) =>
      var nodes: seq<Yaml> := [];
      for i := 0 to |items|
        invariant |nodes| == i
        invariant forall j :: 0 <= j < i ==> nodes[j] == ToNode(items[j])
      {
        var child := EncodeNode(items[i]);
        nodes := nodes + [child];
      }
      y := Sequence(nodes);
    case _ => y := Scalar(v);
  }
}
