/** The gateway's bounded cache of API-key verdicts: a recency list and an index into it. */
module KeyCache {
  import opened Prelude

  /** A cached verdict; the times are nanoseconds and `data` is set only when valid. */
  datatype Entry = Entry(valid: bool, data: string, freshUntil: int, staleUntil: int)

  // ---------------------------------------------------------------------
  // The reference: keys by recency, most recent first, and their entries

  datatype Lru = Lru(order: seq<string>, entries: map<string, Entry>)

  const EMPTY := Lru([], map[])

  function Remove(order: seq<string>, k: string): seq<string> {
    if order == [] then [] else
    if order[0] == k then order[1..] else [order[0]] + Remove(order[1..], k)
  }

  function Promote(order: seq<string>, k: string): seq<string> {
    [k] + Remove(order, k)
  }

  /** The most recent keys, at most max of them. */
  function Trim(order: seq<string>, max: int): seq<string> {
    if |order| <= max then order else if max <= 0 then [] else order[..max]
  }

  function Lookup(c: Lru, k: string): (Lru, Option<Entry>) {
    if k in c.entries then (c.(order := Promote(c.order, k)), Some(c.entries[k])) else (c, None)
  }

  function Store(c: Lru, k: string, e: Entry, max: int): Lru {
    if k in c.entries then Lru(Promote(c.order, k), c.entries[k := e]) else
    var order := Trim([k] + c.order, max);
    Lru(order, map j | j in c.entries[k := e] && j in order :: c.entries[k := e][j])
  }

  ghost predicate Distinct(order: seq<string>) {
    forall i, j :: 0 <= i < j < |order| ==> order[i] != order[j]
  }

  /** List and index hold the same keys, once each, and no more than allowed. */
  ghost predicate Consistent(c: Lru, max: int) {
    && Distinct(c.order)
    && (forall k :: k in c.order <==> k in c.entries)
    && (|c.order| <= max || c.order == [])
  }

  lemma {:induction false} RemoveAt(order: seq<string>, k: string, i: nat)
    requires Distinct(order) && i < |order| && order[i] == k
    ensures Remove(order, k) == order[..i] + order[i + 1..]
  {
    if i != 0 {
      RemoveAt(order[1..], k, i - 1);
      assert order[1..][..i - 1] == order[1..i] && order[1..][i..] == order[i + 1..];
      assert order[..i] == [order[0]] + order[1..i];
    }
  }

  lemma {:induction false} RemoveAbsent(order: seq<string>, k: string)
    requires k !in order
    ensures Remove(order, k) == order
  {
    if order != [] {
      RemoveAbsent(order[1..], k);
    }
  }

  lemma IndexOf(order: seq<string>, k: string) returns (i: nat)
    requires k in order
    ensures i < |order| && order[i] == k
  {
    i :| 0 <= i < |order| && order[i] == k;
  }

  lemma PromoteKeeps(order: seq<string>, k: string)
    requires Distinct(order) && k in order
    ensures Distinct(Promote(order, k)) && |Promote(order, k)| == |order|
    ensures forall j :: j in Promote(order, k) <==> j in order
  {
    hide Remove;
    var i := IndexOf(order, k);
    RemoveAt(order, k, i);
    forall j ensures j in Promote(order, k) <==> j in order {
      assert order == order[..i] + [k] + order[i + 1..];
    }
  }

  lemma GetConsistent(c: Lru, k: string, max: int)
    requires Consistent(c, max)
    ensures Consistent(Lookup(c, k).0, max)
    ensures Lookup(c, k).0.entries == c.entries
  {
    if k in c.entries {
      PromoteKeeps(c.order, k);
    }
  }

  lemma PutConsistent(c: Lru, k: string, e: Entry, max: int)
    requires Consistent(c, max)
    ensures Consistent(Store(c, k, e, max), max)
    ensures forall j <- Store(c, k, e, max).entries ::
              Store(c, k, e, max).entries[j] == if j == k then e else c.entries[j]
  {
    if k in c.entries {
      PromoteKeeps(c.order, k);
    }
  }

  // ---------------------------------------------------------------------
  // Eviction over whole runs

  datatype Op = OpGet(key: string) | OpPut(key: string, entry: Entry)

  function Apply(c: Lru, op: Op, max: int): Lru {
    match op
    case OpGet(k) => Lookup(c, k).0
    case OpPut(k, e) => Store(c, k, e, max)
  }

  function Run(c: Lru, ops: seq<Op>, max: int): Lru
    decreases |ops|
  {
    if ops == [] then c else Run(Apply(c, ops[0], max), ops[1..], max)
  }

  /** The distinct keys a run uses: those it writes and those it finds. */
  function Used(c: Lru, ops: seq<Op>, max: int): set<string>
    decreases |ops|
  {
    if ops == [] then {} else
    var op := ops[0];
    (if op.OpPut? || op.key in c.entries then {op.key} else {}) + Used(Apply(c, op, max), ops[1..], max)
  }

  /** k stands right behind the keys in `used`, and they alone are ahead of it. */
  ghost predicate Behind(order: seq<string>, k: string, used: set<string>) {
    && |used| < |order| && order[|used|] == k
    && forall x :: x in order[..|used|] <==> x in used
  }

  /** Since its last use, k has been overtaken by exactly the keys in `used`; it is gone once
      they fill the cache. */
  ghost predicate Overtaken(c: Lru, k: string, used: set<string>, max: int) {
    && k !in used
    && (k in c.order ==> Behind(c.order, k, used))
    && (k !in c.order ==> |used| >= max)
  }

  lemma PromoteAhead(order: seq<string>, k: string, used: set<string>, j: string, i: nat)
    requires Distinct(order) && Behind(order, k, used)
    requires i < |used| && order[i] == j
    ensures Behind(Promote(order, j), k, used + {j})
  {
    hide Remove, Promote, Distinct;
    var n, order' := |used|, Promote(order, j);
    PromoteIs(order, j, i);
    assert j in order[..n];
    assert used + {j} == used;
    var a, b := order[..i], order[i + 1..n];
    assert order'[..n] == [j] + a + b;
    assert order[..n] == a + [j] + b;
    assert forall x :: x in order'[..n] <==> x == j || x in a || x in b;
    assert forall x :: x in order[..n] <==> x == j || x in a || x in b;
  }

  lemma PromoteFromBehind(order: seq<string>, k: string, used: set<string>, j: string, i: nat)
    requires Distinct(order) && Behind(order, k, used)
    requires |used| < i < |order| && order[i] == j
    ensures Behind(Promote(order, j), k, used + {j})
  {
    hide Remove, Promote;
    var n, order' := |used|, Promote(order, j);
    PromoteIs(order, j, i);
    assert j !in order[..n];
    assert order'[..n + 1] == [j] + order[..n];
  }

  lemma PromoteOvertakes(order: seq<string>, k: string, used: set<string>, j: string)
    requires Distinct(order) && j in order && j != k && Behind(order, k, used)
    ensures Behind(Promote(order, j), k, used + {j})
  {
    hide Promote, Distinct;
    var i := IndexOf(order, j);
    if i < |used| {
      PromoteAhead(order, k, used, j, i);
    } else {
      PromoteFromBehind(order, k, used, j, i);
    }
  }

  lemma PushOvertakes(order: seq<string>, k: string, used: set<string>, j: string, max: int)
    requires max > 0 && Distinct(order) && |order| <= max && j !in order && Behind(order, k, used)
    ensures |used + {j}| == |used| + 1
    ensures k in Trim([j] + order, max) ==> Behind(Trim([j] + order, max), k, used + {j})
    ensures k !in Trim([j] + order, max) ==> |used| + 1 >= max
  {
    var n := |used|;
    assert j !in order[..n];
    assert ([j] + order)[..n + 1] == [j] + order[..n];
    var order' := Trim([j] + order, max);
    if n + 1 < max {
      assert order'[n + 1] == k;
      assert order'[..n + 1] == [j] + order[..n];
    } else {
      assert order' == [j] + order[..n];
      assert k == order[n] && k !in order[..n];
    }
  }

  lemma PromoteIs(order: seq<string>, k: string, i: nat)
    requires Distinct(order) && i < |order| && order[i] == k
    ensures Promote(order, k) == [k] + order[..i] + order[i + 1..]
  {
    RemoveAt(order, k, i);
  }

  lemma OvertakenStep(c: Lru, k: string, used: set<string>, op: Op, max: int)
    requires max > 0 && Consistent(c, max) && Overtaken(c, k, used, max) && op.key != k
    ensures var used' := used + if op.OpPut? || op.key in c.entries then {op.key} else {};
            Overtaken(Apply(c, op, max), k, used', max)
  {
    hide Promote, Trim, Behind, Distinct;
    var j := op.key;
    GrowsTo(used, j);
    if j in c.entries {
      PromoteKeeps(c.order, j);
      if k in c.order {
        PromoteOvertakes(c.order, k, used, j);
      }
    } else if op.OpPut? {
      if k in c.order {
        PushOvertakes(c.order, k, used, j, max);
      } else {
        TrimElements([j] + c.order, max, k);
      }
    } else {
      assert used + {} == used;
    }
  }

  lemma TrimElements(order: seq<string>, max: int, k: string)
    ensures k in Trim(order, max) ==> k in order
  {
  }

  lemma GrowsTo(used: set<string>, j: string)
    ensures |used| <= |used + {j}|
  {
    if j in used {
      assert used + {j} == used;
    }
  }

  lemma {:induction false} OvertakenRun(c: Lru, k: string, used: set<string>, ops: seq<Op>, max: int)
    requires max > 0 && Consistent(c, max) && Overtaken(c, k, used, max)
    requires forall op <- ops :: op.key != k
    ensures Overtaken(Run(c, ops, max), k, used + Used(c, ops, max), max)
    ensures Consistent(Run(c, ops, max), max)
    ensures k in Run(c, ops, max).entries ==> k in c.entries && Run(c, ops, max).entries[k] == c.entries[k]
    decreases |ops|
  {
    hide Overtaken, Lookup, Store;
    if ops == [] {
      assert used + {} == used;
    } else {
      var op := ops[0];
      OvertakenStep(c, k, used, op, max);
      ApplyKeeps(c, op, k, max);
      var used' := used + if op.OpPut? || op.key in c.entries then {op.key} else {};
      var c' := Apply(c, op, max);
      OvertakenRun(c', k, used', ops[1..], max);
      assert used + Used(c, ops, max) == used' + Used(c', ops[1..], max);
    }
  }

  lemma ApplyKeeps(c: Lru, op: Op, k: string, max: int)
    requires Consistent(c, max) && op.key != k
    ensures Consistent(Apply(c, op, max), max)
    ensures k in Apply(c, op, max).entries ==> k in c.entries && Apply(c, op, max).entries[k] == c.entries[k]
  {
    match op
    case OpGet(j) => GetConsistent(c, j, max);
    case OpPut(j, e) => PutConsistent(c, j, e, max);
  }

  /** A use of k, by writing it or by finding it, leaves it the most recent, with the entry
      written or found. */
  lemma UseLeads(c: Lru, use: Op, max: int)
    requires max > 0 && Consistent(c, max) && (use.OpGet? ==> use.key in c.entries)
    ensures var c0 := Apply(c, use, max);
            && Consistent(c0, max) && c0.order != [] && c0.order[0] == use.key && use.key in c0.entries
            && c0.entries[use.key] == if use.OpPut? then use.entry else c.entries[use.key]
  {
    match use
    case OpGet(k) => GetConsistent(c, k, max);
    case OpPut(k, e) => PutConsistent(c, k, e, max);
  }

  /** Exact survival: after a use of a key, by a put or by a get that finds it, a run that does not
      touch it still finds it, with the same entry, if and only if it used fewer than maxEntries
      other keys. */
  lemma Survival(c: Lru, use: Op, ops: seq<Op>, max: int)
    requires max > 0 && Consistent(c, max) && (use.OpGet? ==> use.key in c.entries)
    requires forall op <- ops :: op.key != use.key
    ensures var c0 := Apply(c, use, max);
            var e := if use.OpPut? then use.entry else c.entries[use.key];
            Lookup(Run(c0, ops, max), use.key).1 == if |Used(c0, ops, max)| < max then Some(e) else None
  {
    hide Run, Used, Remove, Apply;
    var c0, k := Apply(c, use, max), use.key;
    UseLeads(c, use, max);
    assert Overtaken(c0, k, {}, max) by { assert c0.order[..0] == []; }
    OvertakenRun(c0, k, {}, ops, max);
    var end := Run(c0, ops, max);
    var used := Used(c0, ops, max);
    assert {} + used == used;
  }

  // ---------------------------------------------------------------------
  // The cache as it runs: list elements shared between the list and the index

  class Item {
    const key: string
    var entry: Entry

    constructor (key: string, entry: Entry)
      ensures this.key == key && this.entry == entry
    {
      this.key := key;
      this.entry := entry;
    }
  }

  ghost function KeysOf(ll: seq<Item>): seq<string> {
    seq(|ll|, i requires 0 <= i < |ll| => ll[i].key)
  }

  /** The index is a bijection onto the list's elements. */
  ghost predicate Linked(ll: seq<Item>, items: map<string, Item>) {
    && Distinct(KeysOf(ll))
    && |items| == |ll|
    && (forall it <- ll :: it.key in items && items[it.key] == it)
    && (forall k <- items :: items[k] in ll && items[k].key == k)
  }

  class Cache {
    const maxEntries: int
    var ll: seq<Item>
    var items: map<string, Item>

    ghost predicate Valid()
      reads this
    {
      Linked(ll, items) && (|ll| <= maxEntries || ll == [])
    }

    ghost function Contents(): Lru
      requires Linked(ll, items)
      reads this, ll
    {
      Lru(KeysOf(ll), map k | k in items :: items[k].entry)
    }

    constructor (max: int)
      ensures Valid() && maxEntries == max && ll == [] && Contents() == EMPTY
    {
      maxEntries := max;
      ll := [];
      items := map[];
    }

    method MoveToFront(el: Item)
      requires Linked(ll, items) && el in ll
      modifies this`ll
      ensures Linked(ll, items) && |ll| == |old(ll)|
      ensures forall it <- ll :: it in old(ll)
      ensures KeysOf(ll) == Promote(KeysOf(old(ll)), el.key)
    {
      hide Remove, Promote, Linked, KeysOf;
      var i :| 0 <= i < |ll| && ll[i] == el;
      Moved(ll, items, i);
      ll := [el] + ll[..i] + ll[i + 1..];
    }

    method Get(hash: string) returns (r: Option<Entry>)
      requires Valid()
      modifies this`ll
      ensures Valid() && forall it <- ll :: it in old(ll)
      ensures (Contents(), r) == Lookup(old(Contents()), hash)
    {
      hide Promote, Distinct;
      if hash !in items {
        return None;
      }
      var el := items[hash];
      MoveToFront(el);
      r := Some(el.entry);
      assert Contents().entries == old(Contents()).entries;
    }

    method Put(hash: string, e: Entry)
      requires Valid()
      modifies this, ll
      ensures Valid() && forall it <- ll :: it in old(ll) || fresh(it)
      ensures Contents() == Store(old(Contents()), hash, e, maxEntries)
    {
      if hash in items {
        Overwrite(hash, e);
      } else {
        var el := new Item(hash, e);
        ghost var before := Contents();
        Push(el);
        Evict(before, hash, e);
      }
    }

    method Overwrite(hash: string, e: Entry)
      requires Valid() && hash in items
      modifies this`ll, ll
      ensures Valid() && forall it <- ll :: it in old(ll)
      ensures Contents() == Store(old(Contents()), hash, e, maxEntries)
    {
      hide Promote, Distinct, Trim;
      var el := items[hash];
      el.entry := e;
      assert forall k <- items :: k != hash ==> items[k] != el;
      MoveToFront(el);
    }

    method Push(el: Item)
      requires Linked(ll, items) && el.key !in items
      modifies this
      ensures Linked(ll, items) && ll == [el] + old(ll)
      ensures Contents() == Lru([el.key] + old(Contents()).order, old(Contents()).entries[el.key := el.entry])
    {
      assert el !in ll;
      ll := [el] + ll;
      items := items[el.key := el];
      assert KeysOf(ll) == [el.key] + KeysOf(old(ll));
    }

    /** Takes elements off the back until the index fits. */
    method DropOldest()
      requires Linked(ll, items)
      modifies this
      ensures Valid() && KeysOf(ll) == Trim(KeysOf(old(ll)), maxEntries)
      ensures forall it <- ll :: it in old(ll)
      ensures forall k <- items :: k in old(items) && items[k] == old(items)[k]
    {
      hide Linked, KeysOf;
      ghost var full := KeysOf(ll);
      LinkedSize(ll, items);
      while |items| > maxEntries
        invariant Linked(ll, items)
        invariant |items| == |ll| <= |full| && KeysOf(ll) == full[..|ll|]
        invariant |ll| == |full| || |ll| >= maxEntries
        invariant forall it <- ll :: it in old(ll)
        invariant forall k <- items :: k in old(items) && items[k] == old(items)[k]
        decreases |ll|
      {
        if ll == [] { break; }
        var oldest := ll[|ll| - 1];
        DropLast(ll, items);
        ll := ll[..|ll| - 1];
        items := items - {oldest.key};
      }
      LinkedSize(ll, items);
    }

    /** Drops least recently used elements until the index fits. */
    method Evict(ghost before: Lru, ghost hash: string, ghost e: Entry)
      requires Linked(ll, items)
      requires hash !in before.entries
      requires Contents() == Lru([hash] + before.order, before.entries[hash := e])
      modifies this
      ensures Valid() && forall it <- ll :: it in old(ll)
      ensures Contents() == Store(before, hash, e, maxEntries)
    {
      hide Promote, Linked, KeysOf, Trim, Store;
      ghost var was := Contents();
      DropOldest();
      LinkedKeys(ll, items);
      ghost var left := Contents();
      assert forall k <- left.entries :: k in was.entries && left.entries[k] == was.entries[k];
      StoreIs(before, hash, e, maxEntries, left);
    }
  }

  /** What is left of a grown cache trimmed to its keys is the stored cache. */
  lemma StoreIs(before: Lru, hash: string, e: Entry, max: int, left: Lru)
    requires hash !in before.entries && left.order == Trim([hash] + before.order, max)
    requires forall k :: k in left.entries <==> k in left.order
    requires forall k <- left.entries :: k in before.entries[hash := e] && left.entries[k] == before.entries[hash := e][k]
    ensures left == Store(before, hash, e, max)
  {
    hide Trim, Promote;
    assert left.entries == Store(before, hash, e, max).entries;
  }

  lemma LinkedSize(ll: seq<Item>, items: map<string, Item>)
    requires Linked(ll, items)
    ensures |items| == |ll| == |KeysOf(ll)|
  {
  }

  lemma LinkedKeys(ll: seq<Item>, items: map<string, Item>)
    requires Linked(ll, items)
    ensures forall k :: k in KeysOf(ll) <==> k in items
    ensures forall k <- items :: items[k] in ll
  {
    forall k ensures k in KeysOf(ll) <==> k in items {
      if k in KeysOf(ll) {
        var i :| 0 <= i < |ll| && KeysOf(ll)[i] == k;
        assert ll[i] in ll;
      }
      if k in items {
        var i :| 0 <= i < |ll| && ll[i] == items[k];
        assert KeysOf(ll)[i] == k;
      }
    }
  }

  lemma Moved(ll: seq<Item>, items: map<string, Item>, i: nat)
    requires Linked(ll, items) && i < |ll|
    ensures var ll' := [ll[i]] + ll[..i] + ll[i + 1..];
            && Linked(ll', items) && |ll'| == |ll| && (forall it <- ll' :: it in ll)
            && KeysOf(ll') == Promote(KeysOf(ll), ll[i].key)
  {
    hide Remove, Promote;
    var order, ll' := KeysOf(ll), [ll[i]] + ll[..i] + ll[i + 1..];
    PromoteIs(order, ll[i].key, i);
    assert KeysOf(ll') == [ll[i].key] + order[..i] + order[i + 1..];
    PromoteKeeps(order, ll[i].key);
    assert ll == ll[..i] + [ll[i]] + ll[i + 1..];
    assert forall it :: it in ll' <==> it in ll;
  }

  lemma DropLast(ll: seq<Item>, items: map<string, Item>)
    requires Linked(ll, items) && ll != []
    ensures var items' := items - {ll[|ll| - 1].key};
            Linked(ll[..|ll| - 1], items') && |items'| == |ll| - 1
    ensures KeysOf(ll[..|ll| - 1]) == KeysOf(ll)[..|ll| - 1]
  {
    var ll', last := ll[..|ll| - 1], ll[|ll| - 1];
    var items' := items - {last.key};
    assert KeysOf(ll') == KeysOf(ll)[..|ll| - 1];
    assert items.Keys == items'.Keys + {last.key};
    forall it <- ll' ensures it.key in items' && items'[it.key] == it {
      var i :| 0 <= i < |ll'| && ll'[i] == it;
      assert KeysOf(ll)[i] != KeysOf(ll)[|ll| - 1];
    }
    forall k <- items' ensures items'[k] in ll' && items'[k].key == k {
      assert items[k] in ll && items[k] != last;
    }
  }

  /** What the running cache keeps is exactly what the reference calls consistent. */
  lemma LinkedConsistent(ll: seq<Item>, items: map<string, Item>, entries: map<string, Entry>, max: int)
    requires Linked(ll, items) && (|ll| <= max || ll == []) && entries.Keys == items.Keys
    ensures Consistent(Lru(KeysOf(ll), entries), max)
  {
    LinkedKeys(ll, items);
    assert forall k :: k in entries <==> k in items.Keys;
  }
}
