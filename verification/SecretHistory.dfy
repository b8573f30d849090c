/** What a pipeline's versions remember: decrypting version n gives, at every secret, the text
    submitted there, or what version n - 1 held where the sentinel was submitted. */
module SecretHistory {
  import opened Prelude
  import opened Values
  import opened Catalog
  import opened GraphSecrets
  import opened Secrets

  /** One submission of a graph: the nonces drawn for it, and whether validation accepts the
      plaintext graph. */
  datatype Submission = Submission(graph: Graph, draw: Draw, valid: bool)

  /** The stored graph of the next version; None if nothing is persisted. */
  ghost function Accept(c: Crypto, latest: Option<Graph>, sub: Submission): Option<Graph> {
    var r := Encrypt(sub.graph, c, Index(latest), sub.draw);
    if !r.Stored? || Decrypt(r.graph, c).None? || !sub.valid then None else Some(r.graph)
  }

  ghost function Plain(c: Crypto, latest: Option<Graph>): Option<Graph> {
    if latest.None? then None else Decrypt(latest.value, c)
  }

  type Version = (Submission, Graph)

  ghost function Latest(vs: seq<Version>): Option<Graph> {
    if vs == [] then None else Some(vs[|vs| - 1].1)
  }

  /** The versions persisted by a chain of submissions, each with its submission. */
  ghost function Versions(c: Crypto, subs: seq<Submission>): seq<Version> {
    if subs == [] then [] else
    var before, last := Versions(c, subs[..|subs| - 1]), subs[|subs| - 1];
    var out := Accept(c, Latest(before), last);
    before + if out.Some? then [(last, out.value)] else []
  }

  /** What the submissions say the secret is. */
  ghost function Told(c: Crypto, vs: seq<Version>, i: nat, f: Field): Option<Value> {
    if vs == [] then None else
    Resolve(c, SecretAt(vs[|vs| - 1].0.graph, i, f), Told(c, vs[..|vs| - 1], i, f))
  }

  // ---------------------------------------------------------------------

  /** A sentinel with no stored predecessor at its place persists nothing. */
  lemma SentinelNeedsPredecessor(c: Crypto, latest: Option<Graph>, sub: Submission, i: nat, f: Field)
    requires SecretAt(sub.graph, i, f) == Some(Str(SENTINEL)) && PrevAt(latest, i, f).None?
    ensures !Encrypt(sub.graph, c, Index(latest), sub.draw).Stored? && Accept(c, latest, sub) == None
  {
    hide Encrypt, SecretAt, PathOf, Index, PrevAt;
    StoredExactly(sub.graph, c, Index(latest), sub.draw);
    IndexAt(latest, i, f);
  }

  /** One accepted submission. */
  lemma HistoryStep(c: Crypto, latest: Option<Graph>, sub: Submission, out: Graph, i: nat, f: Field)
    requires Correct(c) && Accept(c, latest, sub) == Some(out) && (latest.Some? ==> Decrypt(latest.value, c).Some?)
    ensures Decrypt(out, c).Some? && AlikeGraphs(sub.graph, Decrypt(out, c).value)
    ensures SecretAt(Decrypt(out, c).value, i, f) == Resolve(c, SecretAt(sub.graph, i, f), PrevAt(Plain(c, latest), i, f))
  {
    hide Encrypt, Decrypt, SecretAt, PathOf, Index, AlikeGraphs, OpenField, EncryptField, Resolve, Correct, Marker;
    var plain := Decrypt(out, c).value;
    var prev := Index(latest);
    StoredAt(sub.graph, c, prev, sub.draw, out, i, f);
    DecryptAt(out, c, plain, i, f);
    AlikeGraphsTransitive(sub.graph, out, plain);
    IndexAt(latest, i, f);
    var path, before := PathOf(i, f), PrevAt(Plain(c, latest), i, f);
    if latest.Some? {
      DecryptAt(latest.value, c, Decrypt(latest.value, c).value, i, f);
    }
    if SecretAt(sub.graph, i, f).Some? {
      KeyForMarkers(c, prev, sub.draw, path, SecretAt(sub.graph, i, f).value);
      FieldMeaning(c, prev, sub.draw, path, SecretAt(sub.graph, i, f).value, before);
    } else {
      NothingSubmitted(c, before);
    }
  }

  lemma NothingSubmitted(c: Crypto, before: Option<Value>)
    ensures Resolve(c, None, before) == None
  {
  }

  lemma KeyForMarkers(c: Crypto, prev: map<string, Value>, draw: Draw, path: string, v: Value)
    requires EncryptField(c, prev, draw, path, v).Kept? && OpenField(c, EncryptField(c, prev, draw, path, v).value).Some?
    ensures c.key || !Marker(c, v)
  {
  }

  ghost predicate Faithful(c: Crypto, vs: seq<Version>, n: nat)
    requires n < |vs|
  {
    var plain := Decrypt(vs[n].1, c);
    plain.Some? && AlikeGraphs(vs[n].0.graph, plain.value) && forall i, f :: SecretAt(plain.value, i, f) == Told(c, vs[..n + 1], i, f)
  }

  lemma FaithfulPrefix(c: Crypto, vs: seq<Version>, more: seq<Version>, n: nat)
    requires n < |vs| && Faithful(c, vs, n)
    ensures Faithful(c, vs + more, n)
  {
    hide Decrypt, AlikeGraphs, SecretAt;
    assert (vs + more)[..n + 1] == vs[..n + 1];
  }

  lemma FaithfulStep(c: Crypto, vs: seq<Version>, sub: Submission, out: Graph)
    requires Correct(c) && Accept(c, Latest(vs), sub) == Some(out)
    requires vs != [] ==> Faithful(c, vs, |vs| - 1)
    ensures Faithful(c, vs + [(sub, out)], |vs|)
  {
    hide Decrypt, AlikeGraphs, SecretAt, Accept, Resolve, Correct;
    var vs' := vs + [(sub, out)];
    var plain := Decrypt(out, c);
    HistoryStep(c, Latest(vs), sub, out, 0, Password);
    forall i, f ensures SecretAt(plain.value, i, f) == Told(c, vs'[..|vs| + 1], i, f) {
      HistoryStep(c, Latest(vs), sub, out, i, f);
      assert vs'[..|vs| + 1] == vs' && vs'[..|vs|] == vs;
      if vs != [] {
        assert vs[..(|vs| - 1) + 1] == vs;
        assert SecretAt(Decrypt(vs[|vs| - 1].1, c).value, i, f) == Told(c, vs[..(|vs| - 1) + 1], i, f);
      }
    }
  }

  /** Secret history: every version decrypts, differs from its submission only in secrets, and
      holds at each secret what the submissions up to it say. */
  lemma {:induction false} History(c: Crypto, subs: seq<Submission>)
    requires Correct(c)
    ensures forall n :: 0 <= n < |Versions(c, subs)| ==> Faithful(c, Versions(c, subs), n)
  {
    hide Faithful, Accept, Correct;
    if subs != [] {
      var init, last := subs[..|subs| - 1], subs[|subs| - 1];
      History(c, init);
      var before := Versions(c, init);
      var out := Accept(c, Latest(before), last);
      if out.Some? {
        var more := [(last, out.value)];
        FaithfulStep(c, before, last, out.value);
        forall n | 0 <= n < |before| ensures Faithful(c, before + more, n) {
          FaithfulPrefix(c, before, more, n);
        }
      } else {
        assert before + [] == before;
      }
    }
  }

  /** The text last submitted in clear survives any number of sentinels. */
  lemma {:induction false} LastSpoken(c: Crypto, vs: seq<Version>, i: nat, f: Field, k: nat, s: string)
    requires k < |vs| && SecretAt(vs[k].0.graph, i, f) == Some(Str(s)) && s != SENTINEL
    requires forall j :: k < j < |vs| ==> SecretAt(vs[j].0.graph, i, f) == Some(Str(SENTINEL))
    ensures Told(c, vs, i, f) == Some(Str(s))
    decreases |vs|
  {
    hide SecretAt;
    if k < |vs| - 1 {
      LastSpoken(c, vs[..|vs| - 1], i, f, k, s);
    }
  }
}
