/** Encrypting, redacting and decrypting the secrets of a graph, and what versions of a pipeline
    remember of them. The cipher is abstract: it opens what it sealed. */
module Secrets {
  import opened Prelude
  import opened Values
  import opened SecretWalk
  import opened Catalog
  import opened GraphSecrets
  import Rendering

  /** What a secret looks like outside the backend; sent back, it means "keep the stored value". */
  const SENTINEL := "__otelfleet_redacted__"

  const ENC_KEY := "$enc"

  /** The cipher: whether a key is configured, which texts decode to ciphertexts, sealing under a
      nonce, and opening. */
  datatype Crypto = Crypto(key: bool, decodes: string -> bool, seal: (nat, string) -> string, open: string -> Option<string>)

  ghost predicate Correct(c: Crypto) {
    forall n, s :: c.decodes(c.seal(n, s)) && c.open(c.seal(n, s)) == Some(s)
  }

  /** The nonce drawn for the field at each path; None when the random source fails. */
  type Draw = string -> Option<nat>

  /** An encrypted value in a stored graph. */
  predicate Marker(c: Crypto, v: Value) {
    v.Obj? && v.fields.Keys == {ENC_KEY} && v.fields[ENC_KEY].Str? && c.decodes(v.fields[ENC_KEY].s)
  }

  function NewMarker(text: string): Value {
    Obj(map[ENC_KEY := Str(text)])
  }

  // ---------------------------------------------------------------------
  // One field

  datatype Verdict = Kept(value: Value) | Problem | Fault

  function SealField(c: Crypto, draw: Draw, path: string, s: string): Verdict {
    if !c.key then Problem
    else if draw(path).None? then Fault
    else Kept(NewMarker(c.seal(draw(path).value, s)))
  }

  /** Markers and values of the wrong type pass; the sentinel copies the predecessor's marker or
      seals its legacy text; other text is sealed. */
  function EncryptField(c: Crypto, prev: map<string, Value>, draw: Draw, path: string, v: Value): Verdict {
    if Marker(c, v) || !v.Str? then Kept(v)
    else if v.s == SENTINEL then
      if path !in prev then Problem
      else if Marker(c, prev[path]) then Kept(prev[path])
      else SealField(c, draw, path, if prev[path].Str? then prev[path].s else "")
    else SealField(c, draw, path, v.s)
  }

  function Written(c: Crypto, prev: map<string, Value>, draw: Draw): Rewrite {
    (path, v) => var r := EncryptField(c, prev, draw, path, v); if r.Kept? then r.value else v
  }

  function RedactField(path: string, v: Value): Value {
    if v.Null? then v else Str(SENTINEL)
  }

  function OpenField(c: Crypto, v: Value): Option<Value> {
    if !Marker(c, v) then Some(v)
    else if !c.key then None
    else
      var text := c.open(v.fields[ENC_KEY].s);
      if text.None? then None else Some(Str(text.value))
  }

  function Opened(c: Crypto): Rewrite {
    (path, v) => var r := OpenField(c, v); if r.Some? then r.value else v
  }

  // ---------------------------------------------------------------------
  // Graphs

  datatype Outcome = Stored(graph: Graph) | Rejected(paths: set<string>) | Failed

  /** Prepares a graph for storage: a fault aborts, any issue rejects, otherwise every secret is
      written. */
  ghost function Encrypt(g: Graph, c: Crypto, prev: map<string, Value>, draw: Draw): Outcome {
    if exists e <- AllSecrets(g) :: EncryptField(c, prev, draw, e.0, e.1).Fault? then Failed else
    var paths := IssuePaths(g, c, prev, draw);
    if paths != {} then Rejected(paths) else Stored(TransformGraph(g, Written(c, prev, draw)))
  }

  /** The paths of the fields that cannot be written. */
  ghost function IssuePaths(g: Graph, c: Crypto, prev: map<string, Value>, draw: Draw): set<string> {
    set e | e in AllSecrets(g) && EncryptField(c, prev, draw, e.0, e.1).Problem? :: e.0
  }

  lemma IssuePath(g: Graph, c: Crypto, prev: map<string, Value>, draw: Draw, e: (string, Value))
    requires e in AllSecrets(g) && EncryptField(c, prev, draw, e.0, e.1).Problem?
    ensures e.0 in IssuePaths(g, c, prev, draw)
  {
    hide AllSecrets, EncryptField;
  }

  function Redact(g: Graph): Graph {
    TransformGraph(g, RedactField)
  }

  ghost function Decrypt(g: Graph, c: Crypto): Option<Graph> {
    if exists e <- AllSecrets(g) :: OpenField(c, e.1).None? then None else Some(TransformGraph(g, Opened(c)))
  }

  /** The predecessor's secrets by path. */
  ghost function Index(prev: Option<Graph>): map<string, Value> {
    if prev.None? then map[] else
    var secrets := AllSecrets(prev.value);
    map p | p in (set e | e in secrets :: e.0) :: PickAt(secrets, p)
  }

  ghost function PickAt(secrets: set<(string, Value)>, p: string): Value
    requires p in (set e | e in secrets :: e.0)
  {
    var e :| e in secrets && e.0 == p;
    e.1
  }

  ghost function PrevAt(prev: Option<Graph>, i: nat, f: Field): Option<Value> {
    if prev.None? then None else SecretAt(prev.value, i, f)
  }

  ghost function Entry(m: map<string, Value>, path: string): Option<Value> {
    if path in m then Some(m[path]) else None
  }

  /** Looking a printed path up gives the predecessor's secret at that very place. */
  lemma IndexAt(prev: Option<Graph>, i: nat, f: Field)
    ensures Entry(Index(prev), PathOf(i, f)) == PrevAt(prev, i, f)
  {
    hide AllSecrets, SecretAt, PathOf;
    if prev.Some? {
      var g, p := prev.value, PathOf(i, f);
      var secrets := AllSecrets(g);
      if p in Index(prev) {
        var x := PickAt(secrets, p);
        assert (p, x) in secrets;
        AtPath(g, i, f, x);
      }
      if SecretAt(g, i, f).Some? {
        AtPath(g, i, f, SecretAt(g, i, f).value);
        assert (p, SecretAt(g, i, f).value).0 in (set e | e in secrets :: e.0);
      }
    }
  }

  lemma IsSecret(g: Graph, i: nat, f: Field)
    requires SecretAt(g, i, f).Some?
    ensures (PathOf(i, f), SecretAt(g, i, f).value) in AllSecrets(g)
  {
    hide AllSecrets, SecretAt, PathOf;
    AtPath(g, i, f, SecretAt(g, i, f).value);
  }

  /** What a stored graph holds at each place: the written field, and nothing else changed. */
  lemma StoredAt(g: Graph, c: Crypto, prev: map<string, Value>, draw: Draw, out: Graph, i: nat, f: Field)
    requires Encrypt(g, c, prev, draw) == Stored(out)
    ensures AlikeGraphs(g, out)
    ensures SecretAt(g, i, f).None? ==> SecretAt(out, i, f).None?
    ensures SecretAt(g, i, f).Some? ==>
              var r := EncryptField(c, prev, draw, PathOf(i, f), SecretAt(g, i, f).value);
              r.Kept? && SecretAt(out, i, f) == Some(r.value)
  {
    hide AllSecrets, SecretAt, PathOf, AlikeGraphs, TransformGraph, EncryptField;
    GraphAlike(g, Written(c, prev, draw));
    GraphMapped(g, Written(c, prev, draw), i, f);
    if SecretAt(g, i, f).Some? {
      IsSecret(g, i, f);
      var e := (PathOf(i, f), SecretAt(g, i, f).value);
      assert !EncryptField(c, prev, draw, e.0, e.1).Fault?;
      if EncryptField(c, prev, draw, e.0, e.1).Problem? {
        IssuePath(g, c, prev, draw, e);
      }
    }
  }

  /** The graph is stored exactly when every secret field can be written. */
  lemma StoredExactly(g: Graph, c: Crypto, prev: map<string, Value>, draw: Draw)
    ensures Encrypt(g, c, prev, draw).Stored? <==>
            forall i, f :: SecretAt(g, i, f).Some? ==> EncryptField(c, prev, draw, PathOf(i, f), SecretAt(g, i, f).value).Kept?
  {
    hide AllSecrets, SecretAt, PathOf, TransformGraph, EncryptField;
    if Encrypt(g, c, prev, draw).Stored? {
      forall i, f | SecretAt(g, i, f).Some? ensures EncryptField(c, prev, draw, PathOf(i, f), SecretAt(g, i, f).value).Kept? {
        StoredAt(g, c, prev, draw, Encrypt(g, c, prev, draw).graph, i, f);
      }
    }
    if forall i, f :: SecretAt(g, i, f).Some? ==> EncryptField(c, prev, draw, PathOf(i, f), SecretAt(g, i, f).value).Kept? {
      forall e <- AllSecrets(g) ensures EncryptField(c, prev, draw, e.0, e.1).Kept? {
        SecretsLocated(g, e);
        var i, f :| Located(g, i, f, e);
        assert SecretAt(g, i, f).Some?;
      }
    }
  }

  /** A stored graph holds no plaintext: every secret of text type is an encrypted marker. */
  lemma StoredSealed(g: Graph, c: Crypto, prev: map<string, Value>, draw: Draw, out: Graph, i: nat, f: Field)
    requires Correct(c) && Encrypt(g, c, prev, draw) == Stored(out) && SecretAt(out, i, f).Some?
    ensures Marker(c, SecretAt(out, i, f).value) || !SecretAt(out, i, f).value.Str?
  {
    hide AllSecrets, SecretAt, PathOf, Encrypt;
    StoredAt(g, c, prev, draw, out, i, f);
  }

  // ---------------------------------------------------------------------
  // Redaction

  lemma RedactAt(g: Graph, i: nat, f: Field)
    ensures AlikeGraphs(g, Redact(g))
    ensures SecretAt(Redact(g), i, f) == Mapped(SecretAt(g, i, f), PathOf(i, f), RedactField)
  {
    hide SecretAt, PathOf, AlikeGraphs, TransformGraph;
    GraphAlike(g, RedactField);
    GraphMapped(g, RedactField, i, f);
  }

  ghost predicate SealedOrNull(g: Graph, c: Crypto) {
    forall i, f :: SecretAt(g, i, f).Some? ==> Marker(c, SecretAt(g, i, f).value) || SecretAt(g, i, f).value.Null?
  }

  /** One field's round trip. */
  lemma FieldRoundTrip(g: Graph, c: Crypto, draw: Draw, i: nat, f: Field)
    requires Correct(c) && SecretAt(g, i, f).Some?
    ensures SecretAt(Redact(g), i, f).Some?
    ensures EncryptField(c, Index(Some(g)), draw, PathOf(i, f), SecretAt(Redact(g), i, f).value) == Kept(SecretAt(g, i, f).value)
            <==> Marker(c, SecretAt(g, i, f).value) || SecretAt(g, i, f).value.Null?
  {
    hide SecretAt, PathOf, Redact, Index, AlikeGraphs;
    RedactAt(g, i, f);
    IndexAt(Some(g), i, f);
    var v := SecretAt(g, i, f).value;
    if draw(PathOf(i, f)).Some? {
      var n := draw(PathOf(i, f)).value;
      forall s ensures Marker(c, NewMarker(c.seal(n, s))) {
        assert c.decodes(c.seal(n, s));
      }
    }
  }

  /** Submitting the redacted graph against the stored one reproduces it exactly when its secrets
      are markers or null. */
  lemma RedactRoundTrip(g: Graph, c: Crypto, draw: Draw)
    requires Correct(c)
    ensures Encrypt(Redact(g), c, Index(Some(g)), draw) == Stored(g) <==> SealedOrNull(g, c)
  {
    hide SecretAt, PathOf, Redact, Index, AlikeGraphs, Encrypt, EncryptField, Marker, Correct;
    var prev := Index(Some(g));
    if Encrypt(Redact(g), c, prev, draw) == Stored(g) {
      forall i, f | SecretAt(g, i, f).Some? ensures Marker(c, SecretAt(g, i, f).value) || SecretAt(g, i, f).value.Null? {
        FieldRoundTrip(g, c, draw, i, f);
        StoredAt(Redact(g), c, prev, draw, g, i, f);
      }
    }
    if SealedOrNull(g, c) {
      forall i, f | SecretAt(Redact(g), i, f).Some?
        ensures EncryptField(c, prev, draw, PathOf(i, f), SecretAt(Redact(g), i, f).value).Kept?
      {
        RedactAt(g, i, f);
        FieldRoundTrip(g, c, draw, i, f);
      }
      StoredExactly(Redact(g), c, prev, draw);
      var out := Encrypt(Redact(g), c, prev, draw).graph;
      forall i, f ensures SecretAt(out, i, f) == SecretAt(g, i, f) {
        RedactAt(g, i, f);
        StoredAt(Redact(g), c, prev, draw, out, i, f);
        if SecretAt(g, i, f).Some? {
          FieldRoundTrip(g, c, draw, i, f);
        }
      }
      RedactAt(g, 0, Password);
      StoredAt(Redact(g), c, prev, draw, out, 0, Password);
      AlikeGraphsTransitive(g, Redact(g), out);
      GraphsEqual(g, out);
    }
  }

  ghost predicate SameNulls(a: Graph, b: Graph) {
    forall i, f :: SecretAt(a, i, f).Some? && SecretAt(b, i, f).Some? ==> (SecretAt(a, i, f).value.Null? <==> SecretAt(b, i, f).value.Null?)
  }

  /** Redaction forgets exactly the non-null secret values. */
  lemma RedactSame(a: Graph, b: Graph)
    ensures Redact(a) == Redact(b) <==> AlikeGraphs(a, b) && SameNulls(a, b)
  {
    hide SecretAt, PathOf, Redact, AlikeGraphs;
    RedactAt(a, 0, Password);
    RedactAt(b, 0, Password);
    AlikeGraphsSymmetric(b, Redact(b));
    AlikeGraphsSymmetric(a, Redact(a));
    if Redact(a) == Redact(b) {
      AlikeGraphsTransitive(a, Redact(a), b);
      forall i, f | SecretAt(a, i, f).Some? && SecretAt(b, i, f).Some?
        ensures SecretAt(a, i, f).value.Null? <==> SecretAt(b, i, f).value.Null?
      {
        RedactAt(a, i, f);
        RedactAt(b, i, f);
      }
    }
    if AlikeGraphs(a, b) && SameNulls(a, b) {
      AlikeGraphsTransitive(Redact(a), a, b);
      AlikeGraphsTransitive(Redact(a), b, Redact(b));
      forall i, f ensures SecretAt(Redact(a), i, f) == SecretAt(Redact(b), i, f) {
        RedactAt(a, i, f);
        RedactAt(b, i, f);
        SamePlaces(a, b, i, f);
      }
      GraphsEqual(Redact(a), Redact(b));
    }
  }

  /** Redaction leaves a graph alone exactly when its secrets are null or redacted already. */
  lemma RedactFixed(g: Graph)
    ensures Redact(g) == g <==> forall i, f :: SecretAt(g, i, f).Some? ==>
              SecretAt(g, i, f).value.Null? || SecretAt(g, i, f).value == Str(SENTINEL)
  {
    hide SecretAt, PathOf, Redact, AlikeGraphs;
    if Redact(g) == g {
      forall i, f | SecretAt(g, i, f).Some? ensures SecretAt(g, i, f).value.Null? || SecretAt(g, i, f).value == Str(SENTINEL) {
        RedactAt(g, i, f);
      }
    }
    if forall i, f :: SecretAt(g, i, f).Some? ==> SecretAt(g, i, f).value.Null? || SecretAt(g, i, f).value == Str(SENTINEL) {
      forall i, f ensures SecretAt(g, i, f) == SecretAt(Redact(g), i, f) {
        RedactAt(g, i, f);
      }
      RedactAt(g, 0, Password);
      GraphsEqual(g, Redact(g));
    }
  }

  lemma RedactIdempotent(g: Graph)
    ensures Redact(Redact(g)) == Redact(g)
  {
    hide SecretAt, PathOf, Redact, AlikeGraphs;
    forall i, f | SecretAt(Redact(g), i, f).Some?
      ensures SecretAt(Redact(g), i, f).value.Null? || SecretAt(Redact(g), i, f).value == Str(SENTINEL)
    {
      RedactAt(g, i, f);
    }
    RedactFixed(Redact(g));
  }

  /** A version is served as the redaction of what was submitted, whatever its predecessor. */
  lemma ServedAsSubmitted(g: Graph, c: Crypto, prev: Option<Graph>, draw: Draw, out: Graph)
    requires Encrypt(g, c, Index(prev), draw) == Stored(out)
    ensures Redact(out) == Redact(g)
  {
    hide SecretAt, PathOf, Redact, AlikeGraphs, Encrypt, Index;
    StoredAt(g, c, Index(prev), draw, out, 0, Password);
    forall i, f | SecretAt(g, i, f).Some? && SecretAt(out, i, f).Some?
      ensures SecretAt(g, i, f).value.Null? <==> SecretAt(out, i, f).value.Null?
    {
      StoredAt(g, c, Index(prev), draw, out, i, f);
    }
    RedactSame(g, out);
  }

  /** The persisted fragment does not depend on non-null secret values. */
  lemma FragmentIndependent(customer: string, client: string, pipeline: string, a: Graph, b: Graph)
    requires AlikeGraphs(a, b) && SameNulls(a, b)
    ensures Rendering.Fragment(Rendering.RenderPipeline(customer, client, pipeline, Redact(a))) ==
            Rendering.Fragment(Rendering.RenderPipeline(customer, client, pipeline, Redact(b)))
    ensures Rendering.EdgeFragment(Rendering.RenderPipeline(customer, client, pipeline, Redact(a))) ==
            Rendering.EdgeFragment(Rendering.RenderPipeline(customer, client, pipeline, Redact(b)))
  {
    hide SecretAt, Redact, AlikeGraphs, SameNulls, Rendering.Fragment, Rendering.EdgeFragment;
    RedactSame(a, b);
  }

  // ---------------------------------------------------------------------
  // Decryption and history

  lemma DecryptAt(g: Graph, c: Crypto, plain: Graph, i: nat, f: Field)
    requires Decrypt(g, c) == Some(plain)
    ensures AlikeGraphs(g, plain)
    ensures SecretAt(g, i, f).None? ==> SecretAt(plain, i, f).None?
    ensures SecretAt(g, i, f).Some? ==>
              OpenField(c, SecretAt(g, i, f).value).Some? && SecretAt(plain, i, f) == OpenField(c, SecretAt(g, i, f).value)
  {
    hide AllSecrets, SecretAt, PathOf, AlikeGraphs, TransformGraph, OpenField;
    GraphAlike(g, Opened(c));
    GraphMapped(g, Opened(c), i, f);
    if SecretAt(g, i, f).Some? {
      IsSecret(g, i, f);
    }
  }

  lemma DecryptsExactly(g: Graph, c: Crypto)
    ensures Decrypt(g, c).Some? <==> forall i, f :: SecretAt(g, i, f).Some? ==> OpenField(c, SecretAt(g, i, f).value).Some?
  {
    hide AllSecrets, SecretAt, PathOf, TransformGraph, OpenField;
    if Decrypt(g, c).Some? {
      forall i, f | SecretAt(g, i, f).Some? ensures OpenField(c, SecretAt(g, i, f).value).Some? {
        IsSecret(g, i, f);
      }
    }
    if forall i, f :: SecretAt(g, i, f).Some? ==> OpenField(c, SecretAt(g, i, f).value).Some? {
      forall e <- AllSecrets(g) ensures OpenField(c, e.1).Some? {
        SecretsLocated(g, e);
        var i, f :| Located(g, i, f, e);
        assert SecretAt(g, i, f).Some?;
      }
    }
  }

  /** What a submitted secret stands for, given what the predecessor's stood for. */
  function Resolve(c: Crypto, submitted: Option<Value>, before: Option<Value>): Option<Value> {
    if submitted.None? then None
    else if submitted.value == Str(SENTINEL) then
      if before.Some? && before.value.Str? then before else Some(Str(""))
    else OpenField(c, submitted.value)
  }

  lemma SealMeaning(c: Crypto, draw: Draw, path: string, s: string)
    requires Correct(c) && SealField(c, draw, path, s).Kept?
    ensures OpenField(c, SealField(c, draw, path, s).value) == Some(Str(s))
  {
    var n := draw(path).value;
    assert c.decodes(c.seal(n, s)) && c.open(c.seal(n, s)) == Some(s);
  }

  lemma FieldMeaning(c: Crypto, prev: map<string, Value>, draw: Draw, path: string, v: Value, before: Option<Value>)
    requires Correct(c) && EncryptField(c, prev, draw, path, v).Kept?
    requires path in prev ==> OpenField(c, prev[path]).Some? && before == OpenField(c, prev[path])
    requires c.key || !Marker(c, v)
    ensures v == Str(SENTINEL) ==> path in prev
    ensures OpenField(c, EncryptField(c, prev, draw, path, v).value) == Resolve(c, Some(v), before)
  {
    hide SealField, Correct;
    if v == Str(SENTINEL) && path in prev && !Marker(c, prev[path]) {
      SealMeaning(c, draw, path, if prev[path].Str? then prev[path].s else "");
    } else if v.Str? && v.s != SENTINEL {
      SealMeaning(c, draw, path, v.s);
    }
  }
}
