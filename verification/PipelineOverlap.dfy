/** Pipeline calls that overlap. Creating a pipeline or a version first reads the tables, checks and
    prepares, and inserts later, in a transaction of its own; other calls may come between. */
module PipelineOverlap {
  import opened Prelude
  import opened Values
  import opened Naming
  import opened Validation
  import opened Rendering
  import opened Secrets
  import opened PipelineStore
  import opened PipelineInvariants
  import Catalog
  import GraphSecrets
  import Renderer
  import SecretWalk
  import Slugs
  import Sorting
  import Text

  // ---------------------------------------------------------------------
  // Calls in two steps

  /** What a call holds between its check and its insert; `seen` are the customer's pipelines that
      the slug check went through. */
  datatype Draft =
    | NewPipe(customer: nat, name: string, target: Class, version: Version, seen: set<nat>)
    | NewVersion(pipe: nat, version: Version)

  /** The tables, the calls under way, and the pipeline identifiers given out so far. */
  datatype Shared = Shared(st: State, drafts: map<nat, Draft>, used: set<nat>)

  datatype Move =
    | Whole(op: Op)
    | CheckCreate(call: nat, customer: nat, name: string, target: Class, graph: Graph, draw: Draw, accepted: bool)
    | CheckVersion(call: nat, pipe: nat, graph: Graph, draw: Draw, accepted: bool)
    | Insert(call: nat, id: nat)

  function PipesOf(st: State, customer: nat): set<nat> {
    set id | id in st.pipelines && st.pipelines[id].customer == customer
  }

  ghost function DraftPipe(st: State, env: Env, customer: nat, name: string, target: Class, g: Graph, draw: Draw,
                           accepted: bool): Option<Draft> {
    var name := Text.TrimSpace(name);
    if name == "" || |name| > 200 || Slug(name) == "" then None else
    if customer !in st.customers || st.customers[customer].status.Deleted? then None else
    if PipeSlugTaken(st, customer, Slug(name)) then None else
    var v := Prepare(st, env, customer, name, target, None, g, None, draw, accepted);
    if v.None? then None else Some(NewPipe(customer, name, target, v.value, PipesOf(st, customer)))
  }

  ghost function DraftVersion(st: State, env: Env, pipe: nat, g: Graph, draw: Draw, accepted: bool): Option<Draft> {
    if pipe !in st.pipelines then None else
    var p := st.pipelines[pipe];
    var v := Prepare(st, env, p.customer, p.name, p.target, Some(pipe), g, LatestGraph(p), draw, accepted);
    if v.None? then None else Some(NewVersion(pipe, v.value))
  }

  /** The table's own constraint: names are unique per customer, slugs are not. */
  predicate NameTaken(st: State, customer: nat, name: string) {
    exists id <- st.pipelines :: st.pipelines[id].customer == customer && st.pipelines[id].name == name
  }

  /** Whether the insert of a draft goes through. */
  predicate Goes(s: Shared, d: Draft, id: nat) {
    match d
    case NewPipe(customer, name, _, _, _) =>
      id !in s.used && customer in s.st.customers && !s.st.customers[customer].status.Deleted? && !NameTaken(s.st, customer, name)
    case NewVersion(pipe, _) => pipe in s.st.pipelines
  }

  function InsertDraft(s: Shared, d: Draft, id: nat): Shared
    requires Goes(s, d, id)
  {
    match d
    case NewPipe(customer, name, target, version, _) =>
      s.(st := s.st.(pipelines := s.st.pipelines[id := Pipe(customer, name, target, [version], None)]), used := s.used + {id})
    case NewVersion(pipe, version) =>
      var p := s.st.pipelines[pipe];
      s.(st := s.st.(pipelines := s.st.pipelines[pipe := p.(versions := p.versions + [version])]))
  }

  function Keep(s: Shared, call: nat, d: Option<Draft>): Shared {
    if call in s.drafts || d.None? then s else s.(drafts := s.drafts[call := d.value])
  }

  /** Calls that are one transaction. */
  predicate OneStep(op: Op) {
    !op.CreateOp? && !op.CreateVersionOp?
  }

  ghost function Do(s: Shared, env: Env, m: Move): Shared {
    match m
    case Whole(op) => if OneStep(op) then s.(st := Step(s.st, env, op)) else s
    case CheckCreate(call, customer, name, target, g, draw, accepted) =>
      Keep(s, call, DraftPipe(s.st, env, customer, name, target, g, draw, accepted))
    case CheckVersion(call, pipe, g, draw, accepted) => Keep(s, call, DraftVersion(s.st, env, pipe, g, draw, accepted))
    case Insert(call, id) =>
      if call !in s.drafts then s else
      var s1 := s.(drafts := s.drafts - {call});
      if Goes(s, s.drafts[call], id) then InsertDraft(s1, s.drafts[call], id) else s1
  }

  const NOTHING_YET := Shared(EMPTY, map[], {})

  ghost function Play(env: Env, moves: seq<Move>): Shared {
    if moves == [] then NOTHING_YET else Do(Play(env, moves[..|moves| - 1]), env, moves[|moves| - 1])
  }

  // ---------------------------------------------------------------------
  // Without overlap the two steps are the one step

  /** A creation whose insert follows its check is the step of the pipeline store. */
  lemma CreateInOne(s: Shared, env: Env, call: nat, id: nat, customer: nat, name: string, target: Class, g: Graph,
                    draw: Draw, accepted: bool)
    requires call !in s.drafts && id !in s.used && s.st.pipelines.Keys <= s.used
    ensures Do(Do(s, env, CheckCreate(call, customer, name, target, g, draw, accepted)), env, Insert(call, id)).st
            == Create(s.st, env, id, customer, name, target, g, draw, accepted)
  {
    hide Prepare, Slug, Text.TrimSpace;
  }

  lemma VersionInOne(s: Shared, env: Env, call: nat, id: nat, pipe: nat, g: Graph, draw: Draw, accepted: bool)
    requires call !in s.drafts
    ensures Do(Do(s, env, CheckVersion(call, pipe, g, draw, accepted)), env, Insert(call, id)).st
            == CreateVersion(s.st, env, pipe, g, draw, accepted)
  {
    hide Prepare, Slug;
  }

  // ---------------------------------------------------------------------
  // What every interleaving keeps

  /** The drafted version decrypts to a valid graph and its fragment has the pipeline's identity. */
  ghost predicate VersionFits(st: State, env: Env, customer: nat, name: string, target: Class, v: Version) {
    && customer in st.customers && VersionOk(env, v)
    && v.fragment == FragmentOf(target, RenderPipeline(st.customers[customer].slug, st.customers[customer].clientId,
        Slug(name), Redact(v.graph)))
  }

  ghost predicate DraftOk(s: Shared, env: Env, d: Draft) {
    match d
    case NewPipe(customer, name, target, v, seen) =>
      && VersionFits(s.st, env, customer, name, target, v) && seen <= s.used
      && (forall id <- seen :: id in s.st.pipelines && s.st.pipelines[id].customer == customer ==>
          Slug(s.st.pipelines[id].name) != Slug(name))
    case NewVersion(pipe, v) =>
      && pipe in s.used
      && (pipe in s.st.pipelines ==> var p := s.st.pipelines[pipe]; VersionFits(s.st, env, p.customer, p.name, p.target, v))
  }

  ghost predicate Sound(s: Shared, env: Env) {
    && TablesOk(s.st, env) && s.st.pipelines.Keys <= s.used
    && forall call <- s.drafts :: DraftOk(s, env, s.drafts[call])
  }

  /** Customers keep their identity and pipelines their customer, name and class; pipelines may go,
      and new ones have new identifiers. */
  ghost predicate Carried(a: Shared, b: Shared) {
    && a.used <= b.used
    && (forall c <- a.st.customers :: c in b.st.customers && b.st.customers[c].slug == a.st.customers[c].slug
                                       && b.st.customers[c].clientId == a.st.customers[c].clientId)
    && (forall id <- b.st.pipelines :: id in a.used ==>
          id in a.st.pipelines && b.st.pipelines[id].customer == a.st.pipelines[id].customer
          && b.st.pipelines[id].name == a.st.pipelines[id].name && b.st.pipelines[id].target == a.st.pipelines[id].target)
  }

  lemma DraftCarried(a: Shared, b: Shared, env: Env, d: Draft)
    requires DraftOk(a, env, d) && Carried(a, b)
    ensures DraftOk(b, env, d)
  {
    hide VersionOk, FragmentOf, Redact, Slug;
  }

  lemma DraftsCarried(a: Shared, b: Shared, env: Env)
    requires Sound(a, env) && Carried(a, b) && TablesOk(b.st, env) && b.st.pipelines.Keys <= b.used
    requires forall call <- b.drafts :: call in a.drafts && b.drafts[call] == a.drafts[call]
    ensures Sound(b, env)
  {
    hide TablesOk, Carried, DraftOk;
    forall call <- b.drafts ensures DraftOk(b, env, b.drafts[call]) {
      DraftCarried(a, b, env, a.drafts[call]);
    }
  }

  lemma WholeCarried(s: Shared, env: Env, op: Op)
    requires Sound(s, env) && OneStep(op)
    ensures var s' := s.(st := Step(s.st, env, op));
            && Carried(s, s') && TablesOk(s'.st, env) && s'.st.pipelines.Keys <= s.used
            && (SlugsApart(s.st) ==> SlugsApart(s'.st))
  {
    hide TablesOk, AddCustomer, SetStatus, DraftOk, Slug;
    match op
    case AddCustomerOp(id, name, slug, clientIds) => AddCustomerKeeps(s.st, env, id, name, slug, clientIds);
    case SetStatusOp(id, status) => SetStatusKeeps(s.st, env, id, status);
    case ActivateOp(id, version) => ActivateKeeps(s.st, env, id, version);
    case DeleteOp(id) => DeleteKeeps(s.st, env, id);
  }

  lemma WholeSound(s: Shared, env: Env, op: Op)
    requires Sound(s, env) && OneStep(op)
    ensures Sound(s.(st := Step(s.st, env, op)), env)
    ensures SlugsApart(s.st) ==> SlugsApart(Step(s.st, env, op))
  {
    hide TablesOk, Carried, DraftOk, Step, SlugsApart;
    WholeCarried(s, env, op);
    DraftsCarried(s, s.(st := Step(s.st, env, op)), env);
  }

  lemma DraftedPipe(s: Shared, env: Env, customer: nat, name: string, target: Class, g: Graph, draw: Draw, accepted: bool)
    requires s.st.pipelines.Keys <= s.used
    ensures var d := DraftPipe(s.st, env, customer, name, target, g, draw, accepted); d.Some? ==> DraftOk(s, env, d.value)
  {
    hide Prepare, VersionOk, FragmentOf, Redact, Slug, Text.TrimSpace;
    Prepared(s.st, env, customer, Text.TrimSpace(name), target, None, g, None, draw, accepted);
  }

  lemma DraftedVersion(s: Shared, env: Env, pipe: nat, g: Graph, draw: Draw, accepted: bool)
    requires s.st.pipelines.Keys <= s.used
    ensures var d := DraftVersion(s.st, env, pipe, g, draw, accepted); d.Some? ==> DraftOk(s, env, d.value)
  {
    hide Prepare, VersionOk, FragmentOf, Redact, Slug;
    if pipe in s.st.pipelines {
      var p := s.st.pipelines[pipe];
      Prepared(s.st, env, p.customer, p.name, p.target, Some(pipe), g, LatestGraph(p), draw, accepted);
    }
  }

  lemma KeepSound(s: Shared, env: Env, call: nat, d: Option<Draft>)
    requires Sound(s, env) && (d.Some? ==> DraftOk(s, env, d.value))
    ensures Sound(Keep(s, call, d), env)
  {
    hide TablesOk, DraftOk;
    var s' := Keep(s, call, d);
    forall c <- s'.drafts ensures DraftOk(s', env, s'.drafts[c]) {
      DraftElsewhere(s, s', env, s'.drafts[c]);
    }
  }

  lemma DraftElsewhere(s: Shared, s': Shared, env: Env, d: Draft)
    requires DraftOk(s, env, d) && s'.st == s.st && s'.used == s.used
    ensures DraftOk(s', env, d)
  {
    hide VersionFits, Slug;
  }

  /** An inserted pipeline meets a rival that came after the check. */
  ghost predicate Overtaken(s: Shared, m: Move) {
    m.Insert? && m.call in s.drafts && s.drafts[m.call].NewPipe? && Goes(s, s.drafts[m.call], m.id) &&
    var d := s.drafts[m.call];
    exists other <- s.st.pipelines ::
      other !in d.seen && s.st.pipelines[other].customer == d.customer && Slug(s.st.pipelines[other].name) == Slug(d.name)
  }

  lemma PipeInserted(s: Shared, env: Env, d: Draft, id: nat)
    requires Sound(s, env) && DraftOk(s, env, d) && d.NewPipe? && Goes(s, d, id)
    ensures var s' := InsertDraft(s, d, id); TablesOk(s'.st, env) && s'.st.pipelines.Keys <= s'.used && Carried(s, s')
    ensures var p := Pipe(d.customer, d.name, d.target, [d.version], None);
            SlugsApart(s.st) ==> (SlugsApart(InsertDraft(s, d, id).st) <==> !Rivalled(s.st, id, p))
  {
    hide TablesOk, VersionOk, FragmentOf, Redact, Slug, NameTaken;
    var p := Pipe(d.customer, d.name, d.target, [d.version], None);
    assert FragmentsOk(s.st, p) && PipeOk(env, p);
    PipePut(s.st, env, id, p);
    if Rivalled(s.st, id, p) {
      var b :| b in s.st.pipelines && b != id && s.st.pipelines[b].customer == p.customer && Slug(s.st.pipelines[b].name) == Slug(p.name);
      var st' := InsertDraft(s, d, id).st;
      assert b in st'.pipelines && id in st'.pipelines && st'.pipelines[b] == s.st.pipelines[b] && st'.pipelines[id] == p;
    }
  }

  lemma VersionInserted(s: Shared, env: Env, d: Draft, id: nat)
    requires Sound(s, env) && DraftOk(s, env, d) && d.NewVersion? && Goes(s, d, id)
    ensures var s' := InsertDraft(s, d, id); TablesOk(s'.st, env) && s'.st.pipelines.Keys <= s'.used && Carried(s, s')
    ensures SlugsApart(s.st) ==> SlugsApart(InsertDraft(s, d, id).st)
  {
    hide TablesOk, VersionOk, FragmentOf, Redact, Slug;
    PipeFacts(s.st, env, d.pipe);
    var p := s.st.pipelines[d.pipe];
    PipePut(s.st, env, d.pipe, p.(versions := p.versions + [d.version]));
  }

  lemma InsertSound(s: Shared, env: Env, call: nat, id: nat)
    requires Sound(s, env)
    ensures Sound(Do(s, env, Insert(call, id)), env)
    ensures SlugsApart(s.st) ==> (SlugsApart(Do(s, env, Insert(call, id)).st) <==> !Overtaken(s, Insert(call, id)))
  {
    hide TablesOk, Carried, DraftOk, InsertDraft, Goes, SlugsApart, Rivalled, Slug;
    if call in s.drafts {
      var d := s.drafts[call];
      var s1 := s.(drafts := s.drafts - {call});
      StillSound(s, s1, env);
      DraftElsewhere(s, s1, env, d);
      GoesElsewhere(s, s1, d, id);
      if Goes(s, d, id) {
        if d.NewPipe? {
          PipeInserted(s1, env, d, id);
          RivalUnseen(s, env, call, id);
        } else {
          VersionInserted(s1, env, d, id);
        }
        InsertKeeps(s1, d, id);
        DraftsCarried(s1, InsertDraft(s1, d, id), env);
      }
    }
  }

  lemma StillSound(s: Shared, s1: Shared, env: Env)
    requires Sound(s, env) && s1.st == s.st && s1.used == s.used && forall c <- s1.drafts :: c in s.drafts && s1.drafts[c] == s.drafts[c]
    ensures Sound(s1, env)
  {
    hide TablesOk, DraftOk;
    forall c <- s1.drafts ensures DraftOk(s1, env, s1.drafts[c]) {
      DraftElsewhere(s, s1, env, s1.drafts[c]);
    }
  }

  lemma GoesElsewhere(s: Shared, s1: Shared, d: Draft, id: nat)
    requires s1.st == s.st && s1.used == s.used
    ensures Goes(s1, d, id) <==> Goes(s, d, id)
  {
  }

  lemma InsertKeeps(s: Shared, d: Draft, id: nat)
    requires Goes(s, d, id)
    ensures InsertDraft(s, d, id).drafts == s.drafts
  {
  }

  /** Rivals are pipelines the check did not see. */
  lemma RivalUnseen(s: Shared, env: Env, call: nat, id: nat)
    requires Sound(s, env) && call in s.drafts && s.drafts[call].NewPipe? && Goes(s, s.drafts[call], id)
    ensures var d := s.drafts[call];
            Rivalled(s.st, id, Pipe(d.customer, d.name, d.target, [d.version], None)) <==> Overtaken(s, Insert(call, id))
  {
    hide TablesOk, VersionFits, Slug, NameTaken;
    var d := s.drafts[call];
    assert DraftOk(s, env, d);
  }

  lemma MoveSound(s: Shared, env: Env, m: Move)
    requires Sound(s, env)
    ensures Sound(Do(s, env, m), env)
    ensures SlugsApart(s.st) ==> (SlugsApart(Do(s, env, m).st) <==> !Overtaken(s, m))
  {
    hide TablesOk, DraftOk, Step, SlugsApart, DraftPipe, DraftVersion, Goes;
    match m
    case Whole(op) =>
      if OneStep(op) {
        WholeSound(s, env, op);
      }
    case CheckCreate(call, customer, name, target, g, draw, accepted) =>
      DraftedPipe(s, env, customer, name, target, g, draw, accepted);
      KeepSound(s, env, call, DraftPipe(s.st, env, customer, name, target, g, draw, accepted));
    case CheckVersion(call, pipe, g, draw, accepted) =>
      DraftedVersion(s, env, pipe, g, draw, accepted);
      KeepSound(s, env, call, DraftVersion(s.st, env, pipe, g, draw, accepted));
    case Insert(call, id) => InsertSound(s, env, call, id);
  }

  lemma StartSound(env: Env)
    ensures Sound(NOTHING_YET, env) && SlugsApart(NOTHING_YET.st)
  {
  }

  /** Over every interleaving, all but the distinctness of slugs is kept. */
  lemma {:induction false} PlaySound(env: Env, moves: seq<Move>)
    ensures Sound(Play(env, moves), env)
  {
    hide Do, Sound;
    if moves == [] {
      StartSound(env);
    } else {
      PlaySound(env, moves[..|moves| - 1]);
      MoveSound(Play(env, moves[..|moves| - 1]), env, moves[|moves| - 1]);
    }
  }

  /** Pipelines of a customer have distinct slugs all along an interleaving exactly when no insert
      is overtaken: when none meets a pipeline of the same slug that was inserted after its check. */
  lemma {:induction false} ApartExactly(env: Env, moves: seq<Move>)
    ensures (forall k :: 0 <= k <= |moves| ==> SlugsApart(Play(env, moves[..k]).st)) <==>
            (forall k :: 0 <= k < |moves| ==> !Overtaken(Play(env, moves[..k]), moves[k]))
  {
    hide Do, SlugsApart, Overtaken, Play;
    if moves == [] {
      assert moves[..0] == [];
      PlayedNothing(env);
      StartSound(env);
    } else {
      var init, last := moves[..|moves| - 1], moves[|moves| - 1];
      ApartExactly(env, init);
      assert forall k :: 0 <= k <= |init| ==> moves[..k] == init[..k];
      assert init[..|init|] == init && moves[..|moves|] == moves;
      PlaySound(env, init);
      PlayedLast(env, moves);
      MoveSound(Play(env, init), env, last);
      if forall k :: 0 <= k <= |moves| ==> SlugsApart(Play(env, moves[..k]).st) {
        assert SlugsApart(Play(env, moves[..|moves|]).st) && SlugsApart(Play(env, moves[..|init|]).st);
        assert forall k :: 0 <= k <= |init| ==> SlugsApart(Play(env, init[..k]).st);
      }
      if forall k :: 0 <= k < |moves| ==> !Overtaken(Play(env, moves[..k]), moves[k]) {
        forall k | 0 <= k < |init| ensures !Overtaken(Play(env, init[..k]), init[k]) {
          assert !Overtaken(Play(env, moves[..k]), moves[k]);
        }
        assert SlugsApart(Play(env, init[..|init|]).st);
        assert !Overtaken(Play(env, moves[..|init|]), moves[|init|]);
      }
    }
  }

  lemma PlayedNothing(env: Env)
    ensures Play(env, []) == NOTHING_YET
  {
  }

  lemma PlayedLast(env: Env, moves: seq<Move>)
    requires moves != []
    ensures Play(env, moves) == Do(Play(env, moves[..|moves| - 1]), env, moves[|moves| - 1])
  {
    hide Do;
  }

  // ---------------------------------------------------------------------
  // What an overtaken insert costs

  /** Two pipelines that would share their component IDs. */
  ghost predicate Clash(st: State, a: nat, b: nat) {
    && a != b && a in st.pipelines && b in st.pipelines && st.pipelines[a].customer == st.pipelines[b].customer
    && Slug(st.pipelines[a].name) == Slug(st.pipelines[b].name)
  }

  lemma SameKey(st: State, env: Env, target: Class, scope: Option<nat>, a: nat, b: nat)
    requires TablesOk(st, env) && Listed(st, target, scope, a) && Listed(st, target, scope, b) && a != b
    ensures Input(st, env, a).Some? && Input(st, env, b).Some?
    ensures Key(Input(st, env, a).value) == Key(Input(st, env, b).value) <==> Clash(st, a, b)
  {
    hide Input, StructurallyValid, PipeOk, FragmentsOk, Slug, Plain, PipelineKey;
    InputReadable(st, env, target, scope, a);
    InputReadable(st, env, target, scope, b);
    var p, q := Input(st, env, a).value, Input(st, env, b).value;
    if Key(p) == Key(q) {
      KeyInjective(p.customer, p.pipeline, q.customer, q.pipeline);
    }
  }

  /** Whatever overlapped before: the config of a listing renders exactly when no two of its
      pipelines clash. */
  lemma RendersExactly(env: Env, moves: seq<Move>, target: Class, scope: Option<nat>, ids: seq<nat>)
    requires Listing(Play(env, moves).st, target, scope, None, ids)
    ensures Inputs(Play(env, moves).st, env, ids).Some?
    ensures RenderedFor(target, Inputs(Play(env, moves).st, env, ids).value).Ok? <==>
            forall i, j :: 0 <= i < j < |ids| ==> !Clash(Play(env, moves).st, ids[i], ids[j])
  {
    hide Play, TablesOk, Input, Inputs, Listing, Listed, Key, Renderer.Rendered, Renderer.RenderedEdge, DraftOk, Clash;
    var st := Play(env, moves).st;
    PlaySound(env, moves);
    ListingListed(st, target, scope, None, ids);
    ListingReadable(st, env, target, scope, ids);
    var ps := Inputs(st, env, ids).value;
    Renderer.FailsExactly(ps);
    forall i, j | 0 <= i < j < |ids| ensures Keys(ps)[i] == Keys(ps)[j] <==> Clash(st, ids[i], ids[j]) {
      SameKey(st, env, target, scope, ids[i], ids[j]);
    }
    assert Sorting.Distinct(Keys(ps)) <==> forall i, j :: 0 <= i < j < |ids| ==> Keys(ps)[i] != Keys(ps)[j];
  }

  /** Where no insert is overtaken, every config renders. */
  lemma UnbrokenRenders(env: Env, moves: seq<Move>, target: Class, scope: Option<nat>, ids: seq<nat>)
    requires forall k :: 0 <= k < |moves| ==> !Overtaken(Play(env, moves[..k]), moves[k])
    requires Listing(Play(env, moves).st, target, scope, None, ids)
    ensures Inputs(Play(env, moves).st, env, ids).Some? && RenderedFor(target, Inputs(Play(env, moves).st, env, ids).value).Ok?
  {
    hide Play, Inputs, Listing, Renderer.Rendered, Renderer.RenderedEdge, Overtaken, Slug;
    ApartExactly(env, moves);
    assert moves[..|moves|] == moves;
    assert SlugsApart(Play(env, moves[..|moves|]).st);
    RendersExactly(env, moves, target, scope, ids);
  }

  // ---------------------------------------------------------------------
  // A concrete overlap

  const PLAIN_GRAPH := Graph(["traces"], [], [Node("debug", None, Obj(map[]))])

  lemma NoSecrets(i: nat, f: Catalog.Field)
    ensures Catalog.SecretAt(PLAIN_GRAPH, i, f) == None
  {
  }

  /** A graph without secrets is stored and decrypted as it is. */
  lemma StoredAsIs(c: Crypto, draw: Draw)
    ensures Encrypt(PLAIN_GRAPH, c, Index(None), draw) == Stored(PLAIN_GRAPH)
    ensures Decrypt(PLAIN_GRAPH, c) == Some(PLAIN_GRAPH)
  {
    hide GraphSecrets.AllSecrets, Catalog.SecretAt, Catalog.PathOf, GraphSecrets.TransformGraph, EncryptField, OpenField;
    forall i, f ensures Catalog.SecretAt(PLAIN_GRAPH, i, f) == None {
      NoSecrets(i, f);
    }
    StoredExactly(PLAIN_GRAPH, c, Index(None), draw);
    DecryptsExactly(PLAIN_GRAPH, c);
    RewrittenAsIs(Written(c, Index(None), draw));
    RewrittenAsIs(Opened(c));
  }

  lemma RewrittenAsIs(fn: SecretWalk.Rewrite)
    ensures GraphSecrets.TransformGraph(PLAIN_GRAPH, fn) == PLAIN_GRAPH
  {
    hide GraphSecrets.AllSecrets, Catalog.SecretAt, Catalog.PathOf, GraphSecrets.TransformGraph;
    var out := GraphSecrets.TransformGraph(PLAIN_GRAPH, fn);
    GraphSecrets.GraphAlike(PLAIN_GRAPH, fn);
    forall i, f ensures Catalog.SecretAt(out, i, f) == Catalog.SecretAt(PLAIN_GRAPH, i, f) {
      NoSecrets(i, f);
      GraphSecrets.GraphMapped(PLAIN_GRAPH, fn, i, f);
    }
    GraphSecrets.GraphsEqual(PLAIN_GRAPH, out);
  }

  lemma PlainValid(schema: Schema)
    requires schema("debug", Obj(map[]))
    ensures StructurallyValid(PLAIN_GRAPH, schema)
  {
  }

  /** On a server without pipelines the plain graph passes every check. */
  lemma PlainDrafted(st: State, env: Env, name: string, draw: Draw)
    requires 0 in st.customers && st.customers[0].status.Active? && st.pipelines == map[]
    requires env.schema("debug", Obj(map[])) && Text.TrimSpace(name) == name && 0 < |name| <= 200
    ensures var d := DraftPipe(st, env, 0, name, ForwardingClass, PLAIN_GRAPH, draw, true);
            d.Some? && d.value.NewPipe? && d.value.customer == 0 && d.value.name == name &&
                d.value.target == ForwardingClass && d.value.seen == {}
  {
    hide Encrypt, Decrypt, Index, Redact, StructurallyValid, FragmentOf, Slugs.Derive, Text.TrimSpace;
    StoredAsIs(env.crypto, draw);
    PlainValid(env.schema);
    Slugs.DeriveValid(name);
    var c := st.customers[0];
    AloneRenders(st, env, RenderPipeline(c.slug, c.clientId, Slug(name), PLAIN_GRAPH));
    assert PipesOf(st, 0) == {};
  }

  lemma SomeIn(ids: seq<nat>)
    ensures ids == [] || exists id: nat :: id in ids
  {
    if ids != [] {
      assert ids[0] in ids;
    }
  }

  lemma NoneListed(st: State, env: Env, ids: seq<nat>)
    requires st.pipelines == map[] && Listing(st, ForwardingClass, None, None, ids)
    ensures Inputs(st, env, ids) == Some([])
  {
    SomeIn(ids);
  }

  lemma AloneRenders(st: State, env: Env, candidate: RenderPipeline)
    requires st.pipelines == map[]
    ensures RendersWith(st, env, ForwardingClass, None, None, candidate)
  {
    hide Renderer.Rendered, Listing, Inputs;
    Renderer.FailsExactly([candidate]);
    forall ids | Listing(st, ForwardingClass, None, None, ids) && Inputs(st, env, ids).Some?
      ensures RenderedFor(ForwardingClass, Inputs(st, env, ids).value + [candidate]).Ok?
    {
      NoneListed(st, env, ids);
      assert [] + [candidate] == [candidate];
    }
  }

  lemma PlainSlug()
    ensures Slug("abc") == "abc" && Text.TrimSpace("abc") == "abc"
  {
    assert Slugs.LowerAll("abc") == "abc";
    assert "abc"[1..] == "bc" && "bc"[1..] == "c" && "c"[1..] == "";
    assert Slugs.Collapse("c", false) == "c" && Slugs.Collapse("bc", false) == "bc";
    assert Slugs.Collapse("abc", true) == "abc";
  }

  lemma HyphenSlug()
    ensures Slug("abc-") == "abc" && Text.TrimSpace("abc-") == "abc-"
  {
    assert Slugs.LowerAll("abc-") == "abc-";
    assert "abc-"[1..] == "bc-" && "bc-"[1..] == "c-" && "c-"[1..] == "-" && "-"[1..] == "";
    assert Slugs.Collapse("-", false) == "-" && Slugs.Collapse("c-", false) == "c-" && Slugs.Collapse("bc-", false) == "bc-";
    assert Slugs.Collapse("abc-", true) == "abc-";
    assert "abc-"[..3] == "abc";
    assert Slugs.TrimRight("abc-") == "abc";
  }

  /** Two creations under names that differ and derive one slug, checked before either inserts. */
  function TwoAtOnce(draw: Draw): seq<Move> {
    [Whole(AddCustomerOp(0, "acme", Some("acme"), ["cust_1"])),
     CheckCreate(1, 0, "abc", ForwardingClass, PLAIN_GRAPH, draw, true),
     CheckCreate(2, 0, "abc-", ForwardingClass, PLAIN_GRAPH, draw, true),
     Insert(1, 10),
     Insert(2, 20),
     Whole(ActivateOp(10, 1)),
     Whole(ActivateOp(20, 1))]
  }

  lemma PlayTo(env: Env, moves: seq<Move>, k: nat)
    requires k < |moves|
    ensures Play(env, moves[..k + 1]) == Do(Play(env, moves[..k]), env, moves[k])
  {
    hide Do, Play;
    assert moves[..k + 1][..k] == moves[..k];
    PlayedLast(env, moves[..k + 1]);
  }

  const ACME := Customer("acme", "cust_1", Active)

  lemma AcmeAdded(env: Env)
    ensures Step(EMPTY, env, AddCustomerOp(0, "acme", Some("acme"), ["cust_1"])) == State(map[0 := ACME], map[])
  {
    Text.TrimSpaceIs("acme");
    assert Claim(EMPTY, "acme", false, "acme", ["cust_1"], 1) == Some(("acme", "cust_1"));
  }

  /** Both drafts are held at once. */
  lemma BothChecked(env: Env, draw: Draw)
    requires env.schema("debug", Obj(map[]))
    ensures var s := Play(env, TwoAtOnce(draw)[..3]);
            && s.st == State(map[0 := ACME], map[]) && s.used == {} && 1 in s.drafts && 2 in s.drafts
            && s.drafts[1].NewPipe? && s.drafts[1].customer == 0 && s.drafts[1].name == "abc" && s.drafts[1].target == ForwardingClass
            && s.drafts[2].NewPipe? && s.drafts[2].customer == 0 && s.drafts[2].name == "abc-" && s.drafts[2].target == ForwardingClass
            && s.drafts[1].seen == {} && s.drafts[2].seen == {}
  {
    hide Play, Step, DraftPipe, Slug, Text.TrimSpace;
    var moves := TwoAtOnce(draw);
    PlayedNothing(env);
    assert moves[..0] == [];
    PlayTo(env, moves, 0);
    PlayTo(env, moves, 1);
    PlayTo(env, moves, 2);
    AcmeAdded(env);
    PlainSlug();
    HyphenSlug();
    PlainDrafted(State(map[0 := ACME], map[]), env, "abc", draw);
    PlainDrafted(State(map[0 := ACME], map[]), env, "abc-", draw);
  }

  /** The second insert is overtaken, and once both pipelines are active the forwarding config of
      everybody fails on their shared key. */
  lemma OverlapHappens(env: Env, draw: Draw, ids: seq<nat>)
    requires env.schema("debug", Obj(map[]))
    requires Listing(Play(env, TwoAtOnce(draw)).st, ForwardingClass, None, None, ids)
    ensures Overtaken(Play(env, TwoAtOnce(draw)[..4]), TwoAtOnce(draw)[4])
    ensures Inputs(Play(env, TwoAtOnce(draw)).st, env, ids).Some?
    ensures Renderer.Rendered(Inputs(Play(env, TwoAtOnce(draw)).st, env, ids).value).Err?
  {
    hide Play, Inputs, Input, Slug, Renderer.Rendered;
    var moves := TwoAtOnce(draw);
    BothInserted(env, draw);
    assert moves[..|moves|] == moves;
    var st := Play(env, moves).st;
    assert Listed(st, ForwardingClass, None, 10) && Listed(st, ForwardingClass, None, 20);
    RendersExactly(env, moves, ForwardingClass, None, ids);
    var i, j :| 0 <= i < |ids| && ids[i] == 10 && 0 <= j < |ids| && ids[j] == 20;
    assert Clash(st, 10, 20) && Clash(st, 20, 10);
    assert if i < j then Clash(st, ids[i], ids[j]) else Clash(st, ids[j], ids[i]);
  }

  lemma BothInserted(env: Env, draw: Draw)
    requires env.schema("debug", Obj(map[]))
    ensures Overtaken(Play(env, TwoAtOnce(draw)[..4]), TwoAtOnce(draw)[4])
    ensures var st := Play(env, TwoAtOnce(draw)[..7]).st;
            && Clash(st, 10, 20) && st.customers == map[0 := ACME]
            && st.pipelines[10].customer == 0 && st.pipelines[20].customer == 0
            && st.pipelines[10].target == st.pipelines[20].target == ForwardingClass
            && st.pipelines[10].active == st.pipelines[20].active == Some(1)
            && |st.pipelines[10].versions| == |st.pipelines[20].versions| == 1
  {
    hide Play, Slug;
    var moves := TwoAtOnce(draw);
    BothChecked(env, draw);
    PlainSlug();
    HyphenSlug();
    PlayTo(env, moves, 3);
    PlayTo(env, moves, 4);
    PlayTo(env, moves, 5);
    PlayTo(env, moves, 6);
    assert "abc" != "abc-";
    assert 10 in Play(env, moves[..4]).st.pipelines;
  }
}
