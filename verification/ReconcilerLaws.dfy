/** Export and apply reach a fixed point: an export plans no change where it came from, and a
    successful apply leaves nothing to do. */
module ReconcilerLaws {
  import opened Prelude
  import opened Secrets
  import opened Reconciler
  import Slugs
  import Sorting
  import Text

  // ---------------------------------------------------------------------
  // Server states

  ghost predicate PipesOk(pipes: seq<Pipe>) {
    && (forall j, k :: 0 <= j < k < |pipes| ==> pipes[j].name != pipes[k].name)
    && (forall j :: 0 <= j < |pipes| && pipes[j].active.Some? ==> 1 <= pipes[j].active.value <= |pipes[j].versions|)
  }

  /** Slugs are unique and not empty, pipeline names unique per customer, active versions exist. */
  ghost predicate WellFormed(st: Server) {
    && (forall i, j :: 0 <= i < j < |st| ==> st[i].slug != st[j].slug)
    && (forall i :: 0 <= i < |st| ==> st[i].slug != "" && PipesOk(st[i].pipes))
  }

  ghost predicate PipeAt(pipes: seq<Pipe>, ps: PipeSpec, j: int) {
    0 <= j < |pipes| && pipes[j].name == ps.name && CurrentGraph(pipes[j]).Some? && Explicit(CurrentGraph(pipes[j]).value) == ps.graph
  }

  ghost predicate PipeSettled(pipes: seq<Pipe>, ps: PipeSpec) {
    exists j :: PipeAt(pipes, ps, j)
  }

  ghost predicate SettledAt(st: Server, cs: CustomerSpec, i: int) {
    && 0 <= i < |st| && !st[i].deleted && st[i].slug == cs.slug
    && st[i].name == cs.name && st[i].rate == cs.rate && st[i].retention == cs.retention
    && forall k :: 0 <= k < |cs.pipes| ==> PipeSettled(st[i].pipes, cs.pipes[k])
  }

  /** The server already is what the spec of this customer says. */
  ghost predicate Settled(st: Server, cs: CustomerSpec) {
    exists i :: SettledAt(st, cs, i)
  }

  // ---------------------------------------------------------------------
  // A settled spec plans nothing

  lemma PipeUnchanged(pipes: seq<Pipe>, at: Progress, i: nat, slug: string, ps: PipeSpec, dry: bool, env: Env)
    requires PipesOk(pipes) && PipeSettled(pipes, ps)
    ensures ApplyPipe(pipes, at, i, slug, ps, dry, env) == at
  {
    hide CreatePipeline, CreateVersion, ActivateVersion;
    var j :| PipeAt(pipes, ps, j);
    assert PipeByName(pipes, ps.name) == Some(j);
  }

  lemma {:induction false} PipesUnchanged(pipes: seq<Pipe>, at: Progress, i: nat, slug: string, specs: seq<PipeSpec>, dry: bool, env: Env)
    requires PipesOk(pipes) && forall k :: 0 <= k < |specs| ==> PipeSettled(pipes, specs[k])
    ensures ApplyPipes(pipes, at, i, slug, specs, dry, env) == at
  {
    hide ApplyPipe, PipesOk, PipeSettled;
    if specs != [] {
      PipesUnchanged(pipes, at, i, slug, specs[..|specs| - 1], dry, env);
      PipeUnchanged(pipes, at, i, slug, specs[|specs| - 1], dry, env);
    }
  }

  lemma CustomerUnchanged(st: Server, cs: CustomerSpec, plan: seq<Change>, dry: bool, env: Env)
    requires WellFormed(st) && Settled(st, cs)
    ensures ApplyCustomer(st, Running(st, plan), cs, dry, env) == Running(st, plan)
  {
    hide ApplyPipes, PipesOk, PipeSettled, CreateCustomer, UpdateCustomer, BySlug, ByName;
    var i :| SettledAt(st, cs, i);
    assert BySlug(st, cs.slug) == Some(i);
    assert plan + [] == plan;
    PipesUnchanged(st[i].pipes, Running(st, plan), i, st[i].slug, cs.pipes, dry, env);
  }

  /** A spec that the server already satisfies plans no change, dry or not. */
  lemma {:induction false} SettledPlansNothing(st: Server, spec: Spec, dry: bool, env: Env)
    requires WellFormed(st) && forall k :: 0 <= k < |spec| ==> Settled(st, spec[k])
    ensures Apply(st, spec, dry, env) == Running(st, [])
  {
    hide ApplyCustomer, WellFormed, Settled;
    if spec != [] {
      SettledPlansNothing(st, spec[..|spec| - 1], dry, env);
      CustomerUnchanged(st, spec[|spec| - 1], [], dry, env);
    }
  }

  // ---------------------------------------------------------------------
  // Exports are settled

  lemma {:induction false} ExportPipesSettled(pipes: seq<Pipe>, all: seq<Pipe>, k: nat)
    requires k < |ExportPipes(pipes)| && |pipes| <= |all| && forall j :: 0 <= j < |pipes| ==> all[j] == pipes[j]
    ensures PipeSettled(all, ExportPipes(pipes)[k])
    decreases |pipes|
  {
    hide CurrentGraph;
    var init, last := pipes[..|pipes| - 1], |pipes| - 1;
    if k < |ExportPipes(init)| {
      ExportPipesSettled(init, all, k);
    } else {
      assert PipeAt(all, ExportPipes(pipes)[k], last);
    }
  }

  lemma {:induction false} ExportOf(cs: seq<Customer>, k: nat)
    requires k < |ExportAll(cs)|
    ensures exists c <- cs :: !c.deleted && ExportAll(cs)[k] == ExportCustomer(c)
    decreases |cs|
  {
    hide ExportCustomer;
    var init, last := cs[..|cs| - 1], cs[|cs| - 1];
    assert cs == init + [last];
    if k < |ExportAll(init)| {
      ExportOf(init, k);
    }
  }

  /** Applying an export to the state it came from plans no change. */
  lemma ExportPlansNothing(st: Server, dry: bool, env: Env)
    requires WellFormed(st)
    ensures Apply(st, Export(st), dry, env) == Running(st, [])
  {
    hide Apply, WellFormed, ExportAll, ExportPipes, PipeSettled, Sorting.Sort;
    var spec := Export(st);
    forall k | 0 <= k < |spec| ensures Settled(st, spec[k]) {
      ExportOf(Sorting.Sort(st, SlugLe), k);
      var c :| c in Sorting.Sort(st, SlugLe) && !c.deleted && spec[k] == ExportCustomer(c);
      Sorting.SortElements(st, c, SlugLe);
      var i :| 0 <= i < |st| && st[i] == c;
      forall j | 0 <= j < |spec[k].pipes| ensures PipeSettled(st[i].pipes, spec[k].pipes[j]) {
        ExportPipesSettled(c.pipes, c.pipes, j);
      }
      assert SettledAt(st, spec[k], i);
    }
    SettledPlansNothing(st, spec, dry, env);
  }

  // ---------------------------------------------------------------------
  // What applying one pipeline spec does

  /** A pipeline spec the server stores as written. */
  ghost predicate GoodPipe(ps: PipeSpec) {
    Text.TrimSpace(ps.name) == ps.name && Explicit(Given(ps.graph)) == ps.graph && Redact(Given(ps.graph)) == Given(ps.graph)
  }

  /** Only pipelines of this name may differ, and the others stay where they are. */
  ghost predicate OthersKept(before: seq<Pipe>, after: seq<Pipe>, name: string) {
    && |before| <= |after|
    && (forall j :: 0 <= j < |before| ==> after[j].name == before[j].name && (before[j].name != name ==> after[j] == before[j]))
    && (forall j :: |before| <= j < |after| ==> after[j].name == name)
  }

  /** The listed pipeline of a name is still the current one. */
  ghost predicate Current(listed: seq<Pipe>, pipes: seq<Pipe>, name: string) {
    && PipeByName(listed, name) == PipeByName(pipes, name)
    && (PipeByName(listed, name).Some? ==> listed[PipeByName(listed, name).value] == pipes[PipeByName(pipes, name).value])
  }

  /** The customer at i may have other pipelines now; nothing else differs. */
  ghost predicate OnlyPipes(before: Server, after: Server, i: nat) {
    && |before| == |after| && i < |before|
    && (forall k :: 0 <= k < |before| && k != i ==> after[k] == before[k])
    && after[i] == before[i].(pipes := after[i].pipes)
  }

  lemma AddedPipe(pipes: seq<Pipe>, ps: PipeSpec, target: string)
    requires PipesOk(pipes) && !PipeTaken(pipes, ps.name) && GoodPipe(ps)
    ensures var after := pipes + [Pipe(ps.name, target, [Redact(Given(ps.graph))], Some(1))];
            PipesOk(after) && PipeSettled(after, ps) && OthersKept(pipes, after, ps.name)
  {
    hide Redact, Slugs.Derive, Text.TrimSpace;
    var after := pipes + [Pipe(ps.name, target, [Redact(Given(ps.graph))], Some(1))];
    assert PipeAt(after, ps, |pipes|);
  }

  lemma ChangedPipe(pipes: seq<Pipe>, ps: PipeSpec, j: nat)
    requires PipesOk(pipes) && j < |pipes| && pipes[j].name == ps.name && GoodPipe(ps)
    ensures var p := pipes[j];
            var after := pipes[j := p.(versions := p.versions + [Redact(Given(ps.graph))], active := Some(|p.versions| + 1))];
            PipesOk(after) && PipeSettled(after, ps) && OthersKept(pipes, after, ps.name)
  {
    hide Redact, Text.TrimSpace;
    var p := pipes[j];
    var after := pipes[j := p.(versions := p.versions + [Redact(Given(ps.graph))], active := Some(|p.versions| + 1))];
    assert PipeAt(after, ps, j);
  }

  /** Applying a good pipeline spec settles it and keeps the others. */
  ghost predicate PipeDone(st: Server, st': Server, i: nat, ps: PipeSpec) {
    && OnlyPipes(st, st', i) && WellFormed(st')
    && PipeSettled(st'[i].pipes, ps) && OthersKept(st[i].pipes, st'[i].pipes, ps.name)
  }

  lemma PutPipes(st: Server, i: nat, pipes: seq<Pipe>)
    requires WellFormed(st) && i < |st| && PipesOk(pipes)
    ensures WellFormed(st[i := st[i].(pipes := pipes)]) && OnlyPipes(st, st[i := st[i].(pipes := pipes)], i)
  {
    hide PipesOk;
  }

  lemma CreatedPipe(st: Server, i: nat, ps: PipeSpec, env: Env, created: Server, activated: Server)
    requires WellFormed(st) && i < |st| && GoodPipe(ps)
    requires CreatePipeline(st, i, ps.name, DefaultTarget(ps.target), Given(ps.graph), env) == Some(created)
    requires i < |created| && created[i].pipes != [] && ActivateVersion(created, i, |created[i].pipes| - 1, 1) == Some(activated)
    ensures PipeDone(st, activated, i, ps)
  {
    hide Redact, PipesOk, PipeSettled, OthersKept, Text.TrimSpace, UsableName, PipeTaken;
    var target := DefaultTarget(ps.target);
    AddedPipe(st[i].pipes, ps, target);
    var added := st[i].pipes + [Pipe(ps.name, target, [Redact(Given(ps.graph))], Some(1))];
    PutPipes(st, i, added);
    assert created[i].pipes[|created[i].pipes| - 1 := created[i].pipes[|created[i].pipes| - 1].(active := Some(1))] == added;
    assert activated == st[i := st[i].(pipes := added)];
  }

  lemma CreatedVersion(st: Server, i: nat, j: nat, ps: PipeSpec, env: Env, created: Server, activated: Server)
    requires WellFormed(st) && i < |st| && j < |st[i].pipes| && st[i].pipes[j].name == ps.name && GoodPipe(ps)
    requires CreateVersion(st, i, j, Given(ps.graph), env) == Some(created)
    requires i < |created| && j < |created[i].pipes| && ActivateVersion(created, i, j, |created[i].pipes[j].versions|) == Some(activated)
    ensures PipeDone(st, activated, i, ps)
  {
    hide Redact, PipesOk, PipeSettled, OthersKept, GoodPipe;
    ChangedPipe(st[i].pipes, ps, j);
    var p := st[i].pipes[j];
    var changed := st[i].pipes[j := p.(versions := p.versions + [Redact(Given(ps.graph))], active := Some(|p.versions| + 1))];
    PutPipes(st, i, changed);
    assert activated[i].pipes == changed;
    assert activated == st[i := st[i].(pipes := changed)];
  }

  lemma SamePipes(st: Server, i: nat, ps: PipeSpec)
    requires WellFormed(st) && i < |st| && PipeSettled(st[i].pipes, ps)
    ensures PipeDone(st, st, i, ps)
  {
    hide PipesOk, PipeSettled;
  }

  lemma PipeApplied(listed: seq<Pipe>, st: Server, plan: seq<Change>, i: nat, slug: string, ps: PipeSpec, env: Env)
    requires WellFormed(st) && i < |st| && GoodPipe(ps) && Current(listed, st[i].pipes, ps.name)
    ensures var r := ApplyPipe(listed, Running(st, plan), i, slug, ps, false, env);
            r.Running? ==> PipeDone(st, r.server, i, ps)
  {
    hide CreatePipeline, CreateVersion, ActivateVersion, WellFormed, GoodPipe, PipeDone, PipeByName, CurrentGraph, CurrentVersion;
    var r := ApplyPipe(listed, Running(st, plan), i, slug, ps, false, env);
    if r.Running? {
      var found := PipeByName(listed, ps.name);
      if found.None? {
        var created := CreatePipeline(st, i, ps.name, DefaultTarget(ps.target), Given(ps.graph), env);
        var activated := ActivateVersion(created.value, i, |created.value[i].pipes| - 1, 1);
        CreatedPipe(st, i, ps, env, created.value, activated.value);
      } else {
        var j := found.value;
        var current := CurrentGraph(listed[j]);
        if current.Some? && Explicit(current.value) == ps.graph {
          assert PipeAt(st[i].pipes, ps, j);
          SamePipes(st, i, ps);
        } else {
          var created := CreateVersion(st, i, j, Given(ps.graph), env);
          var activated := ActivateVersion(created.value, i, j, |created.value[i].pipes[j].versions|);
          CreatedVersion(st, i, j, ps, env, created.value, activated.value);
        }
      }
    }
  }

  // ---------------------------------------------------------------------
  // All pipelines of a customer

  lemma {:induction false} LookupKept(before: seq<Pipe>, after: seq<Pipe>, name: string, other: string)
    requires OthersKept(before, after, name) && other != name && PipesOk(before) && PipesOk(after)
    ensures PipeByName(before, other) == PipeByName(after, other)
    ensures PipeByName(before, other).Some? ==> before[PipeByName(before, other).value] == after[PipeByName(after, other).value]
  {
    var a, b := PipeByName(before, other), PipeByName(after, other);
    if a.Some? {
      assert after[a.value].name == other;
    }
    if b.Some? {
      assert b.value < |before| && before[b.value].name == other;
    }
  }

  lemma SettledKept(before: seq<Pipe>, after: seq<Pipe>, name: string, ps: PipeSpec)
    requires OthersKept(before, after, name) && ps.name != name && PipeSettled(before, ps)
    ensures PipeSettled(after, ps)
  {
    hide CurrentGraph;
    var j :| PipeAt(before, ps, j);
    assert PipeAt(after, ps, j);
  }

  ghost predicate GoodPipes(specs: seq<PipeSpec>) {
    && (forall k :: 0 <= k < |specs| ==> GoodPipe(specs[k]))
    && (forall j, k :: 0 <= j < k < |specs| ==> specs[j].name != specs[k].name)
  }

  /** After applying some pipeline specs of a customer: they are settled, and every other name
      still looks up as it was listed. */
  ghost predicate PipesDone(listed: seq<Pipe>, st: Server, st': Server, i: nat, specs: seq<PipeSpec>) {
    && OnlyPipes(st, st', i) && WellFormed(st')
    && (forall k :: 0 <= k < |specs| ==> PipeSettled(st'[i].pipes, specs[k]))
    && (forall name :: (forall k :: 0 <= k < |specs| ==> specs[k].name != name) ==> Current(listed, st'[i].pipes, name))
  }

  lemma {:induction false} PipesApplied(listed: seq<Pipe>, st: Server, plan: seq<Change>, i: nat, slug: string,
                                        specs: seq<PipeSpec>, env: Env)
    requires WellFormed(st) && i < |st| && listed == st[i].pipes && GoodPipes(specs)
    ensures var r := ApplyPipes(listed, Running(st, plan), i, slug, specs, false, env);
            r.Running? ==> PipesDone(listed, st, r.server, i, specs)
  {
    hide ApplyPipe, WellFormed, GoodPipe, PipeSettled, PipeByName, OthersKept, PipesDone;
    if specs == [] {
      NonePipesDone(listed, st, i);
    } else {
      var init, last := specs[..|specs| - 1], specs[|specs| - 1];
      PipesApplied(listed, st, plan, i, slug, init, env);
      var mid := ApplyPipes(listed, Running(st, plan), i, slug, init, false, env);
      PipeHalted(listed, i, slug, last, false, env);
      if mid.Running? {
        LookupLast(listed, st, mid.server, i, specs);
        PipeApplied(listed, mid.server, mid.plan, i, slug, last, env);
        var r := ApplyPipe(listed, mid, i, slug, last, false, env);
        if r.Running? {
          PipesStep(listed, st, mid.server, r.server, i, specs);
        }
      }
    }
  }

  lemma PipeHalted(listed: seq<Pipe>, i: nat, slug: string, ps: PipeSpec, dry: bool, env: Env)
    ensures ApplyPipe(listed, Halted, i, slug, ps, dry, env) == Halted
  {
  }

  lemma CustomerHalted(listed: Server, cs: CustomerSpec, dry: bool, env: Env)
    ensures ApplyCustomer(listed, Halted, cs, dry, env) == Halted
  {
  }

  lemma LookupLast(listed: seq<Pipe>, st: Server, mid: Server, i: nat, specs: seq<PipeSpec>)
    requires specs != [] && GoodPipes(specs) && PipesDone(listed, st, mid, i, specs[..|specs| - 1])
    ensures WellFormed(mid) && i < |mid| && GoodPipe(specs[|specs| - 1]) && Current(listed, mid[i].pipes, specs[|specs| - 1].name)
  {
    hide WellFormed, GoodPipe, PipeSettled, Current, OnlyPipes;
    OnlyPipesRange(st, mid, i);
  }

  lemma OnlyPipesRange(st: Server, mid: Server, i: nat)
    requires OnlyPipes(st, mid, i)
    ensures i < |mid|
  {
  }

  lemma NonePipesDone(listed: seq<Pipe>, st: Server, i: nat)
    requires WellFormed(st) && i < |st| && listed == st[i].pipes
    ensures PipesDone(listed, st, st, i, [])
  {
    hide PipeSettled;
  }

  lemma OnlyPipesStep(a: Server, b: Server, c: Server, i: nat)
    requires OnlyPipes(a, b, i) && OnlyPipes(b, c, i)
    ensures OnlyPipes(a, c, i)
  {
  }

  lemma PipesStep(listed: seq<Pipe>, st: Server, mid: Server, st': Server, i: nat, specs: seq<PipeSpec>)
    requires specs != [] && GoodPipes(specs)
    requires PipesDone(listed, st, mid, i, specs[..|specs| - 1]) && PipeDone(mid, st', i, specs[|specs| - 1])
    ensures PipesDone(listed, st, st', i, specs)
  {
    hide PipeSettled, PipeByName, OthersKept, GoodPipe, OnlyPipes, WellFormed;
    var init, last := specs[..|specs| - 1], specs[|specs| - 1];
    OnlyPipesStep(st, mid, st', i);
    OnlyPipesRange(mid, st', i);
    OnlyPipesRange(st, mid, i);
    forall k | 0 <= k < |specs| ensures PipeSettled(st'[i].pipes, specs[k]) {
      if k < |init| {
        assert init[k] == specs[k];
        SettledKept(mid[i].pipes, st'[i].pipes, last.name, specs[k]);
      }
    }
    forall name | forall k :: 0 <= k < |specs| ==> specs[k].name != name ensures Current(listed, st'[i].pipes, name) {
      assert forall k :: 0 <= k < |init| ==> init[k].name == specs[k].name;
      assert Current(listed, mid[i].pipes, name);
      WellFormedPipes(mid, i);
      WellFormedPipes(st', i);
      assert last == specs[|specs| - 1];
      LookupKept(mid[i].pipes, st'[i].pipes, last.name, name);
    }
  }

  lemma WellFormedPipes(st: Server, i: nat)
    requires WellFormed(st) && i < |st|
    ensures PipesOk(st[i].pipes)
  {
    hide PipesOk;
  }

  // ---------------------------------------------------------------------
  // One customer

  ghost predicate GoodCustomer(cs: CustomerSpec) {
    cs.slug != "" && Text.TrimSpace(cs.name) == cs.name && GoodPipes(cs.pipes)
  }

  /** Only the customer with this slug may differ; it may be new. */
  ghost predicate OnlySlug(before: Server, after: Server, slug: string) {
    && |before| <= |after|
    && (forall k :: 0 <= k < |before| ==> after[k].slug == before[k].slug && (before[k].slug != slug ==> after[k] == before[k]))
    && (forall k :: |before| <= k < |after| ==> after[k].slug == slug)
  }

  ghost predicate CustomerDone(st: Server, st': Server, cs: CustomerSpec) {
    WellFormed(st') && OnlySlug(st, st', cs.slug) && Settled(st', cs)
  }

  lemma UpdatedCustomer(st: Server, i: nat, cs: CustomerSpec)
    requires WellFormed(st) && i < |st| && GoodCustomer(cs) && st[i].slug == cs.slug && !st[i].deleted
    ensures var u := Differences(st[i], cs);
            var updated := if u == NOTHING then Some(st) else UpdateCustomer(st, i, u);
            updated.Some? ==>
              && WellFormed(updated.value) && OnlySlug(st, updated.value, cs.slug) && i < |updated.value|
              && updated.value[i].(pipes := []) == Customer(cs.slug, cs.name, false, cs.rate, cs.retention, [])
              && updated.value[i].pipes == st[i].pipes
  {
    hide PipesOk, GoodPipes, Text.TrimSpace, UsableUpdate;
  }

  lemma Reconciled(st: Server, plan: seq<Change>, i: nat, cs: CustomerSpec, env: Env)
    requires WellFormed(st) && i < |st| && GoodCustomer(cs) && st[i].slug == cs.slug && !st[i].deleted
    ensures var r := Reconcile(Running(st, plan), i, st[i], cs, false, env);
            r.Running? ==> CustomerDone(st, r.server, cs)
  {
    hide WellFormed, PipesDone, ApplyPipes, UpdateCustomer, Differences, GoodPipes, OnlySlug, Settled, Text.TrimSpace;
    var r := Reconcile(Running(st, plan), i, st[i], cs, false, env);
    if r.Running? {
      UpdatedCustomer(st, i, cs);
      var u := Differences(st[i], cs);
      var mid := if u == NOTHING then st else UpdateCustomer(st, i, u).value;
      var plan' := plan + if u == NOTHING then [] else [ChangeCustomer(cs.slug, u)];
      PipesApplied(mid[i].pipes, mid, plan', i, st[i].slug, cs.pipes, env);
      assert PipesDone(mid[i].pipes, mid, r.server, i, cs.pipes);
      PipesSettle(st, mid, r.server, i, cs);
    }
  }

  lemma PipesSettle(st: Server, mid: Server, st': Server, i: nat, cs: CustomerSpec)
    requires i < |mid| && PipesDone(mid[i].pipes, mid, st', i, cs.pipes) && OnlySlug(st, mid, cs.slug)
    requires mid[i].(pipes := []) == Customer(cs.slug, cs.name, false, cs.rate, cs.retention, [])
    ensures CustomerDone(st, st', cs)
  {
    hide WellFormed, PipeSettled, Current;
    assert SettledAt(st', cs, i);
  }

  /** For this slug, the listing is still current. */
  ghost predicate Synced(listed: Server, st: Server, slug: string) {
    && |listed| <= |st|
    && (forall k :: 0 <= k < |listed| ==> listed[k].slug == st[k].slug && (listed[k].slug == slug ==> st[k] == listed[k]))
    && (forall k :: |listed| <= k < |st| ==> st[k].slug != slug)
  }

  lemma CustomerApplied(listed: Server, st: Server, plan: seq<Change>, cs: CustomerSpec, env: Env)
    requires WellFormed(st) && Synced(listed, st, cs.slug) && GoodCustomer(cs)
    ensures var r := ApplyCustomer(listed, Running(st, plan), cs, false, env);
            r.Running? ==> CustomerDone(st, r.server, cs)
  {
    hide WellFormed, CustomerDone, Reconcile, CreateCustomer, BySlug, ByName, GoodPipes, Text.TrimSpace;
    var found := Match(listed, cs);
    if found.Some? {
      Reconciled(st, plan, found.value, cs, env);
    } else {
      var created := CreateCustomer(st, cs.name, cs.slug, env);
      if created.Some? && created.value != [] {
        var i, plan' := |created.value| - 1, plan + [AddCustomer(cs.name)];
        CustomerCreated(st, cs, env, created.value);
        Reconciled(created.value, plan', i, cs, env);
        var r := Reconcile(Running(created.value, plan'), i, created.value[i], cs, false, env);
        if r.Running? {
          DoneAfterCreate(st, created.value, r.server, cs);
        }
      }
    }
  }

  lemma CustomerCreated(st: Server, cs: CustomerSpec, env: Env, created: Server)
    requires WellFormed(st) && GoodCustomer(cs) && CreateCustomer(st, cs.name, cs.slug, env) == Some(created)
    ensures WellFormed(created) && |created| == |st| + 1 && OnlySlug(st, created, cs.slug)
    ensures created[|st|].slug == cs.slug && !created[|st|].deleted
  {
    hide GoodPipes, Text.TrimSpace, UsableName;
  }

  lemma DoneAfterCreate(st: Server, created: Server, st': Server, cs: CustomerSpec)
    requires OnlySlug(st, created, cs.slug) && CustomerDone(created, st', cs)
    ensures CustomerDone(st, st', cs)
  {
    hide WellFormed, Settled;
  }

  // ---------------------------------------------------------------------
  // A whole spec

  /** Distinct non-empty slugs, distinct trimmed pipeline names, explicit lists, no secret text. */
  ghost predicate GoodSpec(spec: Spec) {
    && (forall k :: 0 <= k < |spec| ==> GoodCustomer(spec[k]))
    && (forall j, k :: 0 <= j < k < |spec| ==> spec[j].slug != spec[k].slug)
  }

  lemma StaysSettled(st: Server, st': Server, slug: string, cs: CustomerSpec)
    requires OnlySlug(st, st', slug) && cs.slug != slug && Settled(st, cs)
    ensures Settled(st', cs)
  {
    hide PipeSettled;
    var i :| SettledAt(st, cs, i);
    assert SettledAt(st', cs, i);
  }

  lemma StaysSynced(listed: Server, st: Server, st': Server, slug: string, other: string)
    requires Synced(listed, st, other) && OnlySlug(st, st', slug) && other != slug
    ensures Synced(listed, st', other)
  {
  }

  ghost predicate SpecDone(listed: Server, st: Server, spec: Spec) {
    && WellFormed(st)
    && (forall k :: 0 <= k < |spec| ==> Settled(st, spec[k]))
    && (forall slug :: (forall k :: 0 <= k < |spec| ==> spec[k].slug != slug) ==> Synced(listed, st, slug))
  }

  lemma SpecStep(listed: Server, st: Server, st': Server, spec: Spec)
    requires spec != [] && GoodSpec(spec) && SpecDone(listed, st, spec[..|spec| - 1]) && CustomerDone(st, st', spec[|spec| - 1])
    ensures SpecDone(listed, st', spec)
  {
    hide WellFormed, Settled, Synced, OnlySlug, GoodCustomer;
    var init, last := spec[..|spec| - 1], spec[|spec| - 1];
    forall k | 0 <= k < |spec| ensures Settled(st', spec[k]) {
      if k < |init| {
        assert init[k] == spec[k];
        StaysSettled(st, st', last.slug, spec[k]);
      }
    }
    forall slug | forall k :: 0 <= k < |spec| ==> spec[k].slug != slug ensures Synced(listed, st', slug) {
      assert forall k :: 0 <= k < |init| ==> init[k].slug == spec[k].slug;
      assert last == spec[|spec| - 1];
      StaysSynced(listed, st, st', last.slug, slug);
    }
  }

  lemma LastSynced(listed: Server, st: Server, spec: Spec)
    requires spec != [] && GoodSpec(spec) && SpecDone(listed, st, spec[..|spec| - 1])
    ensures WellFormed(st) && Synced(listed, st, spec[|spec| - 1].slug) && GoodCustomer(spec[|spec| - 1])
  {
    hide WellFormed, Settled, Synced, GoodCustomer;
  }

  lemma {:induction false} SpecApplied(st: Server, spec: Spec, env: Env)
    requires WellFormed(st) && GoodSpec(spec)
    ensures var r := ApplyAll(st, spec, false, env); r.Running? ==> SpecDone(st, r.server, spec)
  {
    hide WellFormed, ApplyCustomer, SpecDone, GoodCustomer;
    if spec == [] {
      EmptyDone(st);
    } else {
      var init, last := spec[..|spec| - 1], spec[|spec| - 1];
      SpecApplied(st, init, env);
      var mid := ApplyAll(st, init, false, env);
      CustomerHalted(st, last, false, env);
      if mid.Running? {
        LastSynced(st, mid.server, spec);
        CustomerApplied(st, mid.server, mid.plan, last, env);
        var r := ApplyCustomer(st, mid, last, false, env);
        if r.Running? {
          SpecStep(st, mid.server, r.server, spec);
        }
      }
    }
  }

  lemma EmptyDone(st: Server)
    requires WellFormed(st)
    ensures SpecDone(st, st, [])
  {
  }

  /** After a successful apply of a good spec, a second apply plans nothing, dry or not. */
  lemma SecondApplyPlansNothing(st: Server, spec: Spec, env: Env, env': Env, dry: bool)
    requires WellFormed(st) && GoodSpec(spec) && Apply(st, spec, false, env).Running?
    ensures var st' := Apply(st, spec, false, env).server; Apply(st', spec, dry, env') == Running(st', [])
  {
    hide WellFormed, GoodSpec, Settled, ApplyAll;
    SpecApplied(st, spec, env);
    SettledPlansNothing(Apply(st, spec, false, env).server, spec, dry, env');
  }
}
