/** Exactly which specs a successful apply settles: those with trimmed names, explicit lists and
    no secret text in clear. */
module ReconcilerExact {
  import opened Prelude
  import opened Values
  import opened Secrets
  import opened Reconciler
  import opened ReconcilerLaws
  import Text

  // ---------------------------------------------------------------------
  // What servers hold

  ghost predicate PipeServed(p: Pipe) {
    Text.TrimSpace(p.name) == p.name && forall v :: 0 <= v < |p.versions| ==> Redact(p.versions[v]) == p.versions[v]
  }

  ghost predicate CustomerServed(c: Customer) {
    Text.TrimSpace(c.name) == c.name && forall j :: 0 <= j < |c.pipes| ==> PipeServed(c.pipes[j])
  }

  /** Names are trimmed and graphs are redacted. */
  ghost predicate Served(st: Server) {
    forall i :: 0 <= i < |st| ==> CustomerServed(st[i])
  }

  lemma TrimTwice(s: string)
    ensures Text.TrimSpace(Text.TrimSpace(s)) == Text.TrimSpace(s)
  {
    hide Text.TrimSpace, Text.Trimmed;
    Text.TrimSpaceIs(s);
    Text.TrimSpaceIs(Text.TrimSpace(s));
  }

  lemma PutServed(st: Server, i: nat, j: nat, p: Pipe)
    requires Served(st) && i < |st| && j < |st[i].pipes| && PipeServed(p)
    ensures Served(st[i := st[i].(pipes := st[i].pipes[j := p])])
  {
    hide PipeServed, Text.TrimSpace;
    var st' := st[i := st[i].(pipes := st[i].pipes[j := p])];
    assert CustomerServed(st[i]);
    assert CustomerServed(st'[i]);
  }

  lemma CustomerKeepsServed(st: Server, name: string, slug: string, env: Env)
    requires Served(st)
    ensures CreateCustomer(st, name, slug, env).Some? ==> Served(CreateCustomer(st, name, slug, env).value)
  {
    hide Text.TrimSpace, SlugTaken, UsableName, PipeServed;
    TrimTwice(name);
  }

  lemma UpdateKeepsServed(st: Server, i: nat, u: Update)
    requires Served(st)
    ensures UpdateCustomer(st, i, u).Some? ==> Served(UpdateCustomer(st, i, u).value)
  {
    hide Text.TrimSpace, UsableUpdate, PipeServed;
    if u.name.Some? {
      TrimTwice(u.name.value);
    }
    if i < |st| {
      assert CustomerServed(st[i]);
    }
  }

  lemma PipelineKeepsServed(st: Server, i: nat, name: string, target: string, g: Graph, env: Env)
    requires Served(st)
    ensures CreatePipeline(st, i, name, target, g, env).Some? ==> Served(CreatePipeline(st, i, name, target, g, env).value)
  {
    hide Text.TrimSpace, UsableName, PipeTaken, Redact;
    TrimTwice(name);
    RedactIdempotent(g);
    if i < |st| {
      assert CustomerServed(st[i]);
    }
  }

  lemma VersionKeepsServed(st: Server, i: nat, j: nat, g: Graph, env: Env)
    requires Served(st)
    ensures CreateVersion(st, i, j, g, env).Some? ==> Served(CreateVersion(st, i, j, g, env).value)
  {
    hide Text.TrimSpace, Redact;
    RedactIdempotent(g);
    if i < |st| && j < |st[i].pipes| {
      assert CustomerServed(st[i]) && PipeServed(st[i].pipes[j]);
      var p := st[i].pipes[j];
      PutServed(st, i, j, p.(versions := p.versions + [Redact(g)]));
    }
  }

  lemma ActivateKeepsServed(st: Server, i: nat, j: nat, version: nat)
    requires Served(st)
    ensures ActivateVersion(st, i, j, version).Some? ==> Served(ActivateVersion(st, i, j, version).value)
  {
    hide Text.TrimSpace, Redact;
    if i < |st| && j < |st[i].pipes| {
      assert CustomerServed(st[i]) && PipeServed(st[i].pipes[j]);
      PutServed(st, i, j, st[i].pipes[j].(active := Some(version)));
    }
  }

  lemma PipeKeepsServed(listed: seq<Pipe>, st: Server, plan: seq<Change>, i: nat, slug: string, ps: PipeSpec, dry: bool, env: Env)
    requires Served(st)
    ensures var r := ApplyPipe(listed, Running(st, plan), i, slug, ps, dry, env); r.Running? ==> Served(r.server)
  {
    hide Served, CreatePipeline, CreateVersion, ActivateVersion, CurrentGraph, CurrentVersion, PipeByName;
    var created := CreatePipeline(st, i, ps.name, DefaultTarget(ps.target), Given(ps.graph), env);
    PipelineKeepsServed(st, i, ps.name, DefaultTarget(ps.target), Given(ps.graph), env);
    if created.Some? && i < |created.value| && created.value[i].pipes != [] {
      ActivateKeepsServed(created.value, i, |created.value[i].pipes| - 1, 1);
    }
    var found := PipeByName(listed, ps.name);
    if found.Some? {
      var versioned := CreateVersion(st, i, found.value, Given(ps.graph), env);
      VersionKeepsServed(st, i, found.value, Given(ps.graph), env);
      if versioned.Some? && i < |versioned.value| && found.value < |versioned.value[i].pipes| {
        ActivateKeepsServed(versioned.value, i, found.value, |versioned.value[i].pipes[found.value].versions|);
      }
    }
  }

  lemma {:induction false} PipesKeepServed(listed: seq<Pipe>, st: Server, plan: seq<Change>, i: nat, slug: string,
          specs: seq<PipeSpec>, dry: bool, env: Env)
    requires Served(st)
    ensures var r := ApplyPipes(listed, Running(st, plan), i, slug, specs, dry, env); r.Running? ==> Served(r.server)
  {
    hide Served, ApplyPipe;
    if specs != [] {
      var init, last := specs[..|specs| - 1], specs[|specs| - 1];
      PipesKeepServed(listed, st, plan, i, slug, init, dry, env);
      var mid := ApplyPipes(listed, Running(st, plan), i, slug, init, dry, env);
      PipeHalted(listed, i, slug, last, dry, env);
      if mid.Running? {
        PipeKeepsServed(listed, mid.server, mid.plan, i, slug, last, dry, env);
      }
    }
  }

  lemma ReconcileKeepsServed(st: Server, plan: seq<Change>, i: nat, c: Customer, cs: CustomerSpec, dry: bool, env: Env)
    requires Served(st)
    ensures var r := Reconcile(Running(st, plan), i, c, cs, dry, env); r.Running? ==> Served(r.server)
  {
    hide Served, ApplyPipes, UpdateCustomer;
    var u := Differences(c, cs);
    UpdateKeepsServed(st, i, u);
    var updated := if u == NOTHING || dry then Some(st) else UpdateCustomer(st, i, u);
    if updated.Some? && i < |updated.value| {
      PipesKeepServed(updated.value[i].pipes, updated.value, plan + if u == NOTHING then [] else [ChangeCustomer(cs.slug, u)],
                      i, c.slug, cs.pipes, dry, env);
    }
  }

  lemma ApplyKeepsServed(listed: Server, st: Server, plan: seq<Change>, cs: CustomerSpec, dry: bool, env: Env)
    requires Served(st)
    ensures var r := ApplyCustomer(listed, Running(st, plan), cs, dry, env); r.Running? ==> Served(r.server)
  {
    hide Served, Reconcile, CreateCustomer, Match;
    var found := Match(listed, cs);
    if found.Some? {
      MatchRange(listed, cs);
      ReconcileKeepsServed(st, plan, found.value, listed[found.value], cs, dry, env);
    } else {
      CustomerKeepsServed(st, cs.name, cs.slug, env);
      var created := CreateCustomer(st, cs.name, cs.slug, env);
      if created.Some? && created.value != [] {
        var i := |created.value| - 1;
        ReconcileKeepsServed(created.value, plan + [AddCustomer(cs.name)], i, created.value[i], cs, dry, env);
      }
    }
  }

  lemma MatchRange(listed: Server, cs: CustomerSpec)
    ensures Match(listed, cs).Some? ==> Match(listed, cs).value < |listed|
  {
  }

  lemma {:induction false} SpecKeepsServed(st: Server, spec: Spec, dry: bool, env: Env)
    requires Served(st)
    ensures var r := ApplyAll(st, spec, dry, env); r.Running? ==> Served(r.server)
  {
    hide Served, ApplyCustomer;
    if spec != [] {
      var init, last := spec[..|spec| - 1], spec[|spec| - 1];
      SpecKeepsServed(st, init, dry, env);
      var mid := ApplyAll(st, init, dry, env);
      CustomerHalted(st, last, dry, env);
      if mid.Running? {
        ApplyKeepsServed(st, mid.server, mid.plan, last, dry, env);
      }
    }
  }

  // ---------------------------------------------------------------------
  // An empty dry plan means settled

  ghost predicate Extends(at: Progress, r: Progress) {
    at.Running? && (r.Running? ==> r.server == at.server && |at.plan| <= |r.plan|)
  }

  lemma DryPipe(listed: seq<Pipe>, at: Progress, i: nat, slug: string, ps: PipeSpec, env: Env)
    requires at.Running?
    ensures var r := ApplyPipe(listed, at, i, slug, ps, true, env);
            Extends(at, r) && (r.Running? && |r.plan| == |at.plan| ==> r == at && PipeSettled(listed, ps))
  {
    hide CreatePipeline, CreateVersion, ActivateVersion, CurrentVersion, CurrentGraph;
    var r := ApplyPipe(listed, at, i, slug, ps, true, env);
    var found := PipeByName(listed, ps.name);
    if r.Running? && |r.plan| == |at.plan| {
      assert PipeAt(listed, ps, found.value);
    }
  }

  lemma {:induction false} DryPipes(listed: seq<Pipe>, at: Progress, i: nat, slug: string, specs: seq<PipeSpec>, env: Env)
    requires at.Running?
    ensures var r := ApplyPipes(listed, at, i, slug, specs, true, env);
            Extends(at, r) && (r.Running? && |r.plan| == |at.plan| ==> r == at && forall k :: 0 <= k < |specs| ==>
                PipeSettled(listed, specs[k]))
  {
    hide ApplyPipe, PipeSettled;
    if specs != [] {
      var init, last := specs[..|specs| - 1], specs[|specs| - 1];
      DryPipes(listed, at, i, slug, init, env);
      var mid := ApplyPipes(listed, at, i, slug, init, true, env);
      PipeHalted(listed, i, slug, last, true, env);
      if mid.Running? {
        DryPipe(listed, mid, i, slug, last, env);
      }
    }
  }

  lemma DryCustomer(st: Server, plan: seq<Change>, cs: CustomerSpec, env: Env)
    requires cs.slug != ""
    ensures var r := ApplyCustomer(st, Running(st, plan), cs, true, env);
            Extends(Running(st, plan), r) && (r.Running? && |r.plan| == |plan| ==> r == Running(st, plan) && Settled(st, cs))
  {
    hide ApplyPipes, PipeSettled, BySlug, ByName;
    var at := Running(st, plan);
    var r := ApplyCustomer(st, at, cs, true, env);
    var found := Match(st, cs);
    if found.Some? {
      var i, c := found.value, st[found.value];
      var u := Differences(c, cs);
      var plan' := plan + if u == NOTHING then [] else [ChangeCustomer(cs.slug, u)];
      DryPipes(c.pipes, Running(st, plan'), i, c.slug, cs.pipes, env);
      if r.Running? && |r.plan| == |plan| {
        assert plan' == plan;
        assert SettledAt(st, cs, i);
      }
    }
  }

  lemma {:induction false} EmptyPlanSettled(st: Server, spec: Spec, env: Env)
    requires forall k :: 0 <= k < |spec| ==> spec[k].slug != ""
    ensures var r := ApplyAll(st, spec, true, env);
            && (r.Running? ==> r.server == st)
            && (r == Running(st, []) ==> forall k :: 0 <= k < |spec| ==> Settled(st, spec[k]))
  {
    hide ApplyCustomer, Settled;
    if spec != [] {
      var init, last := spec[..|spec| - 1], spec[|spec| - 1];
      EmptyPlanSettled(st, init, env);
      var mid := ApplyAll(st, init, true, env);
      CustomerHalted(st, last, true, env);
      if mid.Running? {
        DryCustomer(st, mid.plan, last, env);
      }
    }
  }

  // ---------------------------------------------------------------------
  // Exactness

  /** Slugs and, per customer, pipeline names are distinct; slugs are given. */
  ghost predicate DistinctSpec(spec: Spec) {
    && (forall k :: 0 <= k < |spec| ==> spec[k].slug != "" && DistinctPipes(spec[k].pipes))
    && (forall j, k :: 0 <= j < k < |spec| ==> spec[j].slug != spec[k].slug)
  }

  ghost predicate DistinctPipes(specs: seq<PipeSpec>) {
    forall j, k :: 0 <= j < k < |specs| ==> specs[j].name != specs[k].name
  }

  /** Names are trimmed, lists explicit, and every secret null or the sentinel. */
  ghost predicate Storable(cs: CustomerSpec) {
    Text.TrimSpace(cs.name) == cs.name && forall k :: 0 <= k < |cs.pipes| ==> GoodPipe(cs.pipes[k])
  }

  lemma SettledPipeStorable(pipes: seq<Pipe>, ps: PipeSpec)
    requires PipeSettled(pipes, ps) && forall j :: 0 <= j < |pipes| ==> PipeServed(pipes[j])
    ensures GoodPipe(ps)
  {
    hide Text.TrimSpace, Redact;
    var j :| PipeAt(pipes, ps, j);
    assert PipeServed(pipes[j]);
    var g := CurrentGraph(pipes[j]).value;
    assert Given(ps.graph) == g;
  }

  lemma SettledStorable(st: Server, cs: CustomerSpec)
    requires Served(st) && Settled(st, cs)
    ensures Storable(cs)
  {
    hide Text.TrimSpace, PipeServed, PipeSettled, GoodPipe;
    var i :| SettledAt(st, cs, i);
    assert CustomerServed(st[i]);
    forall k | 0 <= k < |cs.pipes| ensures GoodPipe(cs.pipes[k]) {
      SettledPipeStorable(st[i].pipes, cs.pipes[k]);
    }
  }

  lemma StorableGood(spec: Spec)
    requires DistinctSpec(spec) && forall k :: 0 <= k < |spec| ==> Storable(spec[k])
    ensures GoodSpec(spec)
  {
    hide GoodPipe, Text.TrimSpace;
    forall k | 0 <= k < |spec| ensures GoodCustomer(spec[k]) {
      assert Storable(spec[k]) && DistinctPipes(spec[k].pipes);
    }
  }

  /** After a successful apply of a spec with distinct slugs and names, a second run plans nothing
      exactly when the spec has trimmed names, explicit lists and no secret text in clear. */
  lemma SecondApplyExactly(st: Server, spec: Spec, env: Env, env': Env)
    requires WellFormed(st) && Served(st) && DistinctSpec(spec) && Apply(st, spec, false, env).Running?
    ensures var st' := Apply(st, spec, false, env).server;
            Apply(st', spec, true, env') == Running(st', []) <==> forall k :: 0 <= k < |spec| ==> Storable(spec[k])
  {
    hide WellFormed, Served, Settled, ApplyAll, Storable, GoodSpec;
    var st' := Apply(st, spec, false, env).server;
    if forall k :: 0 <= k < |spec| ==> Storable(spec[k]) {
      StorableGood(spec);
      SecondApplyPlansNothing(st, spec, env, env', true);
    }
    if Apply(st', spec, true, env') == Running(st', []) {
      SpecKeepsServed(st, spec, false, env);
      EmptyPlanSettled(st', spec, env');
      forall k | 0 <= k < |spec| ensures Storable(spec[k]) {
        SettledStorable(st', spec[k]);
      }
    }
  }
}
