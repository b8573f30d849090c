/** The export and apply commands with their index maps and loops, proved to compute module
    Reconciler's Export and Apply. */
module ReconcilerCode {
  import opened Prelude
  import opened Reconciler
  import Sorting

  function At(index: map<string, nat>, key: string): Option<nat> {
    if key in index then Some(index[key]) else None
  }

  // ---------------------------------------------------------------------
  // Export

  method ExportPipelines(pipes: seq<Pipe>) returns (out: seq<PipeSpec>)
    ensures out == ExportPipes(pipes)
  {
    out := [];
    for j := 0 to |pipes|
      invariant out == ExportPipes(pipes[..j])
    {
      assert pipes[..j + 1][..j] == pipes[..j] && pipes[..j + 1][j] == pipes[j];
      var p := pipes[j];
      var ver := p.active;
      if ver.None? && p.versions != [] {
        ver := Some(|p.versions|);
      }
      if ver.None? || !(1 <= ver.value <= |p.versions|) {
        continue;
      }
      out := out + [PipeSpec(p.name, p.target, Explicit(p.versions[ver.value - 1]))];
    }
    assert pipes[..|pipes|] == pipes;
  }

  method ExportSpec(st: Server) returns (spec: Spec)
    ensures spec == Export(st)
  {
    hide ExportPipes, Sorting.Sort;
    var sorted := Sorting.Sort(st, SlugLe);
    spec := [];
    for k := 0 to |sorted|
      invariant spec == ExportAll(sorted[..k])
    {
      assert sorted[..k + 1][..k] == sorted[..k] && sorted[..k + 1][k] == sorted[k];
      var c := sorted[k];
      if c.deleted {
        continue;
      }
      var pipes := ExportPipelines(c.pipes);
      spec := spec + [CustomerSpec(c.name, c.slug, c.rate, c.retention, pipes)];
    }
    assert sorted[..|sorted|] == sorted;
  }

  // ---------------------------------------------------------------------
  // Index maps

  method IndexCustomers(st: Server) returns (bySlug: map<string, nat>)
    ensures forall slug :: At(bySlug, slug) == BySlug(st, slug)
  {
    bySlug := map[];
    for k := 0 to |st|
      invariant forall slug :: At(bySlug, slug) == BySlug(st[..k], slug)
    {
      assert st[..k + 1][..k] == st[..k] && st[..k + 1][k] == st[k];
      if !st[k].deleted {
        bySlug := bySlug[st[k].slug := k];
      }
    }
    assert st[..|st|] == st;
  }

  method FindByName(st: Server, name: string) returns (found: Option<nat>)
    ensures found == ByName(st, name)
  {
    for k := 0 to |st|
      invariant ByName(st[..k], name) == None
    {
      assert st[..k + 1][..k] == st[..k] && st[..k + 1][k] == st[k];
      if !st[k].deleted && st[k].name == name {
        NameStays(st, name, k + 1);
        return Some(k);
      }
    }
    assert st[..|st|] == st;
    found := None;
  }

  lemma {:induction false} NameStays(st: Server, name: string, k: nat)
    requires k <= |st| && ByName(st[..k], name).Some?
    ensures ByName(st, name) == ByName(st[..k], name)
  {
    if k == |st| {
      assert st[..k] == st;
    } else {
      assert st[..|st| - 1][..k] == st[..k];
      NameStays(st[..|st| - 1], name, k);
    }
  }

  method IndexPipes(pipes: seq<Pipe>) returns (byName: map<string, nat>)
    ensures forall name :: At(byName, name) == PipeByName(pipes, name)
  {
    byName := map[];
    for j := 0 to |pipes|
      invariant forall name :: At(byName, name) == PipeByName(pipes[..j], name)
    {
      assert pipes[..j + 1][..j] == pipes[..j] && pipes[..j + 1][j] == pipes[j];
      byName := byName[pipes[j].name := j];
    }
    assert pipes[..|pipes|] == pipes;
  }

  // ---------------------------------------------------------------------
  // Apply

  class Tool {
    const env: Env
    var server: Server
    var plan: seq<Change>

    constructor (env: Env, server: Server)
      ensures this.env == env && this.server == server && plan == []
    {
      this.env, this.server, plan := env, server, [];
    }

    function Progress(): Progress
      reads this
    {
      Running(server, plan)
    }

    /** One pipeline spec; false when a call fails. */
    method ApplyPipeline(listed: seq<Pipe>, byName: map<string, nat>, i: nat, slug: string, ps: PipeSpec, dry: bool) returns (ok: bool)
      requires forall name :: At(byName, name) == PipeByName(listed, name)
      modifies this
      ensures ApplyPipe(listed, old(Progress()), i, slug, ps, dry, env) == if ok then Progress() else Halted
    {
      hide CreatePipeline, CreateVersion, ActivateVersion, PipeByName;
      assert At(byName, ps.name) == PipeByName(listed, ps.name);
      if ps.name !in byName {
        plan := plan + [AddPipe(slug, ps.name)];
        if !dry {
          var created := CreatePipeline(server, i, ps.name, DefaultTarget(ps.target), Given(ps.graph), env);
          if created.None? || i >= |created.value| || created.value[i].pipes == [] {
            return false;
          }
          var activated := ActivateVersion(created.value, i, |created.value[i].pipes| - 1, 1);
          if activated.None? {
            return false;
          }
          server := activated.value;
        }
        return true;
      }
      var j := byName[ps.name];
      var cur := listed[j].active;
      if cur.None? && listed[j].versions != [] {
        cur := Some(|listed[j].versions|);
      }
      var changed := true;
      if cur.Some? {
        if !(1 <= cur.value <= |listed[j].versions|) {
          return false;
        }
        changed := Explicit(listed[j].versions[cur.value - 1]) != ps.graph;
      }
      if !changed {
        return true;
      }
      plan := plan + [ChangePipe(slug, ps.name)];
      if !dry {
        var created := CreateVersion(server, i, j, Given(ps.graph), env);
        if created.None? || i >= |created.value| || j >= |created.value[i].pipes| {
          return false;
        }
        var activated := ActivateVersion(created.value, i, j, |created.value[i].pipes[j].versions|);
        if activated.None? {
          return false;
        }
        server := activated.value;
      }
      return true;
    }

    method ApplyPipelines(i: nat, slug: string, specs: seq<PipeSpec>, dry: bool) returns (ok: bool)
      requires i < |server|
      modifies this
      ensures ApplyPipes(old(server)[i].pipes, old(Progress()), i, slug, specs, dry, env) == if ok then Progress() else Halted
    {
      hide ApplyPipe;
      var listed := server[i].pipes;
      ghost var start := Progress();
      var byName := IndexPipes(listed);
      for k := 0 to |specs|
        invariant ApplyPipes(listed, start, i, slug, specs[..k], dry, env) == Progress()
      {
        assert specs[..k + 1][..k] == specs[..k] && specs[..k + 1][k] == specs[k];
        ok := ApplyPipeline(listed, byName, i, slug, specs[k], dry);
        if !ok {
          PipesStayHalted(listed, start, i, slug, specs, k + 1, dry, env);
          return false;
        }
      }
      assert specs[..|specs|] == specs;
      ok := true;
    }

    /** Name, limits and pipelines of an existing customer. */
    method ReconcileCustomer(i: nat, c: Customer, cs: CustomerSpec, dry: bool) returns (ok: bool)
      modifies this
      ensures Reconcile(old(Progress()), i, c, cs, dry, env) == if ok then Progress() else Halted
    {
      hide ApplyPipes, UpdateCustomer;
      var u := NOTHING;
      if c.name != cs.name {
        u := u.(name := Some(cs.name));
      }
      if c.rate != cs.rate {
        u := u.(rate := Some(cs.rate));
      }
      if c.retention != cs.retention {
        u := u.(retention := Some(cs.retention));
      }
      assert u == Differences(c, cs);
      assert plan + [] == plan;
      if u != NOTHING {
        plan := plan + [ChangeCustomer(cs.slug, u)];
        if !dry {
          var updated := UpdateCustomer(server, i, u);
          if updated.None? {
            return false;
          }
          server := updated.value;
        }
      }
      if i >= |server| {
        return false;
      }
      ok := ApplyPipelines(i, c.slug, cs.pipes, dry);
    }

    method ApplyOne(listed: Server, bySlug: map<string, nat>, cs: CustomerSpec, dry: bool) returns (ok: bool)
      requires forall slug :: At(bySlug, slug) == BySlug(listed, slug)
      modifies this
      ensures ApplyCustomer(listed, old(Progress()), cs, dry, env) == if ok then Progress() else Halted
    {
      hide Reconcile, CreateCustomer, BySlug, ByName;
      assert At(bySlug, cs.slug) == BySlug(listed, cs.slug);
      var found := At(bySlug, cs.slug);
      if found.None? && cs.slug == "" {
        found := FindByName(listed, cs.name);
      }
      if found.None? {
        plan := plan + [AddCustomer(cs.name)];
        if dry {
          WouldCreate(cs);
          return true;
        }
        var created := CreateCustomer(server, cs.name, cs.slug, env);
        if created.None? || created.value == [] {
          return false;
        }
        server := created.value;
        ok := ReconcileCustomer(|server| - 1, server[|server| - 1], cs, dry);
        return;
      }
      ok := ReconcileCustomer(found.value, listed[found.value], cs, dry);
    }

    method WouldCreate(cs: CustomerSpec)
      modifies this`plan
      ensures plan == old(plan) + WouldAdd(cs)
    {
      ghost var before := plan;
      for k := 0 to |cs.pipes|
        invariant plan == before + WouldAdd(cs)[..k]
      {
        plan := plan + [WouldAddPipe(cs.pipes[k].name, cs.pipes[k].target, cs.name)];
      }
    }

    /** Applies a spec to the server, or only plans it; false when a call fails. */
    method ApplySpec(spec: Spec, dry: bool) returns (ok: bool)
      requires plan == []
      modifies this
      ensures Apply(old(server), spec, dry, env) == if ok then Progress() else Halted
    {
      hide ApplyCustomer;
      var listed := server;
      var bySlug := IndexCustomers(listed);
      for k := 0 to |spec|
        invariant ApplyAll(listed, spec[..k], dry, env) == Progress()
      {
        assert spec[..k + 1][..k] == spec[..k] && spec[..k + 1][k] == spec[k];
        ok := ApplyOne(listed, bySlug, spec[k], dry);
        if !ok {
          SpecStaysHalted(listed, spec, k + 1, dry, env);
          return false;
        }
      }
      assert spec[..|spec|] == spec;
      ok := true;
    }
  }

  lemma {:induction false} PipesStayHalted(listed: seq<Pipe>, at: Progress, i: nat, slug: string, specs: seq<PipeSpec>,
          k: nat, dry: bool, env: Env)
    requires k <= |specs| && ApplyPipes(listed, at, i, slug, specs[..k], dry, env).Halted?
    ensures ApplyPipes(listed, at, i, slug, specs, dry, env).Halted?
    decreases |specs|
  {
    hide CreatePipeline, CreateVersion, ActivateVersion;
    if k == |specs| {
      assert specs[..k] == specs;
    } else {
      assert specs[..|specs| - 1][..k] == specs[..k];
      PipesStayHalted(listed, at, i, slug, specs[..|specs| - 1], k, dry, env);
    }
  }

  lemma {:induction false} SpecStaysHalted(listed: Server, spec: Spec, k: nat, dry: bool, env: Env)
    requires k <= |spec| && ApplyAll(listed, spec[..k], dry, env).Halted?
    ensures ApplyAll(listed, spec, dry, env).Halted?
    decreases |spec|
  {
    hide Reconcile, CreateCustomer, BySlug, ByName;
    if k == |spec| {
      assert spec[..k] == spec;
    } else {
      assert spec[..|spec| - 1][..k] == spec[..k];
      SpecStaysHalted(listed, spec[..|spec| - 1], k, dry, env);
    }
  }
}
