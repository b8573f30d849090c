/** What a dry run shows: exactly when its plan is the plan of the run that follows it. */
module ReconcilerPlans {
  import opened Prelude
  import opened Secrets
  import opened Reconciler
  import opened ReconcilerLaws
  import opened ReconcilerExact
  import Text

  // ---------------------------------------------------------------------
  // The plan of one pipeline, one customer, one spec

  function PipeChange(listed: seq<Pipe>, slug: string, ps: PipeSpec): seq<Change> {
    var found := PipeByName(listed, ps.name);
    if found.None? then [AddPipe(slug, ps.name)] else
    var current := CurrentGraph(listed[found.value]);
    if current.Some? && Explicit(current.value) == ps.graph then [] else [ChangePipe(slug, ps.name)]
  }

  function PipesPlan(listed: seq<Pipe>, slug: string, specs: seq<PipeSpec>): seq<Change> {
    if specs == [] then [] else
    PipesPlan(listed, slug, specs[..|specs| - 1]) + PipeChange(listed, slug, specs[|specs| - 1])
  }

  /** Whether every listed pipeline of the specs can be read. */
  predicate PipesReadable(listed: seq<Pipe>, specs: seq<PipeSpec>) {
    forall ps <- specs ::
      var found := PipeByName(listed, ps.name);
      found.Some? && CurrentVersion(listed[found.value]).Some? ==> CurrentGraph(listed[found.value]).Some?
  }

  function UpdatePlan(c: Customer, cs: CustomerSpec): seq<Change> {
    var u := Differences(c, cs);
    if u == NOTHING then [] else [ChangeCustomer(cs.slug, u)]
  }

  /** The plan for a customer that exists. */
  function KnownPlan(c: Customer, cs: CustomerSpec): seq<Change> {
    UpdatePlan(c, cs) + PipesPlan(c.pipes, c.slug, cs.pipes)
  }

  /** A customer right after its creation. */
  function Fresh(cs: CustomerSpec, slug: string): Customer {
    Customer(slug, Text.TrimSpace(cs.name), false, None, None, [])
  }

  function DryPart(listed: Server, cs: CustomerSpec): seq<Change> {
    var found := Match(listed, cs);
    if found.Some? then KnownPlan(listed[found.value], cs) else [AddCustomer(cs.name)] + WouldAdd(cs)
  }

  /** A new customer is planned twice: for its creation, and for what its creation left open. */
  function RealPart(listed: Server, cs: CustomerSpec, slug: string): seq<Change> {
    var found := Match(listed, cs);
    if found.Some? then KnownPlan(listed[found.value], cs) else [AddCustomer(cs.name)] + KnownPlan(Fresh(cs, slug), cs)
  }

  // ---------------------------------------------------------------------
  // Runs follow their plans

  lemma PipePlanned(listed: seq<Pipe>, st: Server, plan: seq<Change>, i: nat, slug: string, ps: PipeSpec, dry: bool, env: Env)
    ensures var r := ApplyPipe(listed, Running(st, plan), i, slug, ps, dry, env);
            && (r.Running? ==> r.plan == plan + PipeChange(listed, slug, ps) && PipesReadable(listed, [ps]))
            && (dry && PipesReadable(listed, [ps]) ==> r.Running? && r.server == st)
  {
    hide CreatePipeline, CreateVersion, ActivateVersion, CurrentVersion, CurrentGraph, PipeByName;
    assert ps in [ps];
  }

  lemma {:induction false} PipesPlanned(listed: seq<Pipe>, st: Server, plan: seq<Change>, i: nat, slug: string,
                                        specs: seq<PipeSpec>, dry: bool, env: Env)
    ensures var r := ApplyPipes(listed, Running(st, plan), i, slug, specs, dry, env);
            && (r.Running? ==> r.plan == plan + PipesPlan(listed, slug, specs) && PipesReadable(listed, specs))
            && (dry && PipesReadable(listed, specs) ==> r.Running? && r.server == st)
  {
    hide ApplyPipe, PipeChange, PipeByName, CurrentVersion, CurrentGraph;
    if specs != [] {
      var init, last := specs[..|specs| - 1], specs[|specs| - 1];
      assert specs == init + [last];
      PipesPlanned(listed, st, plan, i, slug, init, dry, env);
      var mid := ApplyPipes(listed, Running(st, plan), i, slug, init, dry, env);
      PipeHalted(listed, i, slug, last, dry, env);
      if mid.Running? {
        PipePlanned(listed, mid.server, mid.plan, i, slug, last, dry, env);
        assert (plan + PipesPlan(listed, slug, init)) + PipeChange(listed, slug, last) ==
               plan + (PipesPlan(listed, slug, init) + PipeChange(listed, slug, last));
      }
      ReadableSplit(listed, init, last);
    }
  }

  lemma ReadableSplit(listed: seq<Pipe>, init: seq<PipeSpec>, last: PipeSpec)
    ensures PipesReadable(listed, init + [last]) <==> PipesReadable(listed, init) && PipesReadable(listed, [last])
  {
    hide PipeByName, CurrentVersion, CurrentGraph;
    assert forall ps :: ps in init + [last] <==> ps in init || ps in [last];
  }

  /** Reconciling a customer plans what its state and its spec say, whoever else is on the server. */
  lemma ReconcilePlanned(st: Server, plan: seq<Change>, i: nat, c: Customer, cs: CustomerSpec, dry: bool, env: Env)
    requires i < |st| && st[i].pipes == c.pipes
    ensures var r := Reconcile(Running(st, plan), i, c, cs, dry, env);
            && (r.Running? ==> r.plan == plan + KnownPlan(c, cs) && PipesReadable(c.pipes, cs.pipes))
            && (dry && PipesReadable(c.pipes, cs.pipes) ==> r.Running? && r.server == st)
  {
    hide ApplyPipes, PipesPlan, PipesReadable, UsableUpdate;
    var u := Differences(c, cs);
    var plan' := plan + UpdatePlan(c, cs);
    var updated := if u == NOTHING || dry then Some(st) else UpdateCustomer(st, i, u);
    if updated.Some? {
      assert updated.value[i].pipes == c.pipes;
      PipesPlanned(c.pipes, updated.value, plan', i, c.slug, cs.pipes, dry, env);
      assert (plan + UpdatePlan(c, cs)) + PipesPlan(c.pipes, c.slug, cs.pipes) == plan + KnownPlan(c, cs);
    }
  }

  // ---------------------------------------------------------------------
  // Customers no spec has matched yet are as they were listed

  /** No change but at one position, which may be new. */
  ghost predicate OnlyAt(before: Server, after: Server, i: nat) {
    |before| <= |after| && forall k :: 0 <= k < |before| && k != i ==> after[k] == before[k]
  }

  lemma PipeOnlyAt(listed: seq<Pipe>, st: Server, plan: seq<Change>, i: nat, slug: string, ps: PipeSpec, env: Env)
    ensures var r := ApplyPipe(listed, Running(st, plan), i, slug, ps, false, env); r.Running? ==> OnlyAt(st, r.server, i)
  {
    hide UsableName, PipeTaken, CurrentVersion, CurrentGraph, PipeByName, Redact, Text.TrimSpace;
  }

  lemma {:induction false} PipesOnlyAt(listed: seq<Pipe>, st: Server, plan: seq<Change>, i: nat, slug: string,
                                       specs: seq<PipeSpec>, env: Env)
    ensures var r := ApplyPipes(listed, Running(st, plan), i, slug, specs, false, env); r.Running? ==> OnlyAt(st, r.server, i)
  {
    hide ApplyPipe;
    if specs != [] {
      var init, last := specs[..|specs| - 1], specs[|specs| - 1];
      PipesOnlyAt(listed, st, plan, i, slug, init, env);
      var mid := ApplyPipes(listed, Running(st, plan), i, slug, init, false, env);
      PipeHalted(listed, i, slug, last, false, env);
      if mid.Running? {
        PipeOnlyAt(listed, mid.server, mid.plan, i, slug, last, env);
      }
    }
  }

  lemma ReconcileOnlyAt(st: Server, plan: seq<Change>, i: nat, c: Customer, cs: CustomerSpec, env: Env)
    ensures var r := Reconcile(Running(st, plan), i, c, cs, false, env); r.Running? ==> OnlyAt(st, r.server, i)
  {
    hide ApplyPipes, UsableUpdate, Differences, Updated;
    var u := Differences(c, cs);
    var updated := if u == NOTHING then Some(st) else UpdateCustomer(st, i, u);
    if updated.Some? && i < |updated.value| {
      var plan' := plan + if u == NOTHING then [] else [ChangeCustomer(cs.slug, u)];
      PipesOnlyAt(updated.value[i].pipes, updated.value, plan', i, c.slug, cs.pipes, env);
    }
  }

  ghost predicate Untouched(listed: Server, st: Server, spec: Spec) {
    && |listed| <= |st|
    && forall k: nat :: k < |listed| && (forall cs <- spec :: Match(listed, cs) != Some(k)) ==> st[k] == listed[k]
  }

  /** No two specs mean the same listed customer. */
  ghost predicate Apart(listed: Server, spec: Spec) {
    forall j, k :: 0 <= j < k < |spec| && Match(listed, spec[j]).Some? ==> Match(listed, spec[j]) != Match(listed, spec[k])
  }

  /** Distinct slugs are enough for that. */
  lemma DistinctApart(listed: Server, spec: Spec)
    requires DistinctSpec(spec)
    ensures Apart(listed, spec)
  {
    hide BySlug, ByName, DistinctPipes;
  }

  // ---------------------------------------------------------------------
  // One customer

  /** What one customer of a real run adds to the plan, and that a dry run gets past it too. */
  lemma CustomerPlanned(listed: Server, st: Server, plan: seq<Change>, cs: CustomerSpec, env: Env) returns (slug: string)
    requires |listed| <= |st|
    requires Match(listed, cs).Some? ==>
               Match(listed, cs).value < |listed| && st[Match(listed, cs).value] == listed[Match(listed, cs).value]
    ensures var r := ApplyCustomer(listed, Running(st, plan), cs, false, env);
            r.Running? ==>
              && r.plan == plan + RealPart(listed, cs, slug) && DryReadable(listed, cs)
              && OnlyAt(st, r.server, if Match(listed, cs).Some? then Match(listed, cs).value else |st|)
  {
    hide Reconcile, Match, KnownPlan, PipesReadable, UsableName, SlugTaken;
    var found := Match(listed, cs);
    slug := cs.slug;
    if found.Some? {
      ReconcilePlanned(st, plan, found.value, listed[found.value], cs, false, env);
      ReconcileOnlyAt(st, plan, found.value, listed[found.value], cs, env);
    } else {
      var created := CreateCustomer(st, cs.name, cs.slug, env);
      if created.Some? && created.value != [] {
        var i, plan' := |created.value| - 1, plan + [AddCustomer(cs.name)];
        slug := created.value[i].slug;
        ReconcilePlanned(created.value, plan', i, created.value[i], cs, false, env);
        ReconcileOnlyAt(created.value, plan', i, created.value[i], cs, env);
        assert created.value[i] == Fresh(cs, slug) && i == |st|;
        assert (plan + [AddCustomer(cs.name)]) + KnownPlan(Fresh(cs, slug), cs) == plan + RealPart(listed, cs, slug);
      }
    }
  }

  /** Whether a dry run gets past this customer. */
  predicate DryReadable(listed: Server, cs: CustomerSpec) {
    var found := Match(listed, cs);
    found.Some? ==> found.value < |listed| && PipesReadable(listed[found.value].pipes, cs.pipes)
  }

  lemma DryPlanned(listed: Server, plan: seq<Change>, cs: CustomerSpec, env: Env)
    requires DryReadable(listed, cs)
    ensures ApplyCustomer(listed, Running(listed, plan), cs, true, env) == Running(listed, plan + DryPart(listed, cs))
  {
    hide Reconcile, Match, KnownPlan, PipesReadable;
    var found := Match(listed, cs);
    if found.Some? {
      ReconcilePlanned(listed, plan, found.value, listed[found.value], cs, true, env);
    } else {
      assert (plan + [AddCustomer(cs.name)]) + WouldAdd(cs) == plan + DryPart(listed, cs);
    }
  }

  /** A new customer that its creation leaves as the spec wants it. */
  predicate CreatedAsWanted(cs: CustomerSpec) {
    Text.TrimSpace(cs.name) == cs.name && cs.rate.None? && cs.retention.None?
  }

  lemma {:induction false} FreshPipes(slug: string, specs: seq<PipeSpec>)
    ensures |PipesPlan([], slug, specs)| == |specs|
    ensures forall k :: 0 <= k < |specs| ==> PipesPlan([], slug, specs)[k] == AddPipe(slug, specs[k].name)
  {
    if specs != [] {
      FreshPipes(slug, specs[..|specs| - 1]);
    }
  }

  /** A customer's dry plan is never the longer one. It is as long as the real one exactly for a
      customer that exists or that its creation leaves as wanted. */
  lemma PartsCompared(listed: Server, cs: CustomerSpec, slug: string)
    ensures |DryPart(listed, cs)| <= |RealPart(listed, cs, slug)|
    ensures |DryPart(listed, cs)| == |RealPart(listed, cs, slug)| <==> Match(listed, cs).Some? || CreatedAsWanted(cs)
    ensures DryPart(listed, cs) == RealPart(listed, cs, slug) <==> Match(listed, cs).Some? || (CreatedAsWanted(cs) && cs.pipes == [])
  {
    hide Match, PipesPlan, Text.TrimSpace;
    if Match(listed, cs).None? {
      FreshPipes(slug, cs.pipes);
      var shown, ran := DryPart(listed, cs), RealPart(listed, cs, slug);
      var u := UpdatePlan(Fresh(cs, slug), cs);
      assert u == [] <==> Text.TrimSpace(cs.name) == cs.name && cs.rate.None? && cs.retention.None?;
      assert |ran| == 1 + |u| + |cs.pipes| && |shown| == 1 + |cs.pipes|;
      if u == [] {
        if cs.pipes != [] {
          assert ran[1 + 0] == AddPipe(slug, cs.pipes[0].name) && shown[1 + 0].WouldAddPipe?;
        } else {
          assert shown == ran;
        }
      }
    }
  }

  // ---------------------------------------------------------------------
  // A whole spec

  ghost predicate AllAsWanted(listed: Server, spec: Spec) {
    forall cs <- spec :: Match(listed, cs).Some? || CreatedAsWanted(cs)
  }

  ghost predicate AllBare(listed: Server, spec: Spec) {
    forall cs <- spec :: Match(listed, cs).Some? || (CreatedAsWanted(cs) && cs.pipes == [])
  }

  lemma Concatenated<T>(a: seq<T>, b: seq<T>, x: seq<T>, y: seq<T>)
    requires |a| <= |b| && |x| <= |y|
    ensures a + x == b + y <==> a == b && x == y
  {
    if a + x == b + y {
      assert |a + x| == |a| + |x| && |b + y| == |b| + |y|;
      assert a == (a + x)[..|a|] && b == (b + y)[..|b|];
      assert x == (a + x)[|a|..] && y == (b + y)[|b|..];
    }
  }

  lemma StillListed(listed: Server, st: Server, spec: Spec)
    requires spec != [] && Apart(listed, spec) && Untouched(listed, st, spec[..|spec| - 1])
    ensures var found := Match(listed, spec[|spec| - 1]);
            found.Some? ==> found.value < |listed| && st[found.value] == listed[found.value]
  {
    hide Match;
    var init, last := spec[..|spec| - 1], spec[|spec| - 1];
    MatchRange(listed, last);
    if Match(listed, last).Some? {
      forall cs <- init ensures Match(listed, cs) != Match(listed, last) {
        var j :| 0 <= j < |init| && init[j] == cs;
        assert spec[j] == cs;
      }
    }
  }

  lemma UntouchedNext(listed: Server, st: Server, st': Server, spec: Spec)
    requires spec != [] && Untouched(listed, st, spec[..|spec| - 1])
    requires OnlyAt(st, st', if Match(listed, spec[|spec| - 1]).Some? then Match(listed, spec[|spec| - 1]).value else |st|)
    ensures Untouched(listed, st', spec)
  {
    hide Match;
    var init, last := spec[..|spec| - 1], spec[|spec| - 1];
    assert spec == init + [last];
    assert last in spec;
    assert forall cs <- init :: cs in spec;
  }

  lemma {:induction false} PlansCompared(st: Server, spec: Spec, env: Env, env': Env)
    requires Apart(st, spec) && ApplyAll(st, spec, false, env).Running?
    ensures var ran, shown := ApplyAll(st, spec, false, env), ApplyAll(st, spec, true, env');
            && Untouched(st, ran.server, spec)
            && shown.Running? && shown.server == st && |shown.plan| <= |ran.plan|
            && (|shown.plan| == |ran.plan| <==> AllAsWanted(st, spec))
            && (shown.plan == ran.plan <==> AllBare(st, spec))
  {
    hide ApplyCustomer, Match, CreatedAsWanted, DryPart, RealPart, DryReadable, OnlyAt, Untouched;
    if spec == [] {
      NoneUntouched(st);
    } else {
      var init, last := spec[..|spec| - 1], spec[|spec| - 1];
      assert spec == init + [last];
      CustomerHalted(st, last, false, env);
      assert Apart(st, init);
      PlansCompared(st, init, env, env');
      var ran, shown := ApplyAll(st, init, false, env), ApplyAll(st, init, true, env');
      StillListed(st, ran.server, spec);
      UntouchedRange(st, ran.server, init);
      var slug := CustomerPlanned(st, ran.server, ran.plan, last, env);
      DryPlanned(st, shown.plan, last, env');
      PartsCompared(st, last, slug);
      Concatenated(shown.plan, ran.plan, DryPart(st, last), RealPart(st, last, slug));
      UntouchedNext(st, ran.server, ApplyAll(st, spec, false, env).server, spec);
      assert forall cs :: cs in spec <==> cs in init || cs == last;
    }
  }

  lemma NoneUntouched(st: Server)
    ensures Untouched(st, st, [])
  {
  }

  lemma UntouchedRange(listed: Server, st: Server, spec: Spec)
    requires Untouched(listed, st, spec)
    ensures |listed| <= |st|
  {
  }

  /** A dry run shows as many changes as a successful real run makes exactly when every customer
      the spec would create needs no update once created: a trimmed name and no limits. It shows
      the same lines exactly when such a customer has no pipelines either, since it words those
      of a new customer differently. */
  lemma DryPlanExactly(st: Server, spec: Spec, env: Env, env': Env)
    requires Apart(st, spec) && Apply(st, spec, false, env).Running?
    ensures Apply(st, spec, true, env').Running? && Apply(st, spec, true, env').server == st
    ensures |Apply(st, spec, true, env').plan| <= |Apply(st, spec, false, env).plan|
    ensures |Apply(st, spec, true, env').plan| == |Apply(st, spec, false, env).plan| <==>
              forall cs <- spec :: Match(st, cs).Some? || CreatedAsWanted(cs)
    ensures Apply(st, spec, true, env').plan == Apply(st, spec, false, env).plan <==>
              forall cs <- spec :: Match(st, cs).Some? || (CreatedAsWanted(cs) && cs.pipes == [])
  {
    hide ApplyAll, Match, CreatedAsWanted, Untouched;
    PlansCompared(st, spec, env, env');
  }

  // ---------------------------------------------------------------------
  // Specs that apply and break the two properties

  const NOBODY: Server := []

  const LIMITED := CustomerSpec("a", "a", Some(5), None, [])

  const UNTRIMMED := CustomerSpec(" a", "a", None, None, [])

  const ANNA := Customer("a", "a", false, None, None, [])

  lemma OneSpec(listed: Server, cs: CustomerSpec, dry: bool, env: Env)
    ensures Apply(listed, [cs], dry, env) == ApplyCustomer(listed, Running(listed, []), cs, dry, env)
  {
    hide ApplyCustomer;
    var spec: Spec := [cs];
    assert spec[..|spec| - 1] == [] && spec[|spec| - 1] == cs;
    assert ApplyAll(listed, [], dry, env) == Running(listed, []);
    assert ApplyAll(listed, spec, dry, env) == ApplyCustomer(listed, ApplyAll(listed, spec[..|spec| - 1], dry, env), cs, dry, env);
  }

  /** The first customer of an empty server is created as asked, then updated where it differs. */
  lemma FirstCustomer(cs: CustomerSpec, env: Env)
    requires cs.slug == "a" && Text.TrimSpace(cs.name) == "a" && cs.pipes == []
    requires env.accepts(NOBODY, CreateCustomerCall(cs.name, cs.slug))
    requires Differences(ANNA, cs) != NOTHING && UsableUpdate(Differences(ANNA, cs))
    ensures Apply(NOBODY, [cs], false, env) ==
            Running([Updated(ANNA, Differences(ANNA, cs))], [AddCustomer(cs.name), ChangeCustomer("a", Differences(ANNA, cs))])
    ensures Apply(NOBODY, [cs], true, env) == Running(NOBODY, [AddCustomer(cs.name)])
  {
    hide Text.TrimSpace, UsableUpdate, Differences, Updated;
    OneSpec(NOBODY, cs, false, env);
    OneSpec(NOBODY, cs, true, env);
    assert NOBODY + [ANNA] == [ANNA];
    assert CreateCustomer(NOBODY, cs.name, cs.slug, env) == Some([ANNA]);
    var u := Differences(ANNA, cs);
    assert [ANNA][0 := Updated(ANNA, u)] == [Updated(ANNA, u)];
    assert WouldAdd(cs) == [];
    assert ([AddCustomer(cs.name)] + WouldAdd(cs)) == [AddCustomer(cs.name)];
  }

  lemma Trimmed()
    ensures Text.TrimSpace("a") == "a" && Text.TrimSpace(" a") == "a"
  {
  }

  /** A new customer with a limit: the dry run shows one change, the real run makes two. */
  lemma LimitedShowsLess(env: Env)
    requires env.accepts(NOBODY, CreateCustomerCall("a", "a"))
    ensures var ran, shown := Apply(NOBODY, [LIMITED], false, env), Apply(NOBODY, [LIMITED], true, env);
            ran.Running? && shown.Running? && |shown.plan| == 1 && |ran.plan| == 2
  {
    Trimmed();
    FirstCustomer(LIMITED, env);
  }

  /** A name with a leading blank applies, and the next run still plans to change it. */
  lemma UntrimmedPlansAgain(env: Env, env': Env)
    requires env.accepts(NOBODY, CreateCustomerCall(" a", "a"))
    ensures var ran := Apply(NOBODY, [UNTRIMMED], false, env);
            ran.Running? && Apply(ran.server, [UNTRIMMED], true, env') ==
                Running(ran.server, [ChangeCustomer("a", Differences(ANNA, UNTRIMMED))])
  {
    Trimmed();
    FirstCustomer(UNTRIMMED, env);
    assert Updated(ANNA, Differences(ANNA, UNTRIMMED)) == ANNA;
    OneSpec([ANNA], UNTRIMMED, true, env');
    assert BySlug([ANNA], "a") == Some(0);
  }
}
