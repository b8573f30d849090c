/** An agent's config and health events depend on its own reports alone: every run records for
    it what a machine that holds this one agent and hears nothing else would record. */
module FleetPerAgent {
  import opened Prelude
  import opened Fleet
  import opened FleetInvariants
  import opened FleetTransparency

  // ---------------------------------------------------------------------
  // The reference: one agent, alone

  /** A message as the lone agent's machine sees it. `foreign` says that it came on the token of
      another agent. */
  datatype Said = Said(customer: nat, foreign: bool, msg: Message, race: Option<nat>)

  function LoneResolve(a: Option<Agent>, said: Said): Option<Agent> {
    if a.Some? || !said.msg.described then a
    else Some(Agent(0, if said.race.Some? then said.race.value else said.customer, None, Unset, None))
  }

  /** The agent after a message, and the kinds of events recorded. */
  function LoneReceive(a: Option<Agent>, said: Said): (Option<Agent>, seq<Kind>) {
    var b := LoneResolve(a, said);
    if b.None? || b.value.customer != said.customer || said.foreign then (b, []) else
    var (c, log) := RefReport(b.value, said.msg);
    (Some(c), Kinds(log, said.msg.uid))
  }

  /** The agent after all it said since it was last unknown. */
  function LoneAgent(said: seq<Said>): Option<Agent> {
    if said == [] then None else LoneReceive(LoneAgent(said[..|said| - 1]), said[|said| - 1]).0
  }

  /** The kinds of events recorded of it. */
  function LoneKinds(said: seq<Said>): seq<Kind> {
    if said == [] then [] else
    LoneKinds(said[..|said| - 1]) + LoneReceive(LoneAgent(said[..|said| - 1]), said[|said| - 1]).1
  }

  // ---------------------------------------------------------------------
  // What one agent says and what is recorded of it

  /** The kinds of the events of one agent, in order. */
  function Kinds(log: seq<Event>, uid: string): seq<Kind> {
    if log == [] then [] else
    Kinds(log[..|log| - 1], uid) + if log[|log| - 1].uid == uid then [log[|log| - 1].kind] else []
  }

  /** A per-agent token is the agent's own if it was issued to the agent behind the message. */
  function SaidOf(t: Ref, h: Heard): Said {
    var t1 := RefResolve(t, h);
    var own := h.msg.uid in t1.agents && h.auth.agent == Some(t1.agents[h.msg.uid].id);
    Said(h.auth.customer, h.auth.agent.Some? && !own, h.msg, h.race)
  }

  /** Whether the API deletes this agent now. */
  predicate Deletes(s: State, input: Input, uid: string) {
    input.Delete? && input.uid == uid && uid in s.agents && !s.agents[uid].connected
  }

  /** What an agent has said in a run since it was last deleted. */
  function SaidIn(inputs: seq<Input>, uid: string): seq<Said> {
    if inputs == [] then [] else
    var before, last := inputs[..|inputs| - 1], inputs[|inputs| - 1];
    var s := Run(START, before);
    if last.Receive? && last.msg.uid == uid then SaidIn(before, uid) + [SaidOf(View(s), Heard(last.auth, last.msg, last.race))]
    else if Deletes(s, last, uid) then []
    else SaidIn(before, uid)
  }

  /** The agent without its row id. */
  function Known(t: Ref, uid: string): Option<Agent> {
    if uid in t.agents then Some(t.agents[uid].(id := 0)) else None
  }

  lemma {:induction false} KindsConcat(a: seq<Event>, b: seq<Event>, uid: string)
    ensures Kinds(a + b, uid) == Kinds(a, uid) + Kinds(b, uid)
    decreases |b|
  {
    if b == [] {
      assert a + b == a;
    } else {
      assert (a + b)[..|a + b| - 1] == a + b[..|b| - 1];
      KindsConcat(a, b[..|b| - 1], uid);
    }
  }

  // ---------------------------------------------------------------------
  // One message

  lemma KindsOne(e: Event, uid: string)
    ensures Kinds([e], uid) == if e.uid == uid then [e.kind] else []
    ensures Kinds([], uid) == []
  {
    assert [e][..0] == [];
  }

  lemma ConfigLocal(a: Agent, at: string, report: ConfigReport, uid: string)
    ensures var (b, log) := RefConfig(a, at, report);
            var (b', log') := RefConfig(a.(id := 0), at, report);
            b' == b.(id := 0) && Kinds(log', uid) == Kinds(log, uid) && (uid != at ==> Kinds(log, uid) == [])
  {
    hide Kinds;
    KindsOne(Event(at, a.id, ConfigApplied(report.hash)), uid);
    KindsOne(Event(at, 0, ConfigApplied(report.hash)), uid);
    KindsOne(Event(at, a.id, ConfigFailed(report.hash)), uid);
    KindsOne(Event(at, 0, ConfigFailed(report.hash)), uid);
  }

  lemma HealthLocal(a: Agent, at: string, healthy: bool, uid: string)
    ensures var (b, log) := RefHealth(a, at, healthy);
            var (b', log') := RefHealth(a.(id := 0), at, healthy);
            b' == b.(id := 0) && Kinds(log', uid) == Kinds(log, uid) && (uid != at ==> Kinds(log, uid) == [])
  {
    hide Kinds;
    var kind := if healthy then Healthy else Unhealthy;
    KindsOne(Event(at, a.id, kind), uid);
    KindsOne(Event(at, 0, kind), uid);
  }

  /** Reports neither read nor write the row id, and log nothing for others. */
  lemma ReportLocal(a: Agent, msg: Message, uid: string)
    ensures var (b, log) := RefReport(a, msg);
            var (b', log') := RefReport(a.(id := 0), msg);
            b' == b.(id := 0) && Kinds(log', uid) == Kinds(log, uid) && (uid != msg.uid ==> Kinds(log, uid) == [])
  {
    hide Kinds, RefConfig, RefHealth;
    var z := a.(id := 0);
    var (a1, log1) := if msg.config.Some? then RefConfig(a, msg.uid, msg.config.value) else (a, []);
    var (z1, zlog1) := if msg.config.Some? then RefConfig(z, msg.uid, msg.config.value) else (z, []);
    KindsOne(Event("", 0, Enrolled), uid);
    if msg.config.Some? {
      ConfigLocal(a, msg.uid, msg.config.value, uid);
    }
    var log2 := if msg.health.Some? then RefHealth(a1, msg.uid, msg.health.value).1 else [];
    var zlog2 := if msg.health.Some? then RefHealth(z1, msg.uid, msg.health.value).1 else [];
    if msg.health.Some? {
      HealthLocal(a1, msg.uid, msg.health.value, uid);
    }
    KindsConcat(log1, log2, uid);
    KindsConcat(zlog1, zlog2, uid);
  }

  /** A message of another agent changes nothing about this one. */
  lemma OtherSpeaks(t: Ref, h: Heard, uid: string)
    requires h.msg.uid != uid
    ensures Known(RefReceive(t, h), uid) == Known(t, uid)
    ensures Kinds(RefReceive(t, h).log, uid) == Kinds(t.log, uid)
  {
    hide Kinds, RefReport;
    var t1 := RefResolve(t, h);
    if RefAccepts(t1, h) {
      var (a, log) := RefReport(t1.agents[h.msg.uid], h.msg);
      ReportLocal(t1.agents[h.msg.uid], h.msg, uid);
      KindsConcat(t1.log, log, uid);
      assert Kinds(t1.log, uid) + [] == Kinds(t1.log, uid);
    }
  }

  /** Its own message does what it does to the lone agent. */
  lemma AgentSpeaks(t: Ref, h: Heard)
    requires h.msg.uid != ""
    ensures var (b, kinds) := LoneReceive(Known(t, h.msg.uid), SaidOf(t, h));
            Known(RefReceive(t, h), h.msg.uid) == b && Kinds(RefReceive(t, h).log, h.msg.uid) == Kinds(t.log, h.msg.uid) + kinds
  {
    hide Kinds, RefReport;
    var uid := h.msg.uid;
    var t1 := RefResolve(t, h);
    assert t1.log == t.log && Known(t1, uid) == LoneResolve(Known(t, uid), SaidOf(t, h));
    assert Kinds(t.log, uid) + [] == Kinds(t.log, uid);
    if RefAccepts(t1, h) {
      var (a, log) := RefReport(t1.agents[uid], h.msg);
      ReportLocal(t1.agents[uid], h.msg, uid);
      KindsConcat(t1.log, log, uid);
    }
  }

  // ---------------------------------------------------------------------
  // Deletions

  /** Row ids are distinct, and every logged event belongs to the row of its agent. */
  ghost predicate Owned(t: Ref) {
    && (forall u <- t.agents :: t.agents[u].id < t.nextId)
    && (forall u <- t.agents, v <- t.agents :: u != v ==> t.agents[u].id != t.agents[v].id)
    && (forall e <- t.log :: e.uid in t.agents && t.agents[e.uid].id == e.agent)
  }

  lemma ReportOwned(a: Agent, msg: Message)
    ensures var (b, log) := RefReport(a, msg);
            b.id == a.id && b.customer == a.customer && forall e <- log :: e.uid == msg.uid && e.agent == a.id
  {
  }

  lemma ReceiveOwned(t: Ref, h: Heard)
    requires Owned(t)
    ensures Owned(RefReceive(t, h))
  {
    hide RefReport;
    var t1 := RefResolve(t, h);
    assert Owned(t1);
    if RefAccepts(t1, h) {
      ReportOwned(t1.agents[h.msg.uid], h.msg);
    }
  }

  /** The row goes with the events that name it. */
  function RefDelete(t: Ref, uid: string): Ref
    requires uid in t.agents
  {
    t.(agents := t.agents - {uid}, log := Without(t.log, t.agents[uid].id))
  }

  lemma {:induction false} WithoutHas(log: seq<Event>, id: nat)
    ensures forall e :: e in Without(log, id) <==> e in log && e.agent != id
  {
    if log != [] {
      WithoutHas(log[1..], id);
      assert log == [log[0]] + log[1..];
    }
  }

  lemma DeleteOwned(t: Ref, uid: string)
    requires Owned(t) && uid in t.agents
    ensures Owned(RefDelete(t, uid))
  {
    hide Without;
    WithoutHas(t.log, t.agents[uid].id);
  }

  /** Whose events all, or none, name the row is left with none, or with all of them. */
  lemma {:induction false} KindsWithout(log: seq<Event>, uid: string, id: nat)
    ensures (forall e <- log :: e.uid == uid ==> e.agent == id) ==> Kinds(Without(log, id), uid) == []
    ensures (forall e <- log :: e.uid == uid ==> e.agent != id) ==> Kinds(Without(log, id), uid) == Kinds(log, uid)
  {
    if log != [] {
      var init, last := log[..|log| - 1], log[|log| - 1];
      assert log == init + [last];
      assert last in log && forall e <- init :: e in log;
      KindsWithout(init, uid, id);
      WithoutLast(init, last, id);
      var kept := Without(init, id);
      assert (kept + [last])[..|kept|] == kept;
      assert kept + [] == kept;
    }
  }

  lemma NothingWithout(id: nat)
    ensures Without([], id) == [] && Reports([]) == []
  {
  }

  lemma {:induction false} ReportsWithout(events: seq<Event>, id: nat)
    ensures Reports(Without(events, id)) == Without(Reports(events), id)
  {
    hide Reports, Without;
    if events == [] {
      NothingWithout(id);
    } else {
      var init, last := events[..|events| - 1], events[|events| - 1];
      assert events == init + [last];
      ReportsWithout(init, id);
      WithoutLast(init, last, id);
      ReportsAppend(init, last);
      WithoutLast(Reports(init), last, id);
      ReportsAppend(Without(init, id), last);
      assert Without(init, id) + [] == Without(init, id) && Reports(init) + [] == Reports(init);
      assert Without(Reports(init), id) + [] == Without(Reports(init), id);
    }
  }

  lemma DeleteView(s: State, uid: string)
    requires uid in s.agents && !s.agents[uid].connected
    ensures View(HandleDelete(s, uid)) == RefDelete(View(s), uid)
  {
    hide Without, Reports;
    ReportsWithout(s.events, s.agents[uid].id);
    assert View(HandleDelete(s, uid)).agents == View(s).agents - {uid};
  }

  // ---------------------------------------------------------------------
  // Whole runs

  /** The control plane knows of this agent what the lone machine knows. */
  ghost predicate Alone(t: Ref, uid: string, said: seq<Said>) {
    Known(t, uid) == LoneAgent(said) && Kinds(t.log, uid) == LoneKinds(said)
  }

  lemma SpeaksAlone(t: Ref, h: Heard, said: seq<Said>)
    requires h.msg.uid != "" && Alone(t, h.msg.uid, said)
    ensures Alone(RefReceive(t, h), h.msg.uid, said + [SaidOf(t, h)])
  {
    hide Kinds, RefReceive, LoneReceive, Known, SaidOf;
    AgentSpeaks(t, h);
    assert (said + [SaidOf(t, h)])[..|said|] == said;
  }

  lemma DeletedAlone(t: Ref, uid: string, deleted: string, said: seq<Said>)
    requires Owned(t) && deleted in t.agents && Alone(t, uid, said)
    ensures Alone(RefDelete(t, deleted), uid, if deleted == uid then [] else said)
  {
    hide Kinds, Without, LoneKinds, LoneAgent;
    KindsWithout(t.log, uid, t.agents[deleted].id);
    NothingAlone();
  }

  lemma NothingAlone()
    ensures LoneAgent([]) == None && LoneKinds([]) == []
  {
  }

  lemma StepAlone(s: State, input: Input, uid: string, said: seq<Said>)
    requires Joined(s) && AllCoherent(s) && Clean(input) && uid != ""
    requires Owned(View(s)) && Alone(View(s), uid, said)
    ensures Owned(View(Step(s, input)))
    ensures var said' := if input.Receive? && input.msg.uid == uid then said + [SaidOf(View(s), Heard(input.auth, input.msg, input.race))]
                         else if Deletes(s, input, uid) then [] else said;
            Alone(View(Step(s, input)), uid, said')
  {
    hide Joined, AllCoherent, View, HandleMessage, HandleClose, HandlePush, HandleFlush, HandleDelete, HandleRestart,
         RefReceive, Owned, RefRun, Kinds, LoneKinds, LoneAgent, Known, SaidOf, RefDelete;
    StepFollows(s, input);
    HeardOne(s, input);
    match input
    case Receive(conn, auth, msg, now, desired, fails, race) =>
      var h := Heard(auth, msg, race);
      ReceiveOwned(View(s), h);
      if msg.uid == uid {
        SpeaksAlone(View(s), h, said);
      } else {
        OtherSpeaks(View(s), h, uid);
      }
    case Delete(u) => DeleteAlone(s, u, uid, said);
    case _ =>
  }

  lemma DeleteAlone(s: State, u: string, uid: string, said: seq<Said>)
    requires Owned(View(s)) && Alone(View(s), uid, said)
    ensures var s' := HandleDelete(s, u);
            Owned(View(s')) && Alone(View(s'), uid, if Deletes(s, Delete(u), uid) then [] else said)
  {
    hide Owned, Alone, Without, Reports;
    if u in s.agents && !s.agents[u].connected {
      DeleteView(s, u);
      DeleteOwned(View(s), u);
      DeletedAlone(View(s), uid, u, said);
    }
  }

  lemma StartAlone(uid: string)
    ensures Owned(View(START)) && Alone(View(START), uid, [])
  {
  }

  lemma {:induction false} RunAlone(inputs: seq<Input>, uid: string)
    requires uid != "" && forall input <- inputs :: Clean(input)
    ensures var s := Run(START, inputs);
            Joined(s) && AllCoherent(s) && Owned(View(s)) && Alone(View(s), uid, SaidIn(inputs, uid))
  {
    hide Run, Step, Joined, AllCoherent, View, Owned, Alone, SaidOf, Deletes, Clean;
    if inputs == [] {
      StartCoherent();
      StartAlone(uid);
      NoInputs();
    } else {
      var before, last := inputs[..|inputs| - 1], inputs[|inputs| - 1];
      assert inputs == before + [last];
      RunAlone(before, uid);
      RunNext(START, before, last);
      StepFollows(Run(START, before), last);
      StepAlone(Run(START, before), last, uid, SaidIn(before, uid));
    }
  }

  lemma NoInputs()
    ensures Run(START, []) == START
  {
  }

  /** Cache transparency, agent by agent: the config and health events of an agent in any run,
      among any other agents, disconnects, reconnects, pushes, flushes, deletions and restarts,
      are those of the lone machine on what this agent has said since it was last deleted. */
  lemma AgentAlone(inputs: seq<Input>, uid: string)
    requires uid != "" && forall input <- inputs :: Clean(input)
    ensures Kinds(Reports(Run(START, inputs).events), uid) == LoneKinds(SaidIn(inputs, uid))
  {
    hide Run, Joined, AllCoherent, Kinds, SaidIn, LoneKinds, LoneAgent, Owned, Known, Clean;
    RunAlone(inputs, uid);
  }

  /** Two runs in which an agent says the same record the same events for it, whatever the other
      agents say and however the messages interleave. */
  lemma PerAgent(a: seq<Input>, b: seq<Input>, uid: string)
    requires uid != "" && SaidIn(a, uid) == SaidIn(b, uid)
    requires (forall input <- a :: Clean(input)) && (forall input <- b :: Clean(input))
    ensures Kinds(Reports(Run(START, a).events), uid) == Kinds(Reports(Run(START, b).events), uid)
  {
    hide Run, Kinds, SaidIn, Clean;
    AgentAlone(a, uid);
    AgentAlone(b, uid);
  }

  // ---------------------------------------------------------------------
  // Without per-agent tokens, what an agent says is just its messages

  /** The messages of an agent since it was last deleted. */
  function From(inputs: seq<Input>, uid: string): seq<Heard> {
    if inputs == [] then [] else
    var before, last := inputs[..|inputs| - 1], inputs[|inputs| - 1];
    if last.Receive? && last.msg.uid == uid then From(before, uid) + [Heard(last.auth, last.msg, last.race)]
    else if Deletes(Run(START, before), last, uid) then []
    else From(before, uid)
  }

  function Plainly(heard: seq<Heard>): (said: seq<Said>)
    ensures |said| == |heard|
  {
    seq(|heard|, i requires 0 <= i < |heard| => Said(heard[i].auth.customer, false, heard[i].msg, heard[i].race))
  }

  lemma PlainlyLast(t: Ref, heard: seq<Heard>, h: Heard)
    requires h.auth.agent.None?
    ensures Plainly(heard + [h]) == Plainly(heard) + [SaidOf(t, h)]
  {
    hide RefResolve;
  }

  lemma {:induction false} SaidPlainly(inputs: seq<Input>, uid: string)
    requires forall h <- From(inputs, uid) :: h.auth.agent.None?
    ensures SaidIn(inputs, uid) == Plainly(From(inputs, uid))
  {
    hide Run, View, SaidOf, Plainly, Deletes;
    if inputs != [] {
      var before, last := inputs[..|inputs| - 1], inputs[|inputs| - 1];
      if last.Receive? && last.msg.uid == uid {
        var h := Heard(last.auth, last.msg, last.race);
        assert From(inputs, uid) == From(before, uid) + [h];
        assert h in From(inputs, uid) && forall h <- From(before, uid) :: h in From(inputs, uid);
        PlainlyLast(View(Run(START, before)), From(before, uid), h);
        SaidPlainly(before, uid);
      } else if !Deletes(Run(START, before), last, uid) {
        SaidPlainly(before, uid);
      }
    }
  }

  /** On the shared enrolment token, equal messages from an agent suffice. */
  lemma PerAgentPlainly(a: seq<Input>, b: seq<Input>, uid: string)
    requires uid != "" && From(a, uid) == From(b, uid)
    requires forall h <- From(a, uid) :: h.auth.agent.None?
    requires (forall input <- a :: Clean(input)) && (forall input <- b :: Clean(input))
    ensures Kinds(Reports(Run(START, a).events), uid) == Kinds(Reports(Run(START, b).events), uid)
  {
    hide Run, Kinds, From, Plainly, SaidIn, Clean;
    SaidPlainly(a, uid);
    SaidPlainly(b, uid);
    PerAgent(a, b, uid);
  }

  // ---------------------------------------------------------------------
  // Healthy and unhealthy alternate, deletions or not

  /** The health verdicts among some kinds of events. */
  function Verdicts(kinds: seq<Kind>): seq<bool> {
    if kinds == [] then [] else
    var last := kinds[|kinds| - 1];
    Verdicts(kinds[..|kinds| - 1]) + if last.Healthy? || last.Unhealthy? then [last.Healthy?] else []
  }

  lemma {:induction false} HealthKinds(log: seq<Event>, uid: string)
    ensures HealthOf(log, uid) == Verdicts(Kinds(log, uid))
  {
    if log != [] {
      var init, last := log[..|log| - 1], log[|log| - 1];
      HealthKinds(init, uid);
      var before := Kinds(init, uid);
      assert before + [] == before;
      assert (before + [last.kind])[..|before|] == before;
    }
  }

  lemma DeletedHealth(t: Ref, deleted: string, uid: string)
    requires Owned(t) && deleted in t.agents && HealthLogged(t, uid)
    ensures HealthLogged(RefDelete(t, deleted), uid)
  {
    hide Kinds, Without, HealthOf;
    var t' := RefDelete(t, deleted);
    KindsWithout(t.log, uid, t.agents[deleted].id);
    HealthKinds(t.log, uid);
    HealthKinds(t'.log, uid);
  }

  lemma StepHealth(s: State, input: Input, uid: string)
    requires Joined(s) && AllCoherent(s) && Clean(input)
    requires Owned(View(s)) && HealthLogged(View(s), uid)
    ensures HealthLogged(View(Step(s, input)), uid)
  {
    hide Joined, AllCoherent, HandleMessage, HandleClose, HandlePush, HandleFlush, HandleRestart,
         RefReceive, Owned, RefRun, RefDelete, HealthLogged, Reports, Without;
    StepFollows(s, input);
    HeardOne(s, input);
    match input
    case Receive(conn, auth, msg, now, desired, fails, race) => HealthStep(View(s), Heard(auth, msg, race), uid);
    case Delete(u) =>
      if u in s.agents && !s.agents[u].connected {
        DeleteView(s, u);
        DeletedHealth(View(s), u, uid);
      }
    case _ =>
  }

  lemma {:induction false} RunHealth(inputs: seq<Input>, uid: string)
    requires forall input <- inputs :: Clean(input)
    ensures HealthLogged(View(Run(START, inputs)), uid)
  {
    hide Run, Step, Joined, AllCoherent, Owned, Clean, HealthLogged, View;
    if inputs == [] {
      StartHealth(uid);
    } else {
      var before, last := inputs[..|inputs| - 1], inputs[|inputs| - 1];
      assert inputs == before + [last];
      RunHealth(before, uid);
      RunAlone(before, "any");
      RunNext(START, before, last);
      StepHealth(Run(START, before), last, uid);
    }
  }

  lemma StartHealth(uid: string)
    ensures HealthLogged(View(Run(START, [])), uid)
  {
  }

  /** In every run the healthy and unhealthy events of an agent strictly alternate. */
  lemma HealthAlternates(inputs: seq<Input>, uid: string)
    requires forall input <- inputs :: Clean(input)
    ensures Alternating(HealthOf(Run(START, inputs).events, uid))
  {
    hide Run, HealthOf, Clean;
    RunHealth(inputs, uid);
    HealthReports(Run(START, inputs).events, uid);
  }
}
