/** The registry is only a cache: with store writes that succeed, what the control plane records
    about an agent's reports is what a machine without any memory between messages would record. */
module FleetTransparency {
  import opened Prelude
  import opened Fleet
  import opened FleetInvariants

  // ---------------------------------------------------------------------
  // The reference: rows and reports only, no connections, no registry

  datatype Agent = Agent(id: nat, customer: nat, acked: Option<string>, status: Status, healthy: Option<bool>)

  datatype Ref = Ref(agents: map<string, Agent>, nextId: nat, log: seq<Event>)

  const REF_START := Ref(map[], 0, [])

  /** A message as the reference sees it: who sent it and what it says. */
  datatype Heard = Heard(auth: Auth, msg: Message, race: Option<nat>)

  function RefConfig(a: Agent, uid: string, report: ConfigReport): (Agent, seq<Event>) {
    var status := MapStatus(report.status);
    var acked := if report.hash != "" then Some(report.hash) else if status == Unset then None else a.acked;
    var isNew := report.hash != "" && acked != a.acked;
    if status == a.status && !(isNew && Terminal(status)) then (a.(acked := acked), [])
    else (a.(acked := acked, status := status),
          match status
          case Applied => [Event(uid, a.id, ConfigApplied(report.hash))]
          case Failed => [Event(uid, a.id, ConfigFailed(report.hash))]
          case _ => [])
  }

  function RefHealth(a: Agent, uid: string, healthy: bool): (Agent, seq<Event>) {
    (a.(healthy := Some(healthy)),
     if a.healthy == Some(healthy) then [] else [Event(uid, a.id, if healthy then Healthy else Unhealthy)])
  }

  function RefReport(a: Agent, msg: Message): (Agent, seq<Event>) {
    var (a1, log1) := if msg.config.Some? then RefConfig(a, msg.uid, msg.config.value) else (a, []);
    var (a2, log2) := if msg.health.Some? then RefHealth(a1, msg.uid, msg.health.value) else (a1, []);
    (a2, log1 + log2)
  }

  function RefEnroll(t: Ref, uid: string, customer: nat): Ref {
    t.(agents := t.agents[uid := Agent(t.nextId, customer, None, Unset, None)], nextId := t.nextId + 1)
  }

  predicate RefAccepts(t: Ref, h: Heard) {
    && h.msg.uid != "" && h.msg.uid in t.agents && t.agents[h.msg.uid].customer == h.auth.customer
    && (h.auth.agent.Some? ==> t.agents[h.msg.uid].id == h.auth.agent.value)
  }

  /** An unknown agent that describes itself is enrolled first, by whoever gets there first. */
  function RefResolve(t: Ref, h: Heard): Ref {
    if h.msg.uid == "" || h.msg.uid in t.agents || !h.msg.described then t
    else RefEnroll(t, h.msg.uid, if h.race.Some? then h.race.value else h.auth.customer)
  }

  function RefReceive(t: Ref, h: Heard): Ref {
    var t1 := RefResolve(t, h);
    if !RefAccepts(t1, h) then t1 else
    var (a, log) := RefReport(t1.agents[h.msg.uid], h.msg);
    t1.(agents := t1.agents[h.msg.uid := a], log := t1.log + log)
  }

  function RefRun(t: Ref, heard: seq<Heard>): Ref
    decreases |heard|
  {
    if heard == [] then t else RefRun(RefReceive(t, heard[0]), heard[1..])
  }

  // ---------------------------------------------------------------------
  // How the protocol state is seen by the reference

  predicate IsReport(kind: Kind) {
    kind.ConfigApplied? || kind.ConfigFailed? || kind.Healthy? || kind.Unhealthy?
  }

  /** The report events of a log, in order. */
  function Reports(events: seq<Event>): seq<Event> {
    if events == [] then [] else
    var last := events[|events| - 1];
    Reports(events[..|events| - 1]) + if IsReport(last.kind) then [last] else []
  }

  function RowView(row: Row): Agent {
    Agent(row.id, row.customer, row.acked, row.status, row.healthy)
  }

  function ConnView(a: AgentConn): Agent {
    Agent(a.agent, a.customer, a.acked, a.status, a.healthy)
  }

  function View(s: State): Ref {
    Ref(map uid | uid in s.agents :: RowView(s.agents[uid]), s.nextId, Reports(s.events))
  }

  /** The messages of a run; connections, times, pushes, closes and restarts are dropped. */
  function HeardOf(inputs: seq<Input>): seq<Heard> {
    if inputs == [] then [] else
    (if inputs[0].Receive? then [Heard(inputs[0].auth, inputs[0].msg, inputs[0].race)] else []) + HeardOf(inputs[1..])
  }

  lemma ReportsAppend(events: seq<Event>, e: Event)
    ensures Reports(events + [e]) == Reports(events) + if IsReport(e.kind) then [e] else []
  {
    assert (events + [e])[..|events|] == events;
  }

  /** The registry entry mirrors the row, and the row says connected. */
  ghost predicate Coherent(s: State, uid: string) {
    uid in s.byUID ==>
      uid in s.agents && s.agents[uid].connected && ConnView(s.byUID[uid]) == RowView(s.agents[uid])
  }

  ghost predicate AllCoherent(s: State) {
    forall uid :: Coherent(s, uid)
  }

  /** Every store write of the step succeeds. */
  predicate Clean(input: Input) {
    match input
    case Receive(_, _, _, _, _, fails, _) => fails == {}
    case Close(_, fails) => fails == {}
    case Push(_, _, fails) => fails == {}
    case Flush(fails) => fails == {}
    case _ => true
  }

  // ---------------------------------------------------------------------
  // Reports

  /** From s to s', the agent went from a to b and the log grew by these report events. */
  ghost predicate Follows(s: State, s': State, uid: string, b: Agent, log: seq<Event>) {
    && uid in s'.byUID && uid in s'.agents
    && ConnView(s'.byUID[uid]) == b && RowView(s'.agents[uid]) == b
    && Reports(s'.events) == Reports(s.events) + log
  }

  lemma AckedFollows(s: State, uid: string, report: ConfigReport)
    requires uid in s.byUID && Coherent(s, uid)
    ensures var a := RowView(s.agents[uid]);
            var s' := NoteAcked(s, uid, report, {});
            s'.events == s.events && Follows(s, s', uid, RefConfig(a, uid, report).0.(status := a.status), [])
  {
    hide Reports;
  }

  lemma StatusFollows(s: State, uid: string, status: Status, report: ConfigReport)
    requires uid in s.byUID && uid in s.agents && ConnView(s.byUID[uid]) == RowView(s.agents[uid])
    ensures var a := RowView(s.agents[uid]);
            var s' := NoteStatus(s, uid, status, report, {});
            Follows(s, s', uid, a.(status := status),
                    match status
                    case Applied => [Event(uid, a.id, ConfigApplied(report.hash))]
                    case Failed => [Event(uid, a.id, ConfigFailed(report.hash))]
                    case _ => [])
  {
    hide Reports;
    var id := s.byUID[uid].agent;
    ReportsAppend(s.events, Event(uid, id, ConfigApplied(report.hash)));
    ReportsAppend(s.events, Event(uid, id, ConfigFailed(report.hash)));
  }

  lemma ConfigFollows(s: State, uid: string, report: ConfigReport)
    requires uid in s.byUID && Coherent(s, uid)
    ensures var (b, log) := RefConfig(RowView(s.agents[uid]), uid, report);
            Follows(s, HandleConfigReport(s, uid, report, {}), uid, b, log)
  {
    hide NoteAcked, NoteStatus, Reports;
    AckedFollows(s, uid, report);
    var s1 := NoteAcked(s, uid, report, {});
    StatusFollows(s1, uid, MapStatus(report.status), report);
  }

  lemma HealthFollows(s: State, uid: string, healthy: bool)
    requires uid in s.byUID && uid in s.agents && ConnView(s.byUID[uid]) == RowView(s.agents[uid])
    ensures var (b, log) := RefHealth(RowView(s.agents[uid]), uid, healthy);
            Follows(s, HandleHealth(s, uid, healthy, {}), uid, b, log)
  {
    hide Reports;
    var id := s.byUID[uid].agent;
    ReportsAppend(s.events, Event(uid, id, Healthy));
    ReportsAppend(s.events, Event(uid, id, Unhealthy));
  }

  lemma ReportFollows(s: State, msg: Message)
    requires msg.uid in s.byUID && Coherent(s, msg.uid)
    ensures var (b, log) := RefReport(RowView(s.agents[msg.uid]), msg);
            Follows(s, Report(s, msg, {}), msg.uid, b, log)
  {
    hide HandleConfigReport, HandleHealth, Reports, RefConfig, RefHealth;
    var uid := msg.uid;
    var s1 := if msg.config.Some? then HandleConfigReport(s, uid, msg.config.value, {}) else s;
    if msg.config.Some? {
      ConfigFollows(s, uid, msg.config.value);
    }
    if msg.health.Some? {
      HealthFollows(s1, uid, msg.health.value);
    }
  }

  // ---------------------------------------------------------------------
  // One accepted message

  lemma ArriveFollows(s: State, conn: Option<nat>, msg: Message, now: int, prev: Option<AgentConn>, st: AgentConn)
    requires msg.uid in s.agents && ConnView(st) == RowView(s.agents[msg.uid])
    requires prev.Some? ==> s.agents[msg.uid].connected
    ensures var s' := Arrive(s, conn, msg, now, {}, prev, st);
            Follows(s, s', msg.uid, RowView(s.agents[msg.uid]), []) && s'.agents[msg.uid].connected
  {
    hide PutConn, Reports;
    var st1 := st.(conn := conn, lastSeen := now, dirty := true,
                   capabilities := if msg.capabilities != {} then msg.capabilities else st.capabilities);
    var s1 := if msg.described && prev.Some? then SetDescriptionOp(s, msg.uid, st.agent, msg.capabilities, {}) else s;
    PutConnEffect(s1, msg.uid, st1);
    ReportsAppend(s.events, Event(msg.uid, st.agent, Connected));
  }

  lemma OfferFollows(s: State, uid: string, desired: map<nat, string>, fails: set<Write>)
    requires uid in s.byUID && uid in s.agents
    ensures var s' := MaybeOffer(s, uid, desired, fails).0;
            && s'.byUID == s.byUID && uid in s'.agents && s'.events == s.events
            && RowView(s'.agents[uid]) == RowView(s.agents[uid]) && s'.agents[uid].connected == s.agents[uid].connected
  {
  }

  lemma ProcessFollows(s: State, conn: Option<nat>, msg: Message, now: int, desired: map<nat, string>,
                       prev: Option<AgentConn>, st: AgentConn)
    requires msg.uid in s.agents && ConnView(st) == RowView(s.agents[msg.uid])
    requires prev.Some? ==> s.agents[msg.uid].connected
    ensures var (b, log) := RefReport(RowView(s.agents[msg.uid]), msg);
            var s' := Process(s, conn, msg, now, desired, {}, prev, st).0;
            Follows(s, s', msg.uid, b, log) && Coherent(s', msg.uid)
  {
    hide Arrive, Report, MaybeOffer, Reports, RefReport;
    var s1 := Arrive(s, conn, msg, now, {}, prev, st);
    ArriveFollows(s, conn, msg, now, prev, st);
    var s2 := Report(s1, msg, {});
    ReportFollows(s1, msg);
    ReportOnly(s1, msg, {});
    OfferFollows(s2, msg.uid, desired, {});
  }

  /** Other agents' rows and entries are as before, so the reference sees one agent change. */
  lemma ProcessedView(s: State, s': State, conn: Option<nat>, uid: string, now: int, st: AgentConn, b: Agent, log: seq<Event>)
    requires Processed(s, s', conn, uid, now, st) && Follows(s, s', uid, b, log)
    requires AllCoherent(s) && Coherent(s', uid)
    ensures View(s') == View(s).(agents := View(s).agents[uid := b], log := View(s).log + log)
    ensures AllCoherent(s')
  {
    hide Reports;
    forall u ensures Coherent(s', u) {
      assert Coherent(s, u);
    }
    assert View(s').agents == View(s).agents[uid := b];
  }

  // ---------------------------------------------------------------------
  // One message

  lemma EnrollView(s: State, uid: string, customer: nat, capabilities: Capabilities, now: int)
    ensures View(EnrollOp(s, uid, customer, capabilities, now)) == RefEnroll(View(s), uid, customer)
  {
    hide Reports;
    ReportsAppend(s.events, Event(uid, s.nextId, Enrolled));
    assert View(EnrollOp(s, uid, customer, capabilities, now)).agents == RefEnroll(View(s), uid, customer).agents;
  }

  lemma ResolveView(s: State, conn: Option<nat>, auth: Auth, msg: Message, now: int, race: Option<nat>)
    requires msg.uid != ""
    ensures var (s', r) := Resolve(s, conn, auth, msg, now, {}, race);
            var h := Heard(auth, msg, race);
            && View(s') == RefResolve(View(s), h)
            && (r.Found? <==> msg.uid in s'.agents && s'.agents[msg.uid].customer == auth.customer)
            && (r.Found? ==> ConnView(r.st) == RowView(s'.agents[msg.uid]))
  {
    hide Reports;
    if msg.uid !in s.agents && msg.described {
      var customer := if race.Some? then race.value else auth.customer;
      EnrollView(s, msg.uid, customer, if race.Some? then {} else msg.capabilities, now);
    }
  }

  lemma ResolveCoherent(s: State, s1: State, auth: Auth, uid: string, r: Resolved)
    requires AllCoherent(s) && ResolvedFor(s, s1, auth, uid, r)
    ensures AllCoherent(s1)
  {
    forall u ensures Coherent(s1, u) {
      assert Coherent(s, u);
    }
  }

  lemma KnownFollows(s: State, input: Input)
    requires input.Receive? && Clean(input) && Joined(s) && AllCoherent(s)
    requires input.msg.uid != "" && input.msg.uid in s.byUID
    ensures var h := Heard(input.auth, input.msg, input.race);
            View(Step(s, input)) == RefReceive(View(s), h) && AllCoherent(Step(s, input))
  {
    hide Process, RefReport, Reports, ConnsCurrent;
    var Receive(conn, auth, msg, now, desired, fails, race) := input;
    var st := s.byUID[msg.uid];
    assert Coherent(s, msg.uid) && SameAgent(s, msg.uid);
    if RefAccepts(View(s), Heard(auth, msg, race)) {
      ProcessJoined(s, conn, msg, now, desired, {}, Some(st), st);
      ProcessFollows(s, conn, msg, now, desired, Some(st), st);
      var (b, log) := RefReport(RowView(s.agents[msg.uid]), msg);
      ProcessedView(s, Step(s, input), conn, msg.uid, now, st, b, log);
    }
  }

  lemma UnknownFollows(s: State, input: Input)
    requires input.Receive? && Clean(input) && Joined(s) && AllCoherent(s)
    requires input.msg.uid != "" && input.msg.uid !in s.byUID
    ensures var h := Heard(input.auth, input.msg, input.race);
            View(Step(s, input)) == RefReceive(View(s), h) && AllCoherent(Step(s, input))
  {
    hide Process, Resolve, RefReport, RefResolve, Reports, ConnsCurrent;
    var Receive(conn, auth, msg, now, desired, fails, race) := input;
    var (s1, r) := Resolve(s, conn, auth, msg, now, {}, race);
    ResolveView(s, conn, auth, msg, now, race);
    ResolveEffect(s, conn, auth, msg, now, {}, race);
    ResolvedJoined(s, s1, auth, msg.uid, r);
    ResolveCoherent(s, s1, auth, msg.uid, r);
    if r.Found? && (auth.agent.Some? ==> r.st.agent == auth.agent.value) {
      ProcessJoined(s1, conn, msg, now, desired, {}, None, r.st);
      ProcessFollows(s1, conn, msg, now, desired, None, r.st);
      var (b, log) := RefReport(RowView(s1.agents[msg.uid]), msg);
      ProcessedView(s1, Step(s, input), conn, msg.uid, now, r.st, b, log);
    }
  }

  // ---------------------------------------------------------------------
  // Every other input is invisible to the reference

  lemma CloseInvisible(s: State, conn: nat)
    requires AllCoherent(s)
    ensures var s' := HandleClose(s, conn, {}); View(s') == View(s) && AllCoherent(s')
  {
    hide Reports;
    var s' := HandleClose(s, conn, {});
    if conn in s.byConn && s.byConn[conn] in s.byUID {
      var uid := s.byConn[conn];
      ReportsAppend(s.events, Event(uid, s.byUID[uid].agent, Disconnected));
    }
    forall u ensures Coherent(s', u) {
      assert Coherent(s, u);
    }
    assert View(s').agents == View(s).agents;
  }

  lemma OthersInvisible(s: State, input: Input)
    requires AllCoherent(s) && (input.Push? || input.Flush? || input.Restart?)
    ensures View(Step(s, input)) == View(s) && AllCoherent(Step(s, input))
  {
    hide Reports;
    var s' := Step(s, input);
    forall u ensures Coherent(s', u) {
      assert Coherent(s, u);
    }
    assert View(s').agents == View(s).agents;
  }

  lemma DeleteCoherent(s: State, uid: string)
    requires AllCoherent(s)
    ensures AllCoherent(HandleDelete(s, uid))
  {
    hide Without;
    forall u ensures Coherent(HandleDelete(s, uid), u) {
      assert Coherent(s, u);
    }
  }

  lemma StepFollows(s: State, input: Input)
    requires Joined(s) && AllCoherent(s) && Clean(input)
    ensures Joined(Step(s, input)) && AllCoherent(Step(s, input))
    ensures !input.Delete? ==> View(Step(s, input)) == RefRun(View(s), HeardOf([input]))
  {
    hide View, Joined, AllCoherent, HandleMessage, HandleClose, HandleDelete, RefReceive;
    StepJoined(s, input);
    HeardOne(s, input);
    match input
    case Receive(conn, auth, msg, now, desired, fails, race) =>
      if msg.uid == "" {
        EmptyUid(s, input);
      } else if msg.uid in s.byUID {
        KnownFollows(s, input);
      } else {
        UnknownFollows(s, input);
      }
    case Close(conn, fails) => CloseInvisible(s, conn);
    case Delete(uid) => DeleteCoherent(s, uid);
    case _ => OthersInvisible(s, input);
  }

  lemma EmptyUid(s: State, input: Input)
    requires input.Receive? && input.msg.uid == ""
    ensures Step(s, input) == s
    ensures RefReceive(View(s), Heard(input.auth, input.msg, input.race)) == View(s)
  {
  }

  lemma HeardOne(s: State, input: Input)
    ensures RefRun(View(s), HeardOf([input])) ==
            if input.Receive? then RefReceive(View(s), Heard(input.auth, input.msg, input.race)) else View(s)
  {
    hide View, RefReceive;
    assert [input][1..] == [];
    if input.Receive? {
      var h := Heard(input.auth, input.msg, input.race);
      assert HeardOf([input]) == [h];
      assert [h][1..] == [];
    }
  }

  lemma {:induction false} RefRunConcat(t: Ref, a: seq<Heard>, b: seq<Heard>)
    ensures RefRun(t, a + b) == RefRun(RefRun(t, a), b)
    decreases |a|
  {
    hide RefReceive;
    if a == [] {
      assert a + b == b;
    } else {
      assert (a + b)[1..] == a[1..] + b;
      RefRunConcat(RefReceive(t, a[0]), a[1..], b);
    }
  }

  lemma HeardCons(inputs: seq<Input>)
    requires inputs != []
    ensures HeardOf(inputs) == HeardOf([inputs[0]]) + HeardOf(inputs[1..])
  {
    assert [inputs[0]][1..] == [];
  }

  /** The reference computes the rows' report fields and the report events of every run. */
  lemma {:induction false} RunFollows(s: State, inputs: seq<Input>)
    requires Joined(s) && AllCoherent(s)
    requires forall input <- inputs :: Clean(input) && !input.Delete?
    ensures View(Run(s, inputs)) == RefRun(View(s), HeardOf(inputs))
    ensures AllCoherent(Run(s, inputs))
    decreases |inputs|
  {
    hide View, Joined, AllCoherent, Step, HeardOf, RefRun;
    if inputs != [] {
      var s1 := Step(s, inputs[0]);
      StepFollows(s, inputs[0]);
      RunFollows(s1, inputs[1..]);
      HeardCons(inputs);
      RefRunConcat(View(s), HeardOf([inputs[0]]), HeardOf(inputs[1..]));
    } else {
      RefRunNone(View(s));
    }
  }

  lemma RefRunNone(t: Ref)
    ensures HeardOf([]) == [] && RefRun(t, []) == t
  {
  }

  lemma StartCoherent()
    ensures Joined(START) && AllCoherent(START) && View(START) == REF_START
  {
    assert View(START).agents == map[];
  }

  /** Cache transparency: two runs that hear the same messages, however their disconnects,
      reconnects, pushes, flushes and restarts differ, record the same report events. */
  lemma CacheTransparent(a: seq<Input>, b: seq<Input>)
    requires forall input <- a :: Clean(input) && !input.Delete?
    requires forall input <- b :: Clean(input) && !input.Delete?
    requires HeardOf(a) == HeardOf(b)
    ensures Reports(Run(START, a).events) == Reports(Run(START, b).events)
  {
    hide Run, HeardOf, RefRun, Joined, AllCoherent;
    StartCoherent();
    RunFollows(START, a);
    RunFollows(START, b);
    assert View(Run(START, a)).log == View(Run(START, b)).log;
  }

  // ---------------------------------------------------------------------
  // Healthy and unhealthy alternate

  /** The health verdicts logged for one agent, in order. */
  function HealthOf(log: seq<Event>, uid: string): seq<bool> {
    if log == [] then [] else
    var last := log[|log| - 1];
    HealthOf(log[..|log| - 1], uid) +
      if last.uid == uid && (last.kind.Healthy? || last.kind.Unhealthy?) then [last.kind.Healthy?] else []
  }

  ghost predicate Alternating(xs: seq<bool>) {
    forall i :: 0 <= i < |xs| - 1 ==> xs[i] != xs[i + 1]
  }

  function LastOf(xs: seq<bool>): Option<bool> {
    if xs == [] then None else Some(xs[|xs| - 1])
  }

  /** The log alternates, and its last verdict is the one on the row. */
  ghost predicate HealthLogged(t: Ref, uid: string) {
    && Alternating(HealthOf(t.log, uid))
    && LastOf(HealthOf(t.log, uid)) == if uid in t.agents then t.agents[uid].healthy else None
  }

  lemma {:induction false} HealthConcat(a: seq<Event>, b: seq<Event>, uid: string)
    ensures HealthOf(a + b, uid) == HealthOf(a, uid) + HealthOf(b, uid)
    decreases |b|
  {
    if b == [] {
      assert a + b == a;
    } else {
      assert (a + b)[..|a + b| - 1] == a + b[..|b| - 1];
      HealthConcat(a, b[..|b| - 1], uid);
    }
  }

  lemma ReportHealth(a: Agent, msg: Message, uid: string)
    ensures var (b, log) := RefReport(a, msg);
            HealthOf(log, uid) ==
              if uid == msg.uid && msg.health.Some? && a.healthy != msg.health then [msg.health.value] else []
    ensures RefReport(a, msg).0.healthy == if msg.health.Some? then msg.health else a.healthy
    ensures RefReport(a, msg).0.id == a.id
  {
    hide HealthOf, RefConfig, RefHealth;
    var (a1, log1) := if msg.config.Some? then RefConfig(a, msg.uid, msg.config.value) else (a, []);
    var log2 := if msg.health.Some? then RefHealth(a1, msg.uid, msg.health.value).1 else [];
    NoHealth(uid);
    if msg.config.Some? {
      ConfigQuiet(a, msg.uid, msg.config.value, uid);
    }
    if msg.health.Some? {
      OneHealth(a1, msg.uid, msg.health.value, uid);
    }
    HealthConcat(log1, log2, uid);
  }

  lemma NoHealth(uid: string)
    ensures HealthOf([], uid) == []
  {
  }

  lemma ConfigQuiet(a: Agent, at: string, report: ConfigReport, uid: string)
    ensures var (b, log) := RefConfig(a, at, report); HealthOf(log, uid) == [] && b.healthy == a.healthy && b.id == a.id
  {
    var log := RefConfig(a, at, report).1;
    assert log != [] ==> log[..0] == [];
  }

  lemma OneHealth(a: Agent, at: string, healthy: bool, uid: string)
    ensures var (b, log) := RefHealth(a, at, healthy);
            && HealthOf(log, uid) == (if uid == at && a.healthy != Some(healthy) then [healthy] else [])
            && b.healthy == Some(healthy) && b.id == a.id
  {
    var log := RefHealth(a, at, healthy).1;
    assert log != [] ==> log[..0] == [];
  }

  lemma HealthStep(t: Ref, h: Heard, uid: string)
    requires HealthLogged(t, uid)
    ensures HealthLogged(RefReceive(t, h), uid)
  {
    hide RefReport, HealthOf;
    var t1 := RefResolve(t, h);
    assert HealthLogged(t1, uid);
    if RefAccepts(t1, h) {
      var a := t1.agents[h.msg.uid];
      ReportHealth(a, h.msg, uid);
      HealthConcat(t1.log, RefReport(a, h.msg).1, uid);
    }
  }

  lemma {:induction false} HealthReports(events: seq<Event>, uid: string)
    ensures HealthOf(Reports(events), uid) == HealthOf(events, uid)
  {
    if events != [] {
      var init, last := events[..|events| - 1], events[|events| - 1];
      HealthReports(init, uid);
      HealthConcat(Reports(init), [last], uid);
      assert [last][..0] == [];
      assert Reports(init) + [] == Reports(init);
    }
  }
}
