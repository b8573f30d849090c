/** What every step of the fleet protocol keeps, whatever store writes fail: the registry's two
    maps agree, registry and row name the same agent and customer, and every connection serves
    only agents of the customer it authenticated as. */
module FleetInvariants {
  import opened Prelude
  import opened Fleet

  // ---------------------------------------------------------------------
  // The invariant

  /** Every byConn entry names the UID whose current connection it is. */
  ghost predicate ConnsCurrent(s: State) {
    forall c <- s.byConn :: s.byConn[c] in s.byUID && s.byUID[s.byConn[c]].conn == Some(c)
  }

  /** Registry entry and row of one UID describe the same agent of the same customer. */
  ghost predicate SameAgent(s: State, uid: string) {
    uid in s.byUID && uid in s.agents ==>
      s.agents[uid].id == s.byUID[uid].agent && s.agents[uid].customer == s.byUID[uid].customer
  }

  /** A registered connection authenticated as its agent's customer. */
  ghost predicate Authentic(s: State, authOf: nat -> Auth, uid: string) {
    uid in s.byUID && s.byUID[uid].conn.Some? ==> authOf(s.byUID[uid].conn.value).customer == s.byUID[uid].customer
  }

  ghost predicate Joined(s: State) {
    ConnsCurrent(s) && forall uid :: SameAgent(s, uid)
  }

  ghost predicate Bound(s: State, authOf: nat -> Auth) {
    Joined(s) && forall uid :: Authentic(s, authOf, uid)
  }

  /** A connection keeps the identity it authenticated with. */
  ghost predicate Faithful(input: Input, authOf: nat -> Auth) {
    input.Receive? && input.conn.Some? ==> input.auth == authOf(input.conn.value)
  }

  // ---------------------------------------------------------------------
  // What reporting leaves alone

  /** The report fields of the two views of one agent may change, nothing else. */
  ghost predicate OnlyReports(s: State, s': State, uid: string) {
    && s'.byConn == s.byConn && s'.nextId == s.nextId
    && s'.agents.Keys == s.agents.Keys && s'.byUID.Keys == s.byUID.Keys
    && (forall u <- s.agents :: u != uid ==> s'.agents[u] == s.agents[u])
    && (forall u <- s.byUID :: u != uid ==> s'.byUID[u] == s.byUID[u])
    && (uid in s.agents ==> SameRowElse(s.agents[uid], s'.agents[uid]))
    && (uid in s.byUID ==> SameConnElse(s.byUID[uid], s'.byUID[uid]))
  }

  ghost predicate SameRowElse(r: Row, r': Row) {
    r' == r.(acked := r'.acked, status := r'.status, error := r'.error, healthy := r'.healthy)
  }

  ghost predicate SameConnElse(a: AgentConn, a': AgentConn) {
    a' == a.(acked := a'.acked, status := a'.status, healthy := a'.healthy)
  }

  lemma OnlyReportsTrans(s: State, t: State, u: State, uid: string)
    requires OnlyReports(s, t, uid) && OnlyReports(t, u, uid)
    ensures OnlyReports(s, u, uid)
  {
  }

  lemma NoteAckedOnly(s: State, uid: string, report: ConfigReport, fails: set<Write>)
    requires uid in s.byUID
    ensures OnlyReports(s, NoteAcked(s, uid, report, fails), uid)
  {
    hide OnlyReports, UpdateConn, SetAckedOp;
    var st := s.byUID[uid];
    var hash := if report.hash != "" then Some(report.hash) else None;
    var s1 := UpdateConn(s, uid, st.(acked := hash));
    UpdateOnly(s, uid, st.(acked := hash));
    AckedOnly(s1, uid, st.agent, hash, fails);
    OnlyReportsTrans(s, s1, SetAckedOp(s1, uid, st.agent, hash, fails), uid);
    NothingReported(s, uid);
  }

  lemma NothingReported(s: State, uid: string)
    ensures OnlyReports(s, s, uid)
  {
  }

  lemma UpdateOnly(s: State, uid: string, st: AgentConn)
    requires uid in s.byUID && SameConnElse(s.byUID[uid], st)
    ensures OnlyReports(s, UpdateConn(s, uid, st), uid)
  {
  }

  lemma AckedOnly(s: State, uid: string, id: nat, acked: Option<string>, fails: set<Write>)
    ensures OnlyReports(s, SetAckedOp(s, uid, id, acked, fails), uid)
  {
  }

  lemma NoteStatusOnly(s: State, uid: string, status: Status, report: ConfigReport, fails: set<Write>)
    requires uid in s.byUID
    ensures OnlyReports(s, NoteStatus(s, uid, status, report, fails), uid)
  {
  }

  lemma ConfigReportOnly(s: State, uid: string, report: ConfigReport, fails: set<Write>)
    requires uid in s.byUID
    ensures OnlyReports(s, HandleConfigReport(s, uid, report, fails), uid)
  {
    NoteAckedOnly(s, uid, report, fails);
    var s1 := NoteAcked(s, uid, report, fails);
    NoteStatusOnly(s1, uid, MapStatus(report.status), report, fails);
    OnlyReportsTrans(s, s1, NoteStatus(s1, uid, MapStatus(report.status), report, fails), uid);
    hide *;
    ConfigReportCases(s, uid, report, fails);
  }

  lemma ConfigReportCases(s: State, uid: string, report: ConfigReport, fails: set<Write>)
    requires uid in s.byUID
    ensures var s1 := NoteAcked(s, uid, report, fails);
            var s2 := HandleConfigReport(s, uid, report, fails);
            uid in s1.byUID && (s2 == s1 || s2 == NoteStatus(s1, uid, MapStatus(report.status), report, fails))
  {
    NoteAckedOnly(s, uid, report, fails);
  }

  lemma HealthOnly(s: State, uid: string, healthy: bool, fails: set<Write>)
    requires uid in s.byUID
    ensures OnlyReports(s, HandleHealth(s, uid, healthy, fails), uid)
  {
  }

  lemma ReportOnly(s: State, msg: Message, fails: set<Write>)
    requires msg.uid in s.byUID
    ensures OnlyReports(s, Report(s, msg, fails), msg.uid)
  {
    hide HandleConfigReport, HandleHealth;
    var uid := msg.uid;
    var s1 := if msg.config.Some? then HandleConfigReport(s, uid, msg.config.value, fails) else s;
    if msg.config.Some? {
      ConfigReportOnly(s, uid, msg.config.value, fails);
    }
    assert OnlyReports(s, s1, uid);
    if msg.health.Some? {
      HealthOnly(s1, uid, msg.health.value, fails);
      OnlyReportsTrans(s, s1, Report(s, msg, fails), uid);
    }
  }

  // ---------------------------------------------------------------------
  // Processing one accepted message

  /** The registry after a put. */
  lemma PutConnCurrent(s: State, uid: string, st: AgentConn)
    requires ConnsCurrent(s)
    ensures ConnsCurrent(PutConn(s, uid, st))
  {
  }

  /** Processing binds the UID to the connection, keeps everyone's identity, and touches no other row. */
  ghost predicate Processed(s: State, s': State, conn: Option<nat>, uid: string, now: int, st: AgentConn) {
    && s'.nextId == s.nextId
    && s'.agents.Keys == s.agents.Keys && s'.byUID.Keys == s.byUID.Keys + {uid}
    && (forall u <- s.agents :: u != uid ==> s'.agents[u] == s.agents[u])
    && (forall u <- s.byUID :: u != uid ==> s'.byUID[u] == s.byUID[u])
    && (uid in s.agents ==> s'.agents[uid].id == s.agents[uid].id && s'.agents[uid].customer == s.agents[uid].customer)
    && var a := s'.byUID[uid];
       a.conn == conn && a.agent == st.agent && a.customer == st.customer && a.lastSeen == now && a.dirty
  }

  /** A write to one row that keeps its identity. */
  ghost predicate OnlyRow(s: State, s': State, uid: string) {
    && s'.byConn == s.byConn && s'.byUID == s.byUID && s'.nextId == s.nextId
    && s'.agents.Keys == s.agents.Keys
    && (forall u <- s.agents :: u != uid ==> s'.agents[u] == s.agents[u])
    && (uid in s.agents ==> s'.agents[uid].id == s.agents[uid].id && s'.agents[uid].customer == s.agents[uid].customer)
  }

  lemma ConnectedOnly(s: State, uid: string, id: nat, connected: bool, at: int, fails: set<Write>)
    ensures OnlyRow(s, SetConnectedOp(s, uid, id, connected, at, fails), uid)
  {
  }

  lemma DescriptionOnly(s: State, uid: string, id: nat, capabilities: Capabilities, fails: set<Write>)
    ensures OnlyRow(s, SetDescriptionOp(s, uid, id, capabilities, fails), uid)
  {
  }

  lemma ArriveEffect(s: State, conn: Option<nat>, msg: Message, now: int, fails: set<Write>,
                     prev: Option<AgentConn>, st: AgentConn)
    requires ConnsCurrent(s)
    ensures var s' := Arrive(s, conn, msg, now, fails, prev, st);
            ConnsCurrent(s') && Processed(s, s', conn, msg.uid, now, st)
  {
    hide PutConn, ConnsCurrent, SetConnectedOp, SetDescriptionOp;
    var st1 := st.(conn := conn, lastSeen := now, dirty := true,
                   capabilities := if msg.capabilities != {} then msg.capabilities else st.capabilities);
    DescriptionOnly(s, msg.uid, st.agent, msg.capabilities, fails);
    var s1 := if msg.described && prev.Some? then SetDescriptionOp(s, msg.uid, st.agent, msg.capabilities, fails) else s;
    PutConnEffect(s1, msg.uid, st1);
    SameRegistry(s, s1);
    PutConnCurrent(s1, msg.uid, st1);
    var s2 := PutConn(s1, msg.uid, st1);
    ConnectedOnly(s2, msg.uid, st.agent, true, now, fails);
    SameRegistry(s2, Arrive(s, conn, msg, now, fails, prev, st));
  }

  lemma ReportProcessed(s: State, s1: State, s2: State, conn: Option<nat>, uid: string, now: int, st: AgentConn)
    requires Processed(s, s1, conn, uid, now, st) && ConnsCurrent(s1) && OnlyReports(s1, s2, uid)
    ensures Processed(s, s2, conn, uid, now, st) && ConnsCurrent(s2)
  {
  }

  lemma OfferProcessed(s: State, s1: State, conn: Option<nat>, uid: string, now: int, st: AgentConn,
                       desired: map<nat, string>, fails: set<Write>)
    requires Processed(s, s1, conn, uid, now, st) && ConnsCurrent(s1)
    ensures var s2 := MaybeOffer(s1, uid, desired, fails).0;
            Processed(s, s2, conn, uid, now, st) && ConnsCurrent(s2)
  {
  }

  lemma ProcessEffect(s: State, conn: Option<nat>, msg: Message, now: int, desired: map<nat, string>, fails: set<Write>,
                      prev: Option<AgentConn>, st: AgentConn)
    requires ConnsCurrent(s)
    ensures var s' := Process(s, conn, msg, now, desired, fails, prev, st).0;
            ConnsCurrent(s') && Processed(s, s', conn, msg.uid, now, st)
  {
    hide Report, Arrive, MaybeOffer, ConnsCurrent, Processed, OnlyReports;
    var s1 := Arrive(s, conn, msg, now, fails, prev, st);
    ArriveEffect(s, conn, msg, now, fails, prev, st);
    assert msg.uid in s1.byUID by { ArrivedKey(s, s1, conn, msg.uid, now, st); }
    var s2 := Report(s1, msg, fails);
    ReportOnly(s1, msg, fails);
    ReportProcessed(s, s1, s2, conn, msg.uid, now, st);
    OfferProcessed(s, s2, conn, msg.uid, now, st, desired, fails);
  }

  lemma ArrivedKey(s: State, s1: State, conn: Option<nat>, uid: string, now: int, st: AgentConn)
    requires Processed(s, s1, conn, uid, now, st)
    ensures uid in s1.byUID
  {
  }

  lemma PutConnEffect(s: State, uid: string, st: AgentConn)
    ensures var s' := PutConn(s, uid, st);
            && s'.agents == s.agents && s'.nextId == s.nextId && s'.events == s.events && s'.notices == s.notices
            && s'.byUID == s.byUID[uid := st]
  {
  }

  lemma ProcessJoined(s: State, conn: Option<nat>, msg: Message, now: int, desired: map<nat, string>,
                      fails: set<Write>, prev: Option<AgentConn>, st: AgentConn)
    requires Joined(s)
    requires msg.uid in s.agents ==> s.agents[msg.uid].id == st.agent && s.agents[msg.uid].customer == st.customer
    ensures var s' := Process(s, conn, msg, now, desired, fails, prev, st).0;
            Joined(s') && Processed(s, s', conn, msg.uid, now, st)
  {
    hide Process, ConnsCurrent;
    ProcessEffect(s, conn, msg, now, desired, fails, prev, st);
    var s' := Process(s, conn, msg, now, desired, fails, prev, st).0;
    forall u ensures SameAgent(s', u) {
      assert SameAgent(s, u);
    }
  }

  // ---------------------------------------------------------------------
  // Resolving

  /** Resolving leaves the registry alone and answers with the row's own agent and customer. */
  ghost predicate ResolvedFor(s: State, s': State, auth: Auth, uid: string, r: Resolved) {
    && s'.byUID == s.byUID && s'.byConn == s.byConn
    && (forall u <- s.agents :: u in s'.agents && s'.agents[u] == s.agents[u])
    && (forall u <- s'.agents :: u != uid ==> u in s.agents)
    && (r.Found? ==> uid in s'.agents && r.st.agent == s'.agents[uid].id && r.st.customer == s'.agents[uid].customer == auth.customer)
  }

  lemma {:induction false} ResolveEffect(s: State, conn: Option<nat>, auth: Auth, msg: Message, now: int,
                                         fails: set<Write>, race: Option<nat>)
    ensures var (s', r) := Resolve(s, conn, auth, msg, now, fails, race);
            ResolvedFor(s, s', auth, msg.uid, r)
    decreases msg.described
  {
    if Lookup !in fails && msg.uid !in s.agents && msg.described && race.Some? {
      ResolveEffect(EnrollOp(s, msg.uid, race.value, {}, now), conn, auth, Message(msg.uid, {}, false, None, None), now, fails, None);
    }
  }

  /** A message either leaves the registry alone or is processed for an agent of its own customer. */
  ghost predicate Handled(s: State, s': State, conn: Option<nat>, customer: nat, uid: string) {
    || s'.byUID == s.byUID
    || (&& s'.byUID.Keys == s.byUID.Keys + {uid}
        && (forall u <- s.byUID :: u != uid ==> s'.byUID[u] == s.byUID[u])
        && s'.byUID[uid].conn == conn && s'.byUID[uid].customer == customer)
  }

  lemma MessageJoined(s: State, conn: Option<nat>, auth: Auth, msg: Message, now: int,
                      desired: map<nat, string>, fails: set<Write>, race: Option<nat>)
    requires Joined(s)
    ensures var s' := HandleMessage(s, conn, auth, msg, now, desired, fails, race).0;
            Joined(s') && Handled(s, s', conn, auth.customer, msg.uid)
  {
    hide Process, Resolve, ConnsCurrent;
    if msg.uid in s.byUID {
      assert SameAgent(s, msg.uid);
      if s.byUID[msg.uid].customer == auth.customer {
        ProcessJoined(s, conn, msg, now, desired, fails, Some(s.byUID[msg.uid]), s.byUID[msg.uid]);
      }
    } else {
      ResolveEffect(s, conn, auth, msg, now, fails, race);
      var (s1, r) := Resolve(s, conn, auth, msg, now, fails, race);
      ResolvedJoined(s, s1, auth, msg.uid, r);
      if r.Found? {
        ProcessJoined(s1, conn, msg, now, desired, fails, None, r.st);
      }
    }
  }

  lemma ResolvedJoined(s: State, s1: State, auth: Auth, uid: string, r: Resolved)
    requires Joined(s) && ResolvedFor(s, s1, auth, uid, r) && uid !in s.byUID
    ensures Joined(s1)
  {
    forall u ensures SameAgent(s1, u) {
      assert SameAgent(s, u);
    }
  }

  lemma SameRegistry(s: State, s': State)
    requires ConnsCurrent(s) && s'.byUID == s.byUID && s'.byConn == s.byConn
    ensures ConnsCurrent(s')
  {
  }

  // ---------------------------------------------------------------------
  // Every step

  lemma CloseJoined(s: State, conn: nat, fails: set<Write>)
    requires Joined(s)
    ensures var s' := HandleClose(s, conn, fails);
            && Joined(s') && s'.byConn == s.byConn - {conn}
            && (conn !in s.byConn ==> s' == s)
            && (conn in s.byConn ==> s'.byUID == s.byUID - {s.byConn[conn]})
  {
    var s' := HandleClose(s, conn, fails);
    if conn in s.byConn {
      var uid := s.byConn[conn];
      assert forall c <- s'.byConn :: s.byConn[c] != uid;
      forall u ensures SameAgent(s', u) {
        assert SameAgent(s, u);
      }
    } else {
      assert s.byConn - {conn} == s.byConn;
    }
  }

  lemma OtherJoined(s: State, input: Input)
    requires Joined(s) && (input.Push? || input.Flush? || input.Delete? || input.Restart?)
    ensures Joined(Step(s, input))
  {
    var s' := Step(s, input);
    forall u ensures SameAgent(s', u) {
      assert SameAgent(s, u);
    }
  }

  lemma StepJoined(s: State, input: Input)
    requires Joined(s)
    ensures Joined(Step(s, input))
  {
    hide Joined, HandleMessage, HandleClose;
    match input
    case Receive(conn, auth, msg, now, desired, fails, race) =>
      MessageJoined(s, conn, auth, msg, now, desired, fails, race);
    case Close(conn, fails) => CloseJoined(s, conn, fails);
    case _ => OtherJoined(s, input);
  }

  lemma StepBound(s: State, authOf: nat -> Auth, input: Input)
    requires Bound(s, authOf) && Faithful(input, authOf)
    ensures Bound(Step(s, input), authOf)
  {
    hide Joined, HandleMessage, HandleClose;
    StepJoined(s, input);
    match input {
      case Receive(conn, auth, msg, now, desired, fails, race) =>
        MessageJoined(s, conn, auth, msg, now, desired, fails, race);
      case Close(conn, fails) => CloseJoined(s, conn, fails);
      case _ =>
    }
    var s' := Step(s, input);
    forall u ensures Authentic(s', authOf, u) {
      assert Authentic(s, authOf, u);
    }
  }

  /** Registry, rows and connections stay bound together over every run, whatever writes fail,
      and across deletions, re-enrolments and restarts. */
  lemma {:induction false} RunBound(s: State, authOf: nat -> Auth, inputs: seq<Input>)
    requires Bound(s, authOf) && forall input <- inputs :: Faithful(input, authOf)
    ensures Bound(Run(s, inputs), authOf)
    decreases |inputs|
  {
    hide Bound, Step;
    if inputs != [] {
      StepBound(s, authOf, inputs[0]);
      RunBound(Step(s, inputs[0]), authOf, inputs[1..]);
    }
  }

  // ---------------------------------------------------------------------
  // Consequences

  lemma OfferRendered(s: State, conn: Option<nat>, msg: Message, now: int, desired: map<nat, string>, fails: set<Write>,
                      prev: Option<AgentConn>, st: AgentConn)
    requires ConnsCurrent(s)
    ensures var offer := Process(s, conn, msg, now, desired, fails, prev, st).1.offer;
            offer.Some? ==> st.customer in desired && offer.value == desired[st.customer]
  {
    hide Report, Arrive, ConnsCurrent;
    ArriveEffect(s, conn, msg, now, fails, prev, st);
    ReportOnly(Arrive(s, conn, msg, now, fails, prev, st), msg, fails);
  }

  /** The config a message is answered with is the one rendered for the customer it came from. */
  lemma OfferOwn(s: State, conn: Option<nat>, auth: Auth, msg: Message, now: int, desired: map<nat, string>,
                 fails: set<Write>, race: Option<nat>)
    requires ConnsCurrent(s)
    ensures var offer := HandleMessage(s, conn, auth, msg, now, desired, fails, race).1.offer;
            offer.Some? ==> auth.customer in desired && offer.value == desired[auth.customer]
  {
    hide Process, Resolve, ConnsCurrent;
    if msg.uid in s.byUID {
      OfferRendered(s, conn, msg, now, desired, fails, Some(s.byUID[msg.uid]), s.byUID[msg.uid]);
    } else {
      ResolveEffect(s, conn, auth, msg, now, fails, race);
      var (s1, r) := Resolve(s, conn, auth, msg, now, fails, race);
      SameRegistry(s, s1);
      if r.Found? {
        OfferRendered(s1, conn, msg, now, desired, fails, None, r.st);
      }
    }
  }

  /** A pushed config goes out on connections of its customer only. */
  lemma PushOwn(s: State, authOf: nat -> Auth, customer: nat, desired: map<nat, string>, fails: set<Write>, sent: Sent)
    requires Bound(s, authOf) && sent in HandlePush(s, customer, desired, fails).1
    ensures customer in desired && sent.body == desired[customer]
    ensures sent.conn.Some? && authOf(sent.conn.value).customer == customer
  {
    hide ConnsCurrent;
    var uid :| uid in s.byUID && Targeted(s, uid, customer) && s.byUID[uid].conn.Some? &&
        sent == Sent(s.byUID[uid].conn, desired[customer]);
    assert Authentic(s, authOf, uid);
  }

  /** Known to belong to another customer: by the registry, or else by its row. */
  ghost predicate Foreign(s: State, uid: string, customer: nat) {
    if uid in s.byUID then s.byUID[uid].customer != customer else uid in s.agents && s.agents[uid].customer != customer
  }

  /** A message in the name of another customer's agent is refused and leaves no trace. */
  lemma ForeignRefused(s: State, conn: Option<nat>, auth: Auth, msg: Message, now: int, desired: map<nat, string>,
                       fails: set<Write>, race: Option<nat>)
    requires Foreign(s, msg.uid, auth.customer) && (msg.uid in s.byUID || Lookup !in fails)
    ensures HandleMessage(s, conn, auth, msg, now, desired, fails, race) == (s, Response(true, false, None))
  {
    hide Process;
  }

  /** Every config offered or pushed on a connection, at any point of any run, is the one rendered
      at that moment for the customer the connection authenticated as. */
  lemma SendsOwnCustomer(authOf: nat -> Auth, inputs: seq<Input>, input: Input, sent: Sent)
    requires (forall i <- inputs :: Faithful(i, authOf)) && Faithful(input, authOf)
    requires sent in Sends(Run(START, inputs), input) && sent.conn.Some?
    ensures var customer := authOf(sent.conn.value).customer;
            customer in input.desired && input.desired[customer] == sent.body
  {
    hide Run, HandleMessage, HandlePush, ConnsCurrent;
    assert Bound(START, authOf) by { StartBound(authOf); }
    RunBound(START, authOf, inputs);
    var s := Run(START, inputs);
    match input
    case Receive(conn, auth, msg, now, desired, fails, race) =>
      OfferOwn(s, conn, auth, msg, now, desired, fails, race);
    case Push(customer, desired, fails) =>
      PushOwn(s, authOf, customer, desired, fails, sent);
    case _ =>
  }

  lemma {:induction false} RunNext(s: State, inputs: seq<Input>, input: Input)
    ensures Run(s, inputs + [input]) == Step(Run(s, inputs), input)
    decreases |inputs|
  {
    hide Step;
    if inputs == [] {
      assert inputs + [input] == [input];
    } else {
      assert (inputs + [input])[1..] == inputs[1..] + [input];
      RunNext(Step(s, inputs[0]), inputs[1..], input);
    }
  }

  lemma {:induction false} WithoutLast(events: seq<Event>, e: Event, id: nat)
    ensures Without(events + [e], id) == Without(events, id) + if e.agent == id then [] else [e]
  {
    if events == [] {
      assert events + [e] == [e];
    } else {
      assert (events + [e])[1..] == events[1..] + [e];
      WithoutLast(events[1..], e, id);
    }
  }

  lemma StartBound(authOf: nat -> Auth)
    ensures Bound(START, authOf)
  {
  }

  /** Once a message moves an agent to another connection, closing the old one changes nothing
      and tells no one. */
  lemma ReplacedCloseIsSilent(s: State, authOf: nat -> Auth, input: Input, former: nat, fails: set<Write>)
    requires Bound(s, authOf) && Faithful(input, authOf) && input.Receive?
    requires input.msg.uid in s.byUID && s.byUID[input.msg.uid].conn == Some(former)
    requires Step(s, input).byUID[input.msg.uid].conn != Some(former)
    ensures HandleClose(Step(s, input), former, fails) == Step(s, input)
  {
    hide Process, Resolve;
    var s' := Step(s, input);
    StepBound(s, authOf, input);
    var Receive(conn, auth, msg, now, desired, fails', race) := input;
    var st := s.byUID[msg.uid];
    ProcessEffect(s, conn, msg, now, desired, fails', Some(st), st);
    assert st.customer == auth.customer && conn != Some(former);
    ProcessUnbinds(s, conn, msg, now, desired, fails', Some(st), st, former);
  }

  lemma ProcessUnbinds(s: State, conn: Option<nat>, msg: Message, now: int, desired: map<nat, string>, fails: set<Write>,
                       prev: Option<AgentConn>, st: AgentConn, former: nat)
    requires ConnsCurrent(s) && msg.uid in s.byUID && s.byUID[msg.uid].conn == Some(former) && conn != Some(former)
    ensures former !in Process(s, conn, msg, now, desired, fails, prev, st).0.byConn
  {
    hide Report;
    var s1 := Arrive(s, conn, msg, now, fails, prev, st);
    assert former !in s1.byConn;
    ReportOnly(s1, msg, fails);
  }
}
