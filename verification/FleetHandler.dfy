/** The OpAMP handler as it runs: one object whose methods update the registry and the store. It
    remembers the inputs it took, so what holds over every run is a contract of its methods. */
module FleetHandler {
  import opened Prelude
  import opened Fleet
  import opened FleetInvariants

  class Handler {
    var agents: map<string, Row>
    var nextId: nat
    var events: seq<Event>
    var byUID: map<string, AgentConn>
    var byConn: map<nat, string>
    var notices: seq<Notice>
    ghost var history: seq<Input>

    /** What each connection authenticated as. */
    ghost const authOf: nat -> Auth

    ghost function Snapshot(): State
      reads this
    {
      State(agents, nextId, events, byUID, byConn, notices)
    }

    /** The tables and the registry are in the state the inputs so far lead to. */
    ghost predicate Valid()
      reads this
    {
      Snapshot() == Run(START, history) && forall input <- history :: Faithful(input, authOf)
    }

    constructor (ghost authOf: nat -> Auth)
      ensures this.authOf == authOf && history == [] && Valid()
    {
      this.authOf := authOf;
      agents, nextId, events, byUID, byConn, notices, history := map[], 0, [], map[], map[], [], [];
    }

    /** Appends an input to the history before the code takes its step. */
    ghost method Note(input: Input)
      requires Valid() && Faithful(input, authOf)
      modifies this`history
      ensures history == old(history) + [input] && (forall i <- history :: Faithful(i, authOf))
      ensures Run(START, history) == Step(Snapshot(), input) && Bound(Snapshot(), authOf)
    {
      hide Step, Bound, Run;
      StartBound(authOf);
      RunBound(START, authOf, history);
      RunNext(START, history, input);
      history := history + [input];
    }

    // --- registry ---

    method Put(uid: string, st: AgentConn)
      modifies this`byUID, this`byConn
      ensures Snapshot() == PutConn(old(Snapshot()), uid, st) && uid in byUID
    {
      if uid in byUID && byUID[uid].conn != st.conn && byUID[uid].conn.Some? {
        byConn := byConn - {byUID[uid].conn.value};
      }
      byUID := byUID[uid := st];
      if st.conn.Some? {
        byConn := byConn[st.conn.value := uid];
      }
    }

    /** Forgets a closed connection and returns the agent it was still current for. */
    method RemoveConn(conn: nat) returns (gone: Option<string>, st: Option<AgentConn>)
      modifies this`byUID, this`byConn
      ensures byConn == old(byConn) - {conn}
      ensures gone.Some? <==> conn in old(byConn) && old(byConn)[conn] in old(byUID) && old(byUID)[old(byConn)[conn]].conn == Some(conn)
      ensures gone.Some? ==> gone.value == old(byConn)[conn] && st == Some(old(byUID)[gone.value]) && byUID == old(byUID) - {gone.value}
      ensures gone.None? ==> byUID == old(byUID)
    {
      gone, st := None, None;
      if conn !in byConn {
        assert byConn - {conn} == byConn;
        return;
      }
      var uid := byConn[conn];
      byConn := byConn - {conn};
      if uid in byUID && byUID[uid].conn == Some(conn) {
        gone, st := Some(uid), Some(byUID[uid]);
        byUID := byUID - {uid};
      }
    }

    // --- store ---

    method InsertEvent(uid: string, id: nat, kind: Kind)
      modifies this`events
      ensures Snapshot() == Log(old(Snapshot()), uid, id, kind)
    {
      events := events + [Event(uid, id, kind)];
    }

    method SetAgentConnected(uid: string, id: nat, connected: bool, at: int, fails: set<Write>)
      modifies this`agents, this`events
      ensures Snapshot() == SetConnectedOp(old(Snapshot()), uid, id, connected, at, fails)
    {
      if SetConnected in fails || uid !in agents || agents[uid].id != id {
        return;
      }
      var row := agents[uid];
      agents := agents[uid := row.(connected := connected, lastSeen := Max(row.lastSeen, at))];
      InsertEvent(uid, id, if connected then Connected else Disconnected);
    }

    method EnrollAgent(uid: string, customer: nat, capabilities: Capabilities, now: int)
      modifies this`agents, this`events, this`nextId
      ensures Snapshot() == EnrollOp(old(Snapshot()), uid, customer, capabilities, now)
    {
      var id := nextId;
      agents := agents[uid := Row(id, customer, capabilities, None, None, Unset, None, None, false, now)];
      nextId := nextId + 1;
      InsertEvent(uid, id, Enrolled);
    }

    // --- message handling ---

    /** Looks the agent up, enrolling it when unknown; losing an enrolment race re-resolves once. */
    method ResolveAgent(conn: Option<nat>, auth: Auth, msg: Message, now: int, fails: set<Write>, race: Option<nat>) returns (r: Resolved)
      modifies this`agents, this`events, this`nextId
      ensures (Snapshot(), r) == Resolve(old(Snapshot()), conn, auth, msg, now, fails, race)
      decreases msg.described
    {
      hide EnrollOp;
      if Lookup in fails {
        return AskFullState;
      }
      if msg.uid in agents {
        var row := agents[msg.uid];
        return if row.customer != auth.customer then Reject else Found(Seed(conn, auth.customer, row));
      }
      if !msg.described {
        return AskFullState;
      }
      if race.Some? {
        EnrollAgent(msg.uid, race.value, {}, now);
        r := ResolveAgent(conn, auth, Message(msg.uid, {}, false, None, None), now, fails, None);
        return;
      }
      if Enroll in fails {
        return AskFullState;
      }
      EnrollAgent(msg.uid, auth.customer, msg.capabilities, now);
      EnrolledRow(old(Snapshot()), msg.uid, auth.customer, msg.capabilities, now);
      return Found(Seed(conn, auth.customer, agents[msg.uid]));
    }

    method SetAgentAckedConfig(uid: string, id: nat, acked: Option<string>, fails: set<Write>)
      modifies this`agents
      ensures Snapshot() == SetAckedOp(old(Snapshot()), uid, id, acked, fails)
    {
      if SetAcked !in fails && uid in agents && agents[uid].id == id {
        agents := agents[uid := agents[uid].(acked := acked)];
      }
    }

    method SetAgentRemoteConfigStatus(uid: string, id: nat, status: Status, error: Option<string>, event: Option<Kind>,
                                      fails: set<Write>) returns (ok: bool)
      modifies this`agents, this`events
      ensures (Snapshot(), ok) == SetStatusOp(old(Snapshot()), uid, id, status, error, event, fails)
    {
      if SetStatus in fails || uid !in agents || agents[uid].id != id {
        return false;
      }
      agents := agents[uid := agents[uid].(status := status, error := error)];
      if event.Some? {
        InsertEvent(uid, id, event.value);
      }
      return true;
    }

    /** Remembers the acknowledged hash; the row is written only when it changes or is cleared. */
    method AcknowledgeHash(uid: string, report: ConfigReport, fails: set<Write>) returns (newHash: bool)
      requires uid in byUID
      modifies this`agents, this`byUID
      ensures Snapshot() == NoteAcked(old(Snapshot()), uid, report, fails) && uid in byUID
      ensures newHash <==> report.hash != "" && Some(report.hash) != old(byUID)[uid].acked
    {
      hide SetAckedOp;
      var st := byUID[uid];
      newHash := report.hash != "" && Some(report.hash) != st.acked;
      if report.hash != "" {
        byUID := byUID[uid := st.(acked := Some(report.hash))];
        if newHash {
          SetAgentAckedConfig(uid, st.agent, Some(report.hash), fails);
        }
      } else if MapStatus(report.status) == Unset {
        byUID := byUID[uid := st.(acked := None)];
        SetAgentAckedConfig(uid, st.agent, None, fails);
      }
    }

    method RecordStatus(uid: string, status: Status, report: ConfigReport, fails: set<Write>)
      requires uid in byUID
      modifies this`agents, this`events, this`byUID, this`notices
      ensures Snapshot() == NoteStatus(old(Snapshot()), uid, status, report, fails) && uid in byUID
    {
      hide SetStatusOp;
      var st := byUID[uid];
      var error: Option<string>, event: Option<Kind> := None, None;
      match status {
        case Applied => event := Some(ConfigApplied(report.hash));
        case Failed =>
          event := Some(ConfigFailed(report.hash));
          if report.error != "" {
            error := Some(report.error);
          }
        case _ =>
      }
      var ok := SetAgentRemoteConfigStatus(uid, st.agent, status, error, event, fails);
      if !ok {
        return;
      }
      if status == Failed {
        notices := notices + [AgentConfigFailed(st.agent)];
      }
      byUID := byUID[uid := st.(status := status)];
    }

    method HandleRemoteConfigStatus(uid: string, report: ConfigReport, fails: set<Write>)
      requires uid in byUID
      modifies this`agents, this`events, this`byUID, this`notices
      ensures Snapshot() == HandleConfigReport(old(Snapshot()), uid, report, fails) && uid in byUID
    {
      hide NoteAcked, NoteStatus;
      var before := byUID[uid].status;
      var status := MapStatus(report.status);
      var newHash := AcknowledgeHash(uid, report, fails);
      if status == before && !(newHash && Terminal(status)) {
        return;
      }
      RecordStatus(uid, status, report, fails);
    }

    method HandleHealthReport(uid: string, healthy: bool, fails: set<Write>)
      requires uid in byUID
      modifies this`agents, this`events, this`byUID, this`notices
      ensures Snapshot() == HandleHealth(old(Snapshot()), uid, healthy, fails) && uid in byUID
    {
      var st := byUID[uid];
      var flips := st.healthy != Some(healthy);
      if SetHealth in fails || uid !in agents || agents[uid].id != st.agent {
        return;
      }
      agents := agents[uid := agents[uid].(healthy := Some(healthy))];
      if flips {
        InsertEvent(uid, st.agent, if healthy then Healthy else Unhealthy);
      }
      if flips && !healthy {
        notices := notices + [AgentUnhealthy(st.agent)];
      }
      byUID := byUID[uid := st.(healthy := Some(healthy))];
    }

    method MaybeOfferConfig(uid: string, desired: map<nat, string>, fails: set<Write>) returns (offer: Option<string>)
      requires uid in byUID
      modifies this`agents
      ensures (Snapshot(), offer) == MaybeOffer(old(Snapshot()), uid, desired, fails)
    {
      var st := byUID[uid];
      if ACCEPTS_REMOTE_CONFIG !in st.capabilities || st.customer !in desired {
        return None;
      }
      var body := desired[st.customer];
      if SetAssigned !in fails && uid in agents && agents[uid].id == st.agent {
        agents := agents[uid := agents[uid].(wanted := Some(body))];
      }
      return if st.acked == Some(body) then None else Some(body);
    }

    /** Refreshes the description, registers the agent on this connection and, once per
        connection, marks it connected. */
    method RegisterAgent(conn: Option<nat>, msg: Message, now: int, fails: set<Write>, prev: Option<AgentConn>, st0: AgentConn)
      modifies this`agents, this`events, this`byUID, this`byConn
      ensures Snapshot() == Arrive(old(Snapshot()), conn, msg, now, fails, prev, st0) && msg.uid in byUID
    {
      hide PutConn, SetConnectedOp;
      var newConn := prev.None? || prev.value.conn != conn;
      var st := st0.(conn := conn, lastSeen := now, dirty := true);
      if msg.capabilities != {} {
        st := st.(capabilities := msg.capabilities);
      }
      if msg.described && prev.Some? && SetDescription !in fails && msg.uid in agents && agents[msg.uid].id == st.agent
         && msg.capabilities != {} {
        agents := agents[msg.uid := agents[msg.uid].(capabilities := msg.capabilities)];
      }
      Put(msg.uid, st);
      if newConn {
        SetAgentConnected(msg.uid, st.agent, true, now, fails);
      }
      ArrivedKnown(old(Snapshot()), conn, msg, now, fails, prev, st0);
    }

    method ReportMessage(msg: Message, fails: set<Write>)
      requires msg.uid in byUID
      modifies this`agents, this`events, this`byUID, this`notices
      ensures Snapshot() == Report(old(Snapshot()), msg, fails) && msg.uid in byUID
    {
      hide HandleConfigReport, HandleHealth;
      if msg.config.Some? {
        HandleRemoteConfigStatus(msg.uid, msg.config.value, fails);
      }
      if msg.health.Some? {
        HandleHealthReport(msg.uid, msg.health.value, fails);
      }
    }

    method ProcessMessage(conn: Option<nat>, msg: Message, now: int, desired: map<nat, string>, fails: set<Write>,
                          prev: Option<AgentConn>, st0: AgentConn) returns (resp: Response)
      modifies this`agents, this`events, this`byUID, this`notices, this`byConn
      ensures (Snapshot(), resp) == Process(old(Snapshot()), conn, msg, now, desired, fails, prev, st0)
    {
      hide Report, Arrive, MaybeOffer;
      var newConn := prev.None? || prev.value.conn != conn;
      RegisterAgent(conn, msg, now, fails, prev, st0);
      ReportMessage(msg, fails);
      resp := Response(false, false, None);
      if newConn || msg.described {
        var offer := MaybeOfferConfig(msg.uid, desired, fails);
        resp := Response(false, offer.Some?, offer);
      }
    }

    method HandleIncoming(conn: Option<nat>, auth: Auth, msg: Message, now: int, desired: map<nat, string>,
                          fails: set<Write>, race: Option<nat>) returns (resp: Response)
      modifies this`agents, this`nextId, this`events, this`byUID, this`byConn, this`notices
      ensures (Snapshot(), resp) == HandleMessage(old(Snapshot()), conn, auth, msg, now, desired, fails, race)
    {
      hide Process, Resolve;
      if msg.uid == "" {
        return Response(true, false, None);
      }
      var prev: Option<AgentConn> := None;
      var found: Resolved;
      if msg.uid in byUID {
        prev := Some(byUID[msg.uid]);
        found := if prev.value.customer != auth.customer then Reject else Found(prev.value);
      } else {
        found := ResolveAgent(conn, auth, msg, now, fails, race);
      }
      match found
      case Reject => return Response(true, false, None);
      case AskFullState => return Response(false, true, None);
      case Found(st) =>
        if auth.agent.Some? && st.agent != auth.agent.value {
          return Response(true, false, None);
        }
        resp := ProcessMessage(conn, msg, now, desired, fails, prev, st);
    }

    /** Answers one message. An offer is the config rendered for the customer the connection
        authenticated as; a message in the name of another customer's agent changes nothing. */
    method Receive(conn: Option<nat>, auth: Auth, msg: Message, now: int, desired: map<nat, string>,
                   fails: set<Write>, race: Option<nat>) returns (resp: Response)
      requires Valid() && (conn.Some? ==> auth == authOf(conn.value))
      modifies this
      ensures Valid() && history == old(history) + [Input.Receive(conn, auth, msg, now, desired, fails, race)]
      ensures (Snapshot(), resp) == HandleMessage(old(Snapshot()), conn, auth, msg, now, desired, fails, race)
      ensures resp.offer.Some? ==> auth.customer in desired && resp.offer.value == desired[auth.customer]
      ensures Foreign(old(Snapshot()), msg.uid, auth.customer) && (msg.uid in old(byUID) || Lookup !in fails) ==>
                resp == Response(true, false, None) && Snapshot() == old(Snapshot())
    {
      hide HandleMessage, Run, ConnsCurrent, Foreign;
      Note(Input.Receive(conn, auth, msg, now, desired, fails, race));
      OfferOwn(Snapshot(), conn, auth, msg, now, desired, fails, race);
      if Foreign(Snapshot(), msg.uid, auth.customer) && (msg.uid in byUID || Lookup !in fails) {
        ForeignRefused(Snapshot(), conn, auth, msg, now, desired, fails, race);
      }
      resp := HandleIncoming(conn, auth, msg, now, desired, fails, race);
    }

    /** Forgets the connection; agents on other connections keep their entries and their rows. */
    method ConnectionClosed(conn: nat, fails: set<Write>)
      requires Valid()
      modifies this
      ensures Valid() && history == old(history) + [Close(conn, fails)]
      ensures Snapshot() == HandleClose(old(Snapshot()), conn, fails)
      ensures conn !in byConn
      ensures forall uid <- old(byUID) :: old(byUID)[uid].conn != Some(conn) ==>
                && uid in byUID && byUID[uid] == old(byUID)[uid]
                && (uid in old(agents) ==> uid in agents && agents[uid] == old(agents)[uid])
    {
      Note(Close(conn, fails));
      hide Run;
      var gone, st := RemoveConn(conn);
      if gone.None? {
        assert conn !in old(byConn) ==> byConn == old(byConn);
        return;
      }
      SetAgentConnected(gone.value, st.value.agent, false, st.value.lastSeen, fails);
      notices := notices + [AgentOffline(st.value.agent)];
    }

    /** Pushes the customer's config to its registered agents in whatever order the map yields
        them; `deaf` are the connections a push cannot reach. */
    method PushConfig(customer: nat, desired: map<nat, string>, fails: set<Write>, deaf: set<nat>) returns (sent: set<Sent>)
      modifies this`agents
      ensures var (s, all) := HandlePush(old(Snapshot()), customer, desired, fails);
              && Snapshot() == s
              && sent == set x <- all | x.conn.Some? && x.conn.value !in deaf
    {
      hide HandlePush, SentSo;
      sent := {};
      if customer !in desired {
        NothingPushed(Snapshot(), customer, desired, fails);
        return;
      }
      var body := desired[customer];
      var todo := byUID.Keys;
      ghost var s0 := old(Snapshot());
      SentNone(s0, customer, deaf, body);
      while todo != {}
        invariant todo <= byUID.Keys && agents.Keys == s0.agents.Keys
        invariant forall uid <- agents :: agents[uid] ==
                    if uid in todo then s0.agents[uid] else Pushed(s0, uid, customer, body, fails)
        invariant SentSo(sent, s0, todo, customer, deaf, body)
        decreases todo
      {
        var uid :| uid in todo;
        SentNext(sent, s0, todo, customer, deaf, body, uid);
        todo := todo - {uid};
        var st := byUID[uid];
        if st.customer == customer && ACCEPTS_REMOTE_CONFIG in st.capabilities {
          if SetAssigned !in fails && uid in agents && agents[uid].id == st.agent {
            agents := agents[uid := agents[uid].(wanted := Some(body))];
          }
          if st.conn.Some? && st.conn.value !in deaf {
            sent := sent + {Sent(st.conn, body)};
          }
        }
      }
      PushedAll(s0, customer, desired, fails, agents);
      PushedTo(s0, customer, desired, fails, deaf, sent);
    }

    /** Every push carries the customer's config and goes out on a connection of that customer. */
    method EdgeConfigChanged(customer: nat, desired: map<nat, string>, fails: set<Write>, deaf: set<nat>) returns (sent: set<Sent>)
      requires Valid()
      modifies this`agents, this`history
      ensures Valid() && history == old(history) + [Push(customer, desired, fails)]
      ensures sent == set x <- HandlePush(old(Snapshot()), customer, desired, fails).1 | x.conn.Some? && x.conn.value !in deaf
      ensures forall x <- sent :: x.conn.Some? && authOf(x.conn.value).customer == customer && customer in desired &&
                x.body == desired[customer]
    {
      hide HandlePush, Run, Bound;
      Note(Push(customer, desired, fails));
      sent := PushConfig(customer, desired, fails, deaf);
      forall x <- sent ensures authOf(x.conn.value).customer == customer && customer in desired && x.body == desired[customer] {
        PushOwn(old(Snapshot()), authOf, customer, desired, fails, x);
      }
    }

    /** Collects and clears the unflushed heartbeats. */
    method DrainDirtySeen() returns (seen: map<string, AgentConn>)
      modifies this`byUID
      ensures seen == map uid | uid in old(byUID) && old(byUID)[uid].dirty :: old(byUID)[uid]
      ensures byUID == map uid | uid in old(byUID) :: old(byUID)[uid].(dirty := false)
    {
      seen := map[];
      var todo := byUID.Keys;
      ghost var was := byUID;
      while todo != {}
        invariant todo <= was.Keys == byUID.Keys
        invariant forall uid <- was :: byUID[uid] == if uid in todo then was[uid] else was[uid].(dirty := false)
        invariant seen == map uid | uid in was && uid !in todo && was[uid].dirty :: was[uid]
        decreases todo
      {
        var uid :| uid in todo;
        todo := todo - {uid};
        if byUID[uid].dirty {
          seen := seen[uid := byUID[uid]];
          byUID := byUID[uid := byUID[uid].(dirty := false)];
        }
      }
    }

    /** Writes the collected times, keeping the latest. */
    method TouchAgents(seen: map<string, AgentConn>, fails: set<Write>)
      modifies this`agents
      ensures agents.Keys == old(agents).Keys
      ensures forall uid <- agents :: agents[uid] == Touched(old(agents)[uid], uid, seen, fails)
    {
      if Touch in fails {
        return;
      }
      var todo := seen.Keys;
      ghost var was := agents;
      while todo != {}
        invariant todo <= seen.Keys && agents.Keys == was.Keys
        invariant forall uid <- agents :: agents[uid] == if uid in todo then was[uid] else Touched(was[uid], uid, seen, fails)
        decreases todo
      {
        var uid :| uid in todo;
        todo := todo - {uid};
        if uid in agents && agents[uid].id == seen[uid].agent {
          agents := agents[uid := agents[uid].(lastSeen := Max(agents[uid].lastSeen, seen[uid].lastSeen))];
        }
      }
    }

    method FlushSeen(fails: set<Write>)
      requires Valid()
      modifies this`agents, this`byUID, this`history
      ensures Valid() && history == old(history) + [Flush(fails)]
      ensures Snapshot() == HandleFlush(old(Snapshot()), fails)
    {
      hide HandleFlush, Run;
      Note(Flush(fails));
      var seen := DrainDirtySeen();
      TouchAgents(seen, fails);
      FlushedAll(old(Snapshot()), Snapshot(), fails);
    }

    // --- deletion and restart ---

    /** Deletes a row; its events cascade. */
    method DeleteRow(uid: string)
      requires uid in agents
      modifies this`agents, this`events
      ensures agents == old(agents) - {uid} && events == Without(old(events), old(agents)[uid].id)
    {
      var id := agents[uid].id;
      var kept: seq<Event> := [];
      for i := 0 to |events|
        invariant agents == old(agents) && events == old(events)
        invariant kept == Without(events[..i], id)
      {
        WithoutNext(events, i, id);
        if events[i].agent != id {
          kept := kept + [events[i]];
        }
      }
      assert events[..|events|] == events;
      agents, events := agents - {uid}, kept;
    }

    /** Refused while the row says connected; otherwise the row goes with its events, and no other. */
    method DeleteAgent(uid: string) returns (ok: bool)
      requires Valid()
      modifies this`agents, this`events, this`history
      ensures Valid() && history == old(history) + [Delete(uid)]
      ensures ok <==> uid in old(agents) && !old(agents)[uid].connected
      ensures !ok ==> agents == old(agents) && events == old(events)
      ensures ok ==> agents == old(agents) - {uid}
      ensures ok ==> forall e: Event :: multiset(events)[e] == if e.agent == old(agents)[uid].id then 0 else multiset(old(events))[e]
    {
      hide Run, Without, Bound;
      Note(Delete(uid));
      ok := uid in agents && !agents[uid].connected;
      if ok {
        WithoutExactly(events, agents[uid].id);
        DeleteRow(uid);
      }
    }

    /** A new process starts with an empty registry over the same tables. */
    method Restart()
      requires Valid()
      modifies this`byUID, this`byConn, this`history
      ensures Valid() && history == old(history) + [Input.Restart]
      ensures byUID == map[] && byConn == map[]
    {
      Note(Input.Restart);
      byUID, byConn := map[], map[];
    }
  }

  lemma WithoutNext(events: seq<Event>, i: nat, id: nat)
    requires i < |events|
    ensures Without(events[..i + 1], id) == Without(events[..i], id) + if events[i].agent == id then [] else [events[i]]
  {
    assert events[..i + 1] == events[..i] + [events[i]];
    WithoutLast(events[..i], events[i], id);
  }

  /** The events of one agent go, every other event stays as often as it was there. */
  lemma {:induction false} WithoutExactly(events: seq<Event>, id: nat)
    ensures forall e: Event :: multiset(Without(events, id))[e] == if e.agent == id then 0 else multiset(events)[e]
  {
    if events != [] {
      WithoutExactly(events[1..], id);
      assert events == [events[0]] + events[1..];
    }
  }

  ghost function Touched(row: Row, uid: string, seen: map<string, AgentConn>, fails: set<Write>): Row {
    if Touch !in fails && uid in seen && row.id == seen[uid].agent
    then row.(lastSeen := Max(row.lastSeen, seen[uid].lastSeen)) else row
  }

  ghost function Flushed(s: State, uid: string, fails: set<Write>): Row
    requires uid in s.agents
  {
    if Touch !in fails && uid in s.byUID && s.byUID[uid].dirty && HasRow(s, uid, s.byUID[uid].agent)
    then s.agents[uid].(lastSeen := Max(s.agents[uid].lastSeen, s.byUID[uid].lastSeen)) else s.agents[uid]
  }

  lemma FlushedAll(s: State, s': State, fails: set<Write>)
    requires s'.agents.Keys == s.agents.Keys && s'.byUID.Keys == s.byUID.Keys
    requires forall uid <- s.agents :: s'.agents[uid] == Flushed(s, uid, fails)
    requires forall uid <- s.byUID :: s'.byUID[uid] == s.byUID[uid].(dirty := false)
    requires s' == s.(agents := s'.agents, byUID := s'.byUID)
    ensures s' == HandleFlush(s, fails)
  {
    assert s'.agents == HandleFlush(s, fails).agents;
    assert s'.byUID == HandleFlush(s, fails).byUID;
  }

  ghost function Pushed(s: State, uid: string, customer: nat, body: string, fails: set<Write>): Row
    requires uid in s.agents
  {
    if SetAssigned !in fails && Targeted(s, uid, customer) && HasRow(s, uid, s.byUID[uid].agent)
    then s.agents[uid].(wanted := Some(body)) else s.agents[uid]
  }

  ghost predicate Reached(s: State, uid: string, customer: nat, deaf: set<nat>) {
    Targeted(s, uid, customer) && s.byUID[uid].conn.Some? && s.byUID[uid].conn.value !in deaf
  }

  lemma ArrivedKnown(s: State, conn: Option<nat>, msg: Message, now: int, fails: set<Write>, prev: Option<AgentConn>, st: AgentConn)
    ensures msg.uid in Arrive(s, conn, msg, now, fails, prev, st).byUID
  {
  }

  /** What has been sent when these UIDs are still to come. */
  ghost predicate SentSo(sent: set<Sent>, s: State, todo: set<string>, customer: nat, deaf: set<nat>, body: string) {
    forall x :: x in sent <==> exists uid <- s.byUID ::
           uid !in todo && Reached(s, uid, customer, deaf) && x == Sent(s.byUID[uid].conn, body)
  }

  lemma SentNone(s: State, customer: nat, deaf: set<nat>, body: string)
    ensures SentSo({}, s, s.byUID.Keys, customer, deaf, body)
  {
  }

  lemma SentNext(sent: set<Sent>, s: State, todo: set<string>, customer: nat, deaf: set<nat>, body: string, uid: string)
    requires SentSo(sent, s, todo, customer, deaf, body) && uid in todo && uid in s.byUID
    ensures var sent' := if Reached(s, uid, customer, deaf) then sent + {Sent(s.byUID[uid].conn, body)} else sent;
            SentSo(sent', s, todo - {uid}, customer, deaf, body)
  {
    hide Reached;
  }

  lemma NothingPushed(s: State, customer: nat, desired: map<nat, string>, fails: set<Write>)
    requires customer !in desired
    ensures HandlePush(s, customer, desired, fails) == (s, {})
  {
  }

  lemma PushedAll(s: State, customer: nat, desired: map<nat, string>, fails: set<Write>, after: map<string, Row>)
    requires customer in desired && after.Keys == s.agents.Keys
    requires forall uid <- after :: after[uid] == Pushed(s, uid, customer, desired[customer], fails)
    ensures HandlePush(s, customer, desired, fails).0 == s.(agents := after)
  {
    assert after == HandlePush(s, customer, desired, fails).0.agents;
  }

  lemma PushedTo(s: State, customer: nat, desired: map<nat, string>, fails: set<Write>, deaf: set<nat>, sent: set<Sent>)
    requires customer in desired
    requires SentSo(sent, s, {}, customer, deaf, desired[customer])
    ensures sent == set x <- HandlePush(s, customer, desired, fails).1 | x.conn.Some? && x.conn.value !in deaf
  {
    var all := HandlePush(s, customer, desired, fails).1;
    forall x ensures x in sent <==> x in all && x.conn.Some? && x.conn.value !in deaf {
    }
  }

  lemma EnrolledRow(s: State, uid: string, customer: nat, capabilities: Capabilities, now: int)
    ensures uid in EnrollOp(s, uid, customer, capabilities, now).agents
  {
  }
}
