/** What the agents table says about connections, configs and heartbeats, against what the
    registry knows. */
module FleetAgreement {
  import opened Prelude
  import opened Fleet
  import opened FleetInvariants
  import opened FleetTransparency

  // ---------------------------------------------------------------------
  // Connected rows

  /** The agents a restart made the registry forget and that have not come back since. */
  function Lost(s: State, lost: set<string>, inputs: seq<Input>): set<string>
    decreases |inputs|
  {
    if inputs == [] then lost else
    var s1 := Step(s, inputs[0]);
    var forgotten := if inputs[0].Restart? then lost + s.byUID.Keys else lost;
    Lost(s1, forgotten - s1.byUID.Keys, inputs[1..])
  }

  /** A row says connected exactly when its UID is registered or was lost. */
  ghost predicate Agrees(s: State, lost: set<string>) {
    && lost !! s.byUID.Keys && lost <= s.agents.Keys
    && forall uid <- s.agents :: s.agents[uid].connected <==> uid in s.byUID || uid in lost
  }

  /** A message changes the connected flag of its own agent only, and only to register it. */
  ghost predicate ConnectedLike(s: State, s': State, uid: string) {
    && s.byUID.Keys <= s'.byUID.Keys <= s.byUID.Keys + {uid}
    && (forall u <- s.agents :: u in s'.agents && (u != uid ==> s'.agents[u].connected == s.agents[u].connected))
    && (forall u <- s'.agents :: u != uid ==> u in s.agents)
    && (uid in s'.agents && uid !in s'.byUID ==>
          if uid in s.agents then s'.agents[uid].connected == s.agents[uid].connected else !s'.agents[uid].connected)
  }

  lemma ResolveUnconnected(s: State, conn: Option<nat>, auth: Auth, msg: Message, now: int, fails: set<Write>, race: Option<nat>)
    ensures var s' := Resolve(s, conn, auth, msg, now, fails, race).0;
            msg.uid !in s.agents && msg.uid in s'.agents ==> !s'.agents[msg.uid].connected
  {
  }

  lemma MessageConnected(s: State, input: Input)
    requires Joined(s) && input.Receive?
    ensures ConnectedLike(s, Step(s, input), input.msg.uid)
  {
    hide Process, Resolve, ConnsCurrent, Step, Processed, ConnectedLike;
    var Receive(conn, auth, msg, now, desired, fails, race) := input;
    NothingConnected(s, msg.uid);
    if msg.uid in s.byUID {
      KnownOutcome(s, input);
      assert SameAgent(s, msg.uid);
      if s.byUID[msg.uid].customer == auth.customer {
        var prev := s.byUID[msg.uid];
        ProcessJoined(s, conn, msg, now, desired, fails, Some(prev), prev);
        ProcessedConnected(s, s, Process(s, conn, msg, now, desired, fails, Some(prev), prev).0, conn, msg.uid, now, prev);
      }
    } else {
      UnknownOutcome(s, input);
      ResolveConnected(s, conn, auth, msg, now, fails, race);
      var (s1, r) := Resolve(s, conn, auth, msg, now, fails, race);
      if r.Found? {
        ProcessJoined(s1, conn, msg, now, desired, fails, None, r.st);
        ProcessedConnected(s, s1, Process(s1, conn, msg, now, desired, fails, None, r.st).0, conn, msg.uid, now, r.st);
      }
    }
  }

  lemma NothingConnected(s: State, uid: string)
    ensures ConnectedLike(s, s, uid)
  {
  }

  lemma KnownOutcome(s: State, input: Input)
    requires input.Receive? && input.msg.uid in s.byUID
    ensures var prev := s.byUID[input.msg.uid];
            Step(s, input) == s || (prev.customer == input.auth.customer &&
              Step(s, input) == Process(s, input.conn, input.msg, input.now, input.desired, input.fails, Some(prev), prev).0)
  {
    hide Process, Resolve;
  }

  lemma UnknownOutcome(s: State, input: Input)
    requires input.Receive? && input.msg.uid !in s.byUID
    ensures var (s1, r) := Resolve(s, input.conn, input.auth, input.msg, input.now, input.fails, input.race);
            Step(s, input) == s || Step(s, input) == s1 ||
              (r.Found? && Step(s, input) == Process(s1, input.conn, input.msg, input.now, input.desired, input.fails, None, r.st).0)
  {
    hide Process, Resolve;
  }

  lemma ResolveConnected(s: State, conn: Option<nat>, auth: Auth, msg: Message, now: int, fails: set<Write>, race: Option<nat>)
    requires Joined(s) && msg.uid !in s.byUID
    ensures var (s1, r) := Resolve(s, conn, auth, msg, now, fails, race);
            && Joined(s1) && ConnectedLike(s, s1, msg.uid) && msg.uid !in s1.byUID
            && (r.Found? && msg.uid in s1.agents ==> s1.agents[msg.uid].id == r.st.agent && s1.agents[msg.uid].customer == r.st.customer)
  {
    hide Resolve, Joined;
    ResolveEffect(s, conn, auth, msg, now, fails, race);
    ResolveUnconnected(s, conn, auth, msg, now, fails, race);
    var (s1, r) := Resolve(s, conn, auth, msg, now, fails, race);
    ResolvedJoined(s, s1, auth, msg.uid, r);
  }

  lemma ProcessedConnected(s: State, s1: State, s': State, conn: Option<nat>, uid: string, now: int, st: AgentConn)
    requires ConnectedLike(s, s1, uid) && Processed(s1, s', conn, uid, now, st)
    ensures ConnectedLike(s, s', uid)
  {
  }

  lemma MessageAgrees(s: State, s': State, lost: set<string>, uid: string)
    requires AllCoherent(s') && Agrees(s, lost) && ConnectedLike(s, s', uid)
    ensures Agrees(s', lost - s'.byUID.Keys)
  {
    forall u <- s'.agents ensures s'.agents[u].connected <==> u in s'.byUID || u in lost - s'.byUID.Keys {
      assert Coherent(s', u);
    }
  }

  lemma StepAgrees(s: State, lost: set<string>, input: Input)
    requires Joined(s) && AllCoherent(s) && Clean(input) && Agrees(s, lost)
    ensures var s' := Step(s, input);
            var forgotten := if input.Restart? then lost + s.byUID.Keys else lost;
            Agrees(s', forgotten - s'.byUID.Keys)
  {
    hide HandleMessage, Without, ConnsCurrent, ConnectedLike;
    StepFollows(s, input);
    var s' := Step(s, input);
    if input.Receive? {
      MessageConnected(s, input);
      MessageAgrees(s, s', lost, input.msg.uid);
      return;
    }
    forall uid <- lost + s.byUID.Keys ensures uid in s.agents && s.agents[uid].connected {
      assert Coherent(s, uid);
    }
    forall uid <- s'.agents
      ensures s'.agents[uid].connected <==>
              uid in s'.byUID || uid in (if input.Restart? then lost + s.byUID.Keys else lost) - s'.byUID.Keys
    {
      assert Coherent(s, uid) && Coherent(s', uid);
    }
  }

  lemma {:induction false} RunAgrees(s: State, lost: set<string>, inputs: seq<Input>)
    requires Joined(s) && AllCoherent(s) && Agrees(s, lost) && forall input <- inputs :: Clean(input)
    ensures Agrees(Run(s, inputs), Lost(s, lost, inputs))
    decreases |inputs|
  {
    hide Joined, AllCoherent, Agrees, Step;
    if inputs != [] {
      var s1 := Step(s, inputs[0]);
      StepAgrees(s, lost, inputs[0]);
      StepFollows(s, inputs[0]);
      var forgotten := if inputs[0].Restart? then lost + s.byUID.Keys else lost;
      RunAgrees(s1, forgotten - s1.byUID.Keys, inputs[1..]);
    }
  }

  lemma {:induction false} NothingLost(s: State, inputs: seq<Input>)
    requires forall input <- inputs :: !input.Restart?
    ensures Lost(s, {}, inputs) == {}
    decreases |inputs|
  {
    hide Step;
    if inputs != [] {
      var s1 := Step(s, inputs[0]);
      assert {} - s1.byUID.Keys == {};
      NothingLost(s1, inputs[1..]);
    }
  }

  /** Over every run with successful writes, deletions included, a row is connected exactly when
      its agent is registered or was lost to a restart; without restarts, exactly when registered. */
  lemma ConnectedExactly(inputs: seq<Input>, uid: string)
    requires (forall input <- inputs :: Clean(input)) && uid in Run(START, inputs).agents
    ensures var s := Run(START, inputs);
            s.agents[uid].connected <==> uid in s.byUID || uid in Lost(START, {}, inputs)
    ensures (forall input <- inputs :: !input.Restart?) ==>
              var s := Run(START, inputs); (s.agents[uid].connected <==> uid in s.byUID)
  {
    hide Run, Lost, Joined, AllCoherent;
    StartCoherent();
    RunAgrees(START, {}, inputs);
    if forall input <- inputs :: !input.Restart? {
      NothingLost(START, inputs);
    }
  }

  // ---------------------------------------------------------------------
  // Closing the connection of an agent

  /** Each connection speaks for one UID. */
  ghost predicate OneUid(input: Input, uidOf: nat -> string) {
    input.Receive? && input.conn.Some? ==> input.msg.uid == uidOf(input.conn.value)
  }

  /** The index leads back from every registered connection. */
  ghost predicate Complete(s: State, uidOf: nat -> string) {
    forall uid <- s.byUID :: s.byUID[uid].conn.Some? ==>
      var c := s.byUID[uid].conn.value; c in s.byConn && s.byConn[c] == uid && uidOf(c) == uid
  }

  lemma PutComplete(s: State, uidOf: nat -> string, uid: string, st: AgentConn)
    requires Complete(s, uidOf) && (st.conn.Some? ==> uidOf(st.conn.value) == uid)
    ensures Complete(PutConn(s, uid, st), uidOf)
  {
  }

  lemma SameMapsComplete(s: State, s': State, uidOf: nat -> string)
    requires Complete(s, uidOf) && s'.byConn == s.byConn && s'.byUID.Keys == s.byUID.Keys
    requires forall uid <- s.byUID :: s'.byUID[uid].conn == s.byUID[uid].conn
    ensures Complete(s', uidOf)
  {
  }

  lemma ArriveComplete(s: State, uidOf: nat -> string, conn: Option<nat>, msg: Message, now: int, fails: set<Write>,
                       prev: Option<AgentConn>, st: AgentConn)
    requires Complete(s, uidOf) && (conn.Some? ==> uidOf(conn.value) == msg.uid)
    ensures Complete(Arrive(s, conn, msg, now, fails, prev, st), uidOf)
    ensures msg.uid in Arrive(s, conn, msg, now, fails, prev, st).byUID
  {
    hide PutConn, Complete, SetDescriptionOp, SetConnectedOp;
    var st1 := st.(conn := conn, lastSeen := now, dirty := true,
                   capabilities := if msg.capabilities != {} then msg.capabilities else st.capabilities);
    DescriptionOnly(s, msg.uid, st.agent, msg.capabilities, fails);
    var s1 := if msg.described && prev.Some? then SetDescriptionOp(s, msg.uid, st.agent, msg.capabilities, fails) else s;
    SameMapsComplete(s, s1, uidOf);
    PutComplete(s1, uidOf, msg.uid, st1);
    PutConnEffect(s1, msg.uid, st1);
    var s2 := PutConn(s1, msg.uid, st1);
    ConnectedOnly(s2, msg.uid, st.agent, true, now, fails);
    SameMapsComplete(s2, Arrive(s, conn, msg, now, fails, prev, st), uidOf);
  }

  lemma ReportedConns(s: State, s': State, uid: string)
    requires OnlyReports(s, s', uid)
    ensures s'.byConn == s.byConn && s'.byUID.Keys == s.byUID.Keys && forall u <- s.byUID :: s'.byUID[u].conn == s.byUID[u].conn
  {
  }

  lemma ProcessMaps(s: State, conn: Option<nat>, msg: Message, now: int, desired: map<nat, string>,
                    fails: set<Write>, prev: Option<AgentConn>, st: AgentConn)
    ensures var s1 := Arrive(s, conn, msg, now, fails, prev, st);
            var s' := Process(s, conn, msg, now, desired, fails, prev, st).0;
            msg.uid in s1.byUID && s'.byUID == Report(s1, msg, fails).byUID && s'.byConn == Report(s1, msg, fails).byConn
  {
    hide Report;
  }

  lemma ProcessComplete(s: State, uidOf: nat -> string, conn: Option<nat>, msg: Message, now: int, desired: map<nat, string>,
                        fails: set<Write>, prev: Option<AgentConn>, st: AgentConn)
    requires Complete(s, uidOf) && (conn.Some? ==> uidOf(conn.value) == msg.uid)
    ensures Complete(Process(s, conn, msg, now, desired, fails, prev, st).0, uidOf)
  {
    hide Report, Arrive, Complete, Process, OnlyReports;
    var s1 := Arrive(s, conn, msg, now, fails, prev, st);
    ArriveComplete(s, uidOf, conn, msg, now, fails, prev, st);
    ReportOnly(s1, msg, fails);
    var s2 := Report(s1, msg, fails);
    ReportedConns(s1, s2, msg.uid);
    ProcessMaps(s, conn, msg, now, desired, fails, prev, st);
    SameMapsComplete(s1, s2, uidOf);
    SameMapsComplete(s2, Process(s, conn, msg, now, desired, fails, prev, st).0, uidOf);
  }

  lemma StepComplete(s: State, uidOf: nat -> string, input: Input)
    requires Joined(s) && Complete(s, uidOf) && OneUid(input, uidOf)
    ensures Complete(Step(s, input), uidOf)
  {
    hide Process, Resolve, Without;
    match input
    case Receive(conn, auth, msg, now, desired, fails, race) =>
      if msg.uid in s.byUID {
        ProcessComplete(s, uidOf, conn, msg, now, desired, fails, Some(s.byUID[msg.uid]), s.byUID[msg.uid]);
      } else {
        ResolveEffect(s, conn, auth, msg, now, fails, race);
        var (s1, r) := Resolve(s, conn, auth, msg, now, fails, race);
        SameMapsComplete(s, s1, uidOf);
        if r.Found? {
          ProcessComplete(s1, uidOf, conn, msg, now, desired, fails, None, r.st);
        }
      }
    case Close(conn, fails) => CloseJoined(s, conn, fails);
    case _ =>
  }

  lemma {:induction false} RunComplete(s: State, uidOf: nat -> string, inputs: seq<Input>)
    requires Joined(s) && Complete(s, uidOf) && forall input <- inputs :: OneUid(input, uidOf)
    ensures Complete(Run(s, inputs), uidOf) && Joined(Run(s, inputs))
    decreases |inputs|
  {
    hide Joined, Complete, Step;
    if inputs != [] {
      StepComplete(s, uidOf, inputs[0]);
      StepJoined(s, inputs[0]);
      RunComplete(Step(s, inputs[0]), uidOf, inputs[1..]);
    }
  }

  /** Closing an agent's current connection takes it offline exactly when the connection index
      still names that agent. */
  lemma CloseExactly(s: State, uid: string, conn: nat)
    requires AllCoherent(s) && uid in s.byUID && s.byUID[uid].conn == Some(conn)
    ensures var s' := HandleClose(s, conn, {});
            uid !in s'.byUID && uid in s'.agents && !s'.agents[uid].connected <==> conn in s.byConn && s.byConn[conn] == uid
  {
    assert Coherent(s, uid);
  }

  /** If every connection speaks for one UID, closing an agent's current connection always takes
      the agent offline, in the registry and in its row. */
  lemma CloseTakesOffline(uidOf: nat -> string, inputs: seq<Input>, uid: string, conn: nat)
    requires forall input <- inputs :: OneUid(input, uidOf) && Clean(input)
    requires var s := Run(START, inputs); uid in s.byUID && s.byUID[uid].conn == Some(conn)
    ensures var s' := HandleClose(Run(START, inputs), conn, {});
            uid !in s'.byUID && uid in s'.agents && !s'.agents[uid].connected
  {
    hide Run, Joined, AllCoherent;
    StartCoherent();
    RunComplete(START, uidOf, inputs);
    RunCoherent(START, inputs);
    var s := Run(START, inputs);
    CloseSetsRow(s, uid, conn);
  }

  lemma CloseSetsRow(s: State, uid: string, conn: nat)
    requires AllCoherent(s) && conn in s.byConn && s.byConn[conn] == uid
    requires uid in s.byUID && s.byUID[uid].conn == Some(conn)
    ensures var s' := HandleClose(s, conn, {});
            uid !in s'.byUID && uid in s'.agents && !s'.agents[uid].connected
  {
    assert Coherent(s, uid);
  }

  lemma {:induction false} RunCoherent(s: State, inputs: seq<Input>)
    requires Joined(s) && AllCoherent(s) && forall input <- inputs :: Clean(input)
    ensures AllCoherent(Run(s, inputs)) && Joined(Run(s, inputs))
    decreases |inputs|
  {
    hide Joined, AllCoherent, Step;
    if inputs != [] {
      StepFollows(s, inputs[0]);
      RunCoherent(Step(s, inputs[0]), inputs[1..]);
    }
  }

  /** A message of customer 0's agent that reports nothing. */
  function Says(conn: nat, uid: string, now: int, capabilities: Capabilities, described: bool, desired: map<nat, string>): Input {
    Receive(Some(conn), Auth(0, None), Message(uid, capabilities, described, None, None), now, desired, {}, None)
  }

  function Hello(conn: nat, uid: string, now: int): Input {
    Says(conn, uid, now, {}, true, map[])
  }

  lemma RunCons(s: State, input: Input, rest: seq<Input>)
    ensures Run(s, [input] + rest) == Run(Step(s, input), rest)
  {
    hide Step;
    assert ([input] + rest)[1..] == rest;
  }

  /** What a first hello does to an agent nobody knows. */
  lemma HelloNew(s: State, conn: nat, uid: string, now: int)
    requires uid != "" && uid !in s.agents && uid !in s.byUID
    ensures var s' := Step(s, Hello(conn, uid, now));
            && s'.agents == s.agents[uid := Row(s.nextId, 0, {}, None, None, Unset, None, None, true, now)]
            && s'.byUID == s.byUID[uid := AgentConn(Some(conn), s.nextId, 0, {}, None, Unset, None, now, true)]
            && s'.byConn == s.byConn[conn := uid]
  {
  }

  /** What a message of a registered agent of customer 0 does to the registry. */
  lemma SaysKnown(s: State, conn: nat, uid: string, now: int, capabilities: Capabilities)
    requires uid != "" && uid in s.byUID && uid in s.agents && s.byUID[uid].customer == 0
    requires s.agents[uid].id == s.byUID[uid].agent
    ensures var s' := Step(s, Says(conn, uid, now, capabilities, false, map[]));
            var st := s.byUID[uid];
            && s'.byUID == s.byUID[uid := st.(conn := Some(conn), lastSeen := now, dirty := true,
                                              capabilities := if capabilities == {} then st.capabilities else capabilities)]
            && s'.byConn == (if st.conn != Some(conn) then Unbind(s.byConn, st.conn) else s.byConn)[conn := uid]
            && s'.agents == if st.conn == Some(conn) then s.agents
                            else s.agents[uid := s.agents[uid].(connected := true, lastSeen := Max(s.agents[uid].lastSeen, now))]
  {
  }

  /** One connection that speaks for two agents breaks it: when one of them moves on, the index
      loses the connection, and closing it leaves the other agent connected for good. */
  lemma SharedConnectionLeaks()
    ensures var s := Run(START, [Hello(7, "u", 1), Hello(7, "v", 2), Says(8, "u", 3, {}, false, map[]), Close(7, {})]);
            "v" in s.byUID && s.byUID["v"].conn == Some(7) && "v" in s.agents && s.agents["v"].connected
  {
    hide HandleMessage;
    var i1, i2, i3, i4 := Hello(7, "u", 1), Hello(7, "v", 2), Says(8, "u", 3, {}, false, map[]), Close(7, {});
    var s1 := Step(START, i1);
    HelloNew(START, 7, "u", 1);
    var s2 := Step(s1, i2);
    HelloNew(s1, 7, "v", 2);
    var s3 := Step(s2, i3);
    SaysKnown(s2, 8, "u", 3, {});
    assert Step(s3, i4) == s3;
    RunFour(START, i1, i2, i3, i4);
  }

  lemma RunFour(s: State, a: Input, b: Input, c: Input, d: Input)
    ensures Run(s, [a, b, c, d]) == Step(Step(Step(Step(s, a), b), c), d)
  {
    hide Step;
    assert [a, b, c, d] == [a] + [b, c, d] && [b, c, d] == [b] + [c, d] && [c, d] == [c] + [d] && [d] == [d] + [];
    RunCons(s, a, [b, c, d]);
    RunCons(Step(s, a), b, [c, d]);
    RunCons(Step(Step(s, a), b), c, [d]);
    RunCons(Step(Step(Step(s, a), b), c), d, []);
  }

  // ---------------------------------------------------------------------
  // No offer means in sync

  /** After an accepted message that opens a connection or describes the agent, a capable agent
      whose config renders is recorded as wanting it, and gets it offered unless it is the one
      the agent has acknowledged. */
  lemma OfferedOrInSync(s: State, conn: Option<nat>, msg: Message, now: int, desired: map<nat, string>,
                        prev: Option<AgentConn>, st: AgentConn)
    requires msg.uid in s.agents && ConnView(st) == RowView(s.agents[msg.uid])
    requires prev.Some? ==> s.agents[msg.uid].connected
    requires NewConn(conn, prev) || msg.described
    requires st.customer in desired
    ensures var (s', r) := Process(s, conn, msg, now, desired, {}, prev, st);
            var body := desired[st.customer];
            msg.uid in s'.byUID && ACCEPTS_REMOTE_CONFIG in s'.byUID[msg.uid].capabilities ==>
              && msg.uid in s'.agents && s'.agents[msg.uid].wanted == Some(body)
              && r.offer == if s'.agents[msg.uid].acked == Some(body) then None else Some(body)
  {
    hide Arrive, Report, Reports, RefReport;
    var s1 := Arrive(s, conn, msg, now, {}, prev, st);
    ArriveFollows(s, conn, msg, now, prev, st);
    ReportFollows(s1, msg);
    ReportOnly(s1, msg, {});
  }

  /** In every run: when such a message is answered without an offer, the config the row wants is
      the one the agent acknowledged; otherwise that config is offered. */
  lemma NoOfferMeansInSync(inputs: seq<Input>, input: Input)
    requires (forall i <- inputs :: Clean(i)) && input.Receive? && Clean(input)
    requires var s, s', uid := Run(START, inputs), Step(Run(START, inputs), input), input.msg.uid;
             && Accepted(s', input.auth, uid) && input.auth.customer in input.desired
             && (uid !in s.byUID || s.byUID[uid].conn != input.conn || input.msg.described)
             && uid in s'.byUID && ACCEPTS_REMOTE_CONFIG in s'.byUID[uid].capabilities
    ensures var s, s', uid := Run(START, inputs), Step(Run(START, inputs), input), input.msg.uid;
            var body := input.desired[input.auth.customer];
            && uid in s'.agents && s'.agents[uid].wanted == Some(body)
            && Sends(s, input) == if s'.agents[uid].acked == Some(body) then {} else {Sent(input.conn, body)}
  {
    hide Run, Process, Resolve, ConnsCurrent;
    StartCoherent();
    RunCoherent(START, inputs);
    var s := Run(START, inputs);
    var Receive(conn, auth, msg, now, desired, fails, race) := input;
    if msg.uid in s.byUID {
      var st := s.byUID[msg.uid];
      assert Coherent(s, msg.uid) && SameAgent(s, msg.uid);
      ProcessEffect(s, conn, msg, now, desired, {}, Some(st), st);
      OfferedOrInSync(s, conn, msg, now, desired, Some(st), st);
    } else {
      ResolveEffect(s, conn, auth, msg, now, {}, race);
      ResolveView(s, conn, auth, msg, now, race);
      var (s1, r) := Resolve(s, conn, auth, msg, now, {}, race);
      ResolvedJoined(s, s1, auth, msg.uid, r);
      if r.Found? {
        ProcessEffect(s1, conn, msg, now, desired, {}, None, r.st);
        OfferedOrInSync(s1, conn, msg, now, desired, None, r.st);
      }
    }
  }

  /** Capabilities are the exception to the registry being a mere cache: they reach the row only
      with a description, so after a restart an agent that announced them earlier is not offered
      the config it is offered if the registry survives. */
  lemma CapabilitiesForgotten()
    ensures var enroll, announce := Hello(1, "u", 1), Says(1, "u", 2, {ACCEPTS_REMOTE_CONFIG}, false, map[]);
            var again := Says(2, "u", 3, {}, false, map[0 := "config"]);
            && Sends(Run(START, [enroll, announce]), again) == {Sent(Some(2), "config")}
            && Sends(Run(START, [enroll, announce, Restart]), again) == {}
  {
    hide HandleMessage;
    var enroll, announce := Hello(1, "u", 1), Says(1, "u", 2, {ACCEPTS_REMOTE_CONFIG}, false, map[]);
    var s1 := Step(START, enroll);
    HelloNew(START, 1, "u", 1);
    var s2 := Step(s1, announce);
    SaysKnown(s1, 1, "u", 2, {ACCEPTS_REMOTE_CONFIG});
    assert [enroll, announce] == [enroll] + ([announce] + []);
    RunCons(START, enroll, [announce] + []);
    RunCons(s1, announce, []);
    assert [enroll, announce, Restart] == [enroll] + ([announce] + ([Restart] + []));
    RunCons(START, enroll, [announce] + ([Restart] + []));
    RunCons(s1, announce, [Restart] + []);
    RunCons(s2, Restart, []);
    OfferKnown(s2);
    OfferForgotten(Step(s2, Restart));
  }

  lemma OfferKnown(s: State)
    requires "u" in s.byUID && ACCEPTS_REMOTE_CONFIG in s.byUID["u"].capabilities
    requires s.byUID["u"].customer == 0 && s.byUID["u"].conn == Some(1) && s.byUID["u"].acked == None
    ensures Sends(s, Says(2, "u", 3, {}, false, map[0 := "config"])) == {Sent(Some(2), "config")}
  {
  }

  lemma OfferForgotten(s: State)
    requires "u" !in s.byUID && "u" in s.agents && s.agents["u"].capabilities == {}
    ensures Sends(s, Says(2, "u", 3, {}, false, map[0 := "config"])) == {}
  {
  }

  function Announced(msg: Message, capabilities: Capabilities): Capabilities {
    if msg.capabilities != {} then msg.capabilities else capabilities
  }

  lemma ArrivedCapabilities(s: State, conn: Option<nat>, msg: Message, now: int, prev: Option<AgentConn>, st: AgentConn)
    ensures var s1 := Arrive(s, conn, msg, now, {}, prev, st);
            msg.uid in s1.byUID && s1.byUID[msg.uid].capabilities == Announced(msg, st.capabilities) &&
                s1.byUID[msg.uid].customer == st.customer
  {
  }

  /** The offer to an arriving agent, from what it announced and what it has acknowledged. */
  lemma OfferIs(s: State, conn: Option<nat>, msg: Message, now: int, desired: map<nat, string>, prev: Option<AgentConn>, st: AgentConn)
    requires msg.uid in s.agents && ConnView(st) == RowView(s.agents[msg.uid]) && (prev.Some? ==> s.agents[msg.uid].connected)
    requires NewConn(conn, prev) && st.customer in desired
    ensures var body := desired[st.customer];
            Process(s, conn, msg, now, desired, {}, prev, st).1.offer ==
              if ACCEPTS_REMOTE_CONFIG !in Announced(msg, st.capabilities) ||
                  RefReport(RowView(s.agents[msg.uid]), msg).0.acked == Some(body)
              then None else Some(body)
  {
    hide Arrive, Report, Reports, RefReport;
    var s1 := Arrive(s, conn, msg, now, {}, prev, st);
    ArriveFollows(s, conn, msg, now, prev, st);
    ArrivedCapabilities(s, conn, msg, now, prev, st);
    ReportFollows(s1, msg);
    ReportOnly(s1, msg, {});
  }

  lemma SendsKnown(s: State, input: Input)
    requires input.Receive? && input.msg.uid != "" && input.msg.uid in s.byUID && s.byUID[input.msg.uid].customer == input.auth.customer
    requires input.auth.agent.Some? ==> s.byUID[input.msg.uid].agent == input.auth.agent.value
    ensures var st := s.byUID[input.msg.uid];
            var offer := Process(s, input.conn, input.msg, input.now, input.desired, input.fails, Some(st), st).1.offer;
            Sends(s, input) == if offer.Some? then {Sent(input.conn, offer.value)} else {}
  {
    hide Process, Resolve;
  }

  lemma SendsStored(s: State, input: Input)
    requires input.Receive? && Clean(input) && input.msg.uid != "" && input.msg.uid !in s.byUID && input.msg.uid in s.agents
    requires s.agents[input.msg.uid].customer == input.auth.customer
    requires input.auth.agent.Some? ==> s.agents[input.msg.uid].id == input.auth.agent.value
    ensures var st := Seed(input.conn, input.auth.customer, s.agents[input.msg.uid]);
            var offer := Process(s, input.conn, input.msg, input.now, input.desired, input.fails, None, st).1.offer;
            Sends(s, input) == if offer.Some? then {Sent(input.conn, offer.value)} else {}
  {
    hide Process;
  }

  /** Exactly when a restart does not show in the offer to a reconnecting agent: the message
      announces capabilities itself, or memory and row agree on whether it takes remote configs,
      or it has the config already. */
  lemma RestartKeepsOffer(s: State, input: Input)
    requires Joined(s) && AllCoherent(s) && input.Receive? && Clean(input) && input.msg.uid != "" && input.msg.uid in s.byUID
    requires s.byUID[input.msg.uid].customer == input.auth.customer && input.auth.customer in input.desired
    requires input.auth.agent.Some? ==> s.byUID[input.msg.uid].agent == input.auth.agent.value
    requires s.byUID[input.msg.uid].conn != input.conn
    ensures input.msg.uid in s.agents
    ensures var row, st := s.agents[input.msg.uid], s.byUID[input.msg.uid];
            Sends(s, input) == Sends(HandleRestart(s), input) <==>
              || input.msg.capabilities != {}
              || (ACCEPTS_REMOTE_CONFIG in st.capabilities <==> ACCEPTS_REMOTE_CONFIG in row.capabilities)
              || RefReport(RowView(row), input.msg).0.acked == Some(input.desired[input.auth.customer])
  {
    hide Process, Resolve, Joined, Sends, RefReport;
    assert Coherent(s, input.msg.uid);
    var row, st, t := s.agents[input.msg.uid], s.byUID[input.msg.uid], HandleRestart(s);
    var seed := Seed(input.conn, input.auth.customer, row);
    SendsKnown(s, input);
    SendsStored(t, input);
    OfferIs(s, input.conn, input.msg, input.now, input.desired, Some(st), st);
    OfferIs(t, input.conn, input.msg, input.now, input.desired, None, seed);
  }

  // ---------------------------------------------------------------------
  // Heartbeats

  /** When the agent was last seen, as far as memory and row know together. */
  function Seen(s: State, uid: string): Option<int> {
    if uid !in s.agents then None
    else if uid in s.byUID then Some(Max(s.agents[uid].lastSeen, s.byUID[uid].lastSeen))
    else Some(s.agents[uid].lastSeen)
  }

  /** What a restart would leave of it. */
  function Durable(s: State, uid: string): Option<int> {
    if uid in s.agents then Some(s.agents[uid].lastSeen) else None
  }

  /** One agent's times: none after `clock`, and a cleared flag means the row has caught up. */
  ghost predicate Timely(s: State, uid: string, clock: int) {
    && (uid in s.agents ==> s.agents[uid].lastSeen <= clock)
    && (uid in s.byUID ==> s.byUID[uid].lastSeen <= clock)
    && (uid in s.byUID && uid in s.agents && !s.byUID[uid].dirty ==> s.byUID[uid].lastSeen <= s.agents[uid].lastSeen)
  }

  /** The message's agent is known after resolving and is the one the sender may speak for. */
  predicate Accepted(s': State, auth: Auth, uid: string) {
    && uid != "" && uid in s'.agents && s'.agents[uid].customer == auth.customer
    && (auth.agent.Some? ==> s'.agents[uid].id == auth.agent.value)
  }

  lemma OfferSeen(s: State, uid: string, desired: map<nat, string>, fails: set<Write>)
    requires uid in s.byUID && uid in s.agents
    ensures var s' := MaybeOffer(s, uid, desired, fails).0;
            s'.byUID == s.byUID && uid in s'.agents && s'.agents[uid].lastSeen == s.agents[uid].lastSeen
  {
  }

  lemma ArriveSeen(s: State, conn: Option<nat>, msg: Message, now: int, prev: Option<AgentConn>, st: AgentConn)
    requires msg.uid in s.agents && s.agents[msg.uid].lastSeen <= now
    ensures var s' := Arrive(s, conn, msg, now, {}, prev, st);
            && msg.uid in s'.byUID && s'.byUID[msg.uid].lastSeen == now
            && msg.uid in s'.agents && s'.agents[msg.uid].lastSeen <= now
  {
    hide PutConn;
    var st1 := st.(conn := conn, lastSeen := now, dirty := true,
                   capabilities := if msg.capabilities != {} then msg.capabilities else st.capabilities);
    var s1 := if msg.described && prev.Some? then SetDescriptionOp(s, msg.uid, st.agent, msg.capabilities, {}) else s;
    PutConnEffect(s1, msg.uid, st1);
  }

  /** An accepted message is seen at its own time; no other agent's time changes. */
  ghost predicate SeenNow(s: State, s': State, uid: string, now: int) {
    && Timely(s', uid, now) && Seen(s', uid) == Some(now)
    && forall u :: u != uid ==> Seen(s', u) == Seen(s, u) && (Timely(s, u, now) ==> Timely(s', u, now))
  }

  lemma ProcessSeen(s: State, conn: Option<nat>, msg: Message, now: int, desired: map<nat, string>,
                    prev: Option<AgentConn>, st: AgentConn)
    requires ConnsCurrent(s) && Timely(s, msg.uid, now) && msg.uid in s.agents
    ensures SeenNow(s, Process(s, conn, msg, now, desired, {}, prev, st).0, msg.uid, now)
  {
    hide Arrive, Report, ConnsCurrent, MaybeOffer;
    var s' := Process(s, conn, msg, now, desired, {}, prev, st).0;
    ProcessEffect(s, conn, msg, now, desired, {}, prev, st);
    var s1 := Arrive(s, conn, msg, now, {}, prev, st);
    ArriveSeen(s, conn, msg, now, prev, st);
    ReportOnly(s1, msg, {});
    OfferSeen(Report(s1, msg, {}), msg.uid, desired, {});
  }

  lemma EnrollSeen(s: State, uid: string, customer: nat, capabilities: Capabilities, now: int)
    requires uid !in s.byUID
    ensures SeenNow(s, EnrollOp(s, uid, customer, capabilities, now), uid, now)
  {
  }

  lemma ResolveSeen(s: State, conn: Option<nat>, auth: Auth, msg: Message, now: int, race: Option<nat>)
    requires msg.uid !in s.byUID
    ensures var s' := Resolve(s, conn, auth, msg, now, {}, race).0;
            s' == s || (msg.uid !in s.agents && SeenNow(s, s', msg.uid, now))
  {
    hide EnrollOp, SeenNow;
    EnrollSeen(s, msg.uid, auth.customer, msg.capabilities, now);
    if race.Some? {
      EnrollSeen(s, msg.uid, race.value, {}, now);
    }
  }

  /** A message sets its agent's time to now if it is accepted or enrols the agent, and leaves
      every other time alone. */
  lemma MessageSeen(s: State, input: Input)
    requires Joined(s) && AllCoherent(s) && input.Receive? && Clean(input) && Timely(s, input.msg.uid, input.now)
    ensures var s' := Step(s, input);
            if Accepted(s', input.auth, input.msg.uid) || (input.msg.uid in s'.agents && input.msg.uid !in s.agents)
            then SeenNow(s, s', input.msg.uid, input.now) else s' == s
  {
    hide Process, Resolve, ConnsCurrent, SeenNow, Timely;
    var Receive(conn, auth, msg, now, desired, fails, race) := input;
    if msg.uid == "" {
      assert Step(s, input) == s;
    } else if msg.uid in s.byUID {
      KnownSeen(s, input);
    } else {
      UnknownSeen(s, input);
    }
  }

  lemma KnownSeen(s: State, input: Input)
    requires Joined(s) && AllCoherent(s) && input.Receive? && Clean(input) && Timely(s, input.msg.uid, input.now)
    requires input.msg.uid != "" && input.msg.uid in s.byUID
    ensures var s' := Step(s, input);
            if Accepted(s', input.auth, input.msg.uid) then SeenNow(s, s', input.msg.uid, input.now)
            else s' == s && input.msg.uid in s.agents
  {
    hide Process, ConnsCurrent, SeenNow, Timely;
    var Receive(conn, auth, msg, now, desired, fails, race) := input;
    var st := s.byUID[msg.uid];
    assert Coherent(s, msg.uid) && SameAgent(s, msg.uid);
    ProcessSeen(s, conn, msg, now, desired, Some(st), st);
    ProcessEffect(s, conn, msg, now, desired, {}, Some(st), st);
  }

  lemma UnknownSeen(s: State, input: Input)
    requires Joined(s) && AllCoherent(s) && input.Receive? && Clean(input) && Timely(s, input.msg.uid, input.now)
    requires input.msg.uid != "" && input.msg.uid !in s.byUID
    ensures var s' := Step(s, input);
            if Accepted(s', input.auth, input.msg.uid) || (input.msg.uid in s'.agents && input.msg.uid !in s.agents)
            then SeenNow(s, s', input.msg.uid, input.now) else s' == s
  {
    hide Process, Resolve, ConnsCurrent, Timely;
    var Receive(conn, auth, msg, now, desired, fails, race) := input;
    ResolveEffect(s, conn, auth, msg, now, {}, race);
    ResolveView(s, conn, auth, msg, now, race);
    ResolveSeen(s, conn, auth, msg, now, race);
    var (s1, r) := Resolve(s, conn, auth, msg, now, {}, race);
    ResolvedJoined(s, s1, auth, msg.uid, r);
    if r.Found? {
      ProcessSeen(s1, conn, msg, now, desired, None, r.st);
      ProcessEffect(s1, conn, msg, now, desired, {}, None, r.st);
    }
  }

  lemma FlushSeen(s: State, uid: string, clock: int)
    requires Coherent(s, uid) && Timely(s, uid, clock)
    ensures var s' := HandleFlush(s, {});
            Timely(s', uid, clock) && Seen(s', uid) == Seen(s, uid) == Durable(s', uid)
  {
  }

  lemma CloseSeen(s: State, conn: nat, uid: string, clock: int)
    requires Coherent(s, uid) && Timely(s, uid, clock)
    ensures var s' := HandleClose(s, conn, {});
            && Timely(s', uid, clock) && Seen(s', uid) == Seen(s, uid)
            && (uid in s.byUID && uid !in s'.byUID ==> Durable(s', uid) == Seen(s, uid))
  {
  }

  lemma OtherSeen(s: State, input: Input, uid: string, clock: int)
    requires Coherent(s, uid) && Timely(s, uid, clock) && (input.Push? || input.Delete? || input.Restart?)
    ensures var s' := Step(s, input);
            && Timely(s', uid, clock)
            && Seen(s', uid) == if input.Restart? then Durable(s, uid)
                                else if input.Delete? && input.uid == uid && uid !in s'.agents then None else Seen(s, uid)
  {
    hide HandleMessage, Without;
  }

  /** The clock readings of a run's messages never go back. */
  ghost predicate Ticking(clock: int, inputs: seq<Input>)
    decreases |inputs|
  {
    inputs != [] ==>
      var next := if inputs[0].Receive? then inputs[0].now else clock;
      clock <= next && Ticking(next, inputs[1..])
  }

  /** The last time one agent was heard: its enrolment or an accepted message. */
  function LastHeard(s: State, uid: string, last: Option<int>, inputs: seq<Input>): Option<int>
    decreases |inputs|
  {
    if inputs == [] then last else
    var i, s1 := inputs[0], Step(s, inputs[0]);
    var heard := i.Receive? && i.msg.uid == uid && (Accepted(s1, i.auth, uid) || (uid in s1.agents && uid !in s.agents));
    LastHeard(s1, uid, if heard then Some(i.now) else if uid in s1.agents then last else None, inputs[1..])
  }

  ghost predicate AllTimely(s: State, clock: int) {
    forall uid :: Timely(s, uid, clock)
  }

  lemma LaterTimely(s: State, clock: int, later: int)
    requires clock <= later && AllTimely(s, clock)
    ensures AllTimely(s, later)
  {
    forall uid ensures Timely(s, uid, later) {
      assert Timely(s, uid, clock);
    }
  }

  lemma StepTimely(s: State, input: Input, clock: int)
    requires Joined(s) && AllCoherent(s) && Clean(input) && AllTimely(s, clock)
    requires input.Receive? ==> clock <= input.now
    ensures AllTimely(Step(s, input), if input.Receive? then input.now else clock)
  {
    hide HandleMessage, HandleClose, HandleFlush, HandleDelete, HandlePush, HandleRestart, Joined, Timely, Seen;
    if input.Receive? {
      LaterTimely(s, clock, input.now);
      MessageSeen(s, input);
    } else {
      forall uid ensures Timely(Step(s, input), uid, clock) {
        assert Coherent(s, uid) && Timely(s, uid, clock);
        match input
        case Close(conn, fails) => CloseSeen(s, conn, uid, clock);
        case Flush(fails) => FlushSeen(s, uid, clock);
        case _ => OtherSeen(s, input, uid, clock);
      }
    }
  }

  lemma StepSeen(s: State, input: Input, uid: string, clock: int)
    requires Joined(s) && AllCoherent(s) && Clean(input) && !input.Restart? && AllTimely(s, clock)
    requires input.Receive? ==> clock <= input.now
    ensures var s' := Step(s, input);
            var heard := input.Receive? && input.msg.uid == uid && (Accepted(s', input.auth, uid) ||
                (uid in s'.agents && uid !in s.agents));
            Seen(s', uid) == if heard then Some(input.now) else if uid in s'.agents then Seen(s, uid) else None
  {
    hide HandleMessage, HandleClose, HandleFlush, HandleDelete, HandlePush, Joined;
    assert Coherent(s, uid) && Timely(s, uid, clock);
    match input
    case Receive(conn, auth, msg, now, desired, fails, race) =>
      LaterTimely(s, clock, now);
      MessageSeen(s, input);
    case Close(conn, fails) => CloseSeen(s, conn, uid, clock);
    case Flush(fails) => FlushSeen(s, uid, clock);
    case _ => OtherSeen(s, input, uid, clock);
  }

  /** No heartbeat is lost: between restarts, row and memory together always know exactly when
      the agent was last heard. */
  lemma {:induction false} HeartbeatsKept(s: State, uid: string, clock: int, inputs: seq<Input>)
    requires Joined(s) && AllCoherent(s) && AllTimely(s, clock) && Ticking(clock, inputs)
    requires forall input <- inputs :: Clean(input) && !input.Restart?
    ensures Seen(Run(s, inputs), uid) == LastHeard(s, uid, Seen(s, uid), inputs)
    decreases |inputs|
  {
    hide Joined, AllCoherent, AllTimely, Step, Seen, Accepted;
    if inputs != [] {
      StepSeen(s, inputs[0], uid, clock);
      StepTimely(s, inputs[0], clock);
      StepFollows(s, inputs[0]);
      HeartbeatsKept(Step(s, inputs[0]), uid, if inputs[0].Receive? then inputs[0].now else clock, inputs[1..]);
    }
  }

  /** A flush makes it durable: a restart right after it loses nothing. */
  lemma FlushedSurvivesRestart(s: State, uid: string, clock: int)
    requires AllCoherent(s) && AllTimely(s, clock)
    ensures Seen(Step(Step(s, Flush({})), Restart), uid) == Seen(s, uid)
  {
    assert Coherent(s, uid) && Timely(s, uid, clock);
    FlushSeen(s, uid, clock);
  }
}
