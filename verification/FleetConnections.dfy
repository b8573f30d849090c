/** The registry as a function of what was said on which connection, and so when closing a
    connection takes an agent offline. */
module FleetConnections {
  import opened Prelude
  import opened Fleet
  import opened FleetInvariants
  import opened FleetTransparency
  import opened FleetAgreement

  // ---------------------------------------------------------------------
  // The history of a connection

  /** The sender was told neither that something is wrong nor to introduce itself first. */
  predicate Answered(s: State, input: Input) {
    input.Receive? &&
    var r := HandleMessage(s, input.conn, input.auth, input.msg, input.now, input.desired, input.fails, input.race).1;
    !r.error && (r.askFullState ==> r.offer.Some?)
  }

  /** The last answered message of the agent came on this connection, and since then there was no
      restart and no close of the connection while it spoke for the agent. */
  ghost predicate On(inputs: seq<Input>, uid: string, conn: nat)
    decreases |inputs|
  {
    inputs != [] &&
    var before, last := inputs[..|inputs| - 1], inputs[|inputs| - 1];
    match last
    case Receive(c, _, msg, _, _, _, _) =>
      if Answered(Run(START, before), last) && msg.uid == uid then c == Some(conn) else On(before, uid, conn)
    case Close(c, _) => On(before, uid, conn) && !(c == conn && SpeaksFor(before, uid, conn))
    case Restart => false
    case _ => On(before, uid, conn)
  }

  /** The agent's was the last answered message on this connection, and since then nobody on the
      connection moved to another one, it was not closed, and there was no restart. */
  ghost predicate SpeaksFor(inputs: seq<Input>, uid: string, conn: nat)
    decreases |inputs|
  {
    inputs != [] &&
    var before, last := inputs[..|inputs| - 1], inputs[|inputs| - 1];
    match last
    case Receive(c, _, msg, _, _, _, _) =>
      if !Answered(Run(START, before), last) then SpeaksFor(before, uid, conn)
      else if c == Some(conn) then msg.uid == uid
      else SpeaksFor(before, uid, conn) && !On(before, msg.uid, conn)
    case Close(c, _) => c != conn && SpeaksFor(before, uid, conn)
    case Restart => false
    case _ => SpeaksFor(before, uid, conn)
  }

  // ---------------------------------------------------------------------
  // What a step does to the two maps

  predicate Registered(s: State, uid: string, conn: nat) {
    uid in s.byUID && s.byUID[uid].conn == Some(conn)
  }

  predicate Indexed(s: State, uid: string, conn: nat) {
    conn in s.byConn && s.byConn[conn] == uid
  }

  ghost predicate Kept(s: State, s': State) {
    forall u: string, c: nat :: (Registered(s', u, c) <==> Registered(s, u, c)) && (Indexed(s', u, c) <==> Indexed(s, u, c))
  }

  /** The agent is on this connection and no other; the one it was on speaks for nobody. */
  ghost predicate Moved(s: State, s': State, uid: string, conn: Option<nat>) {
    forall u: string, c: nat ::
      && (Registered(s', u, c) <==> if u == uid then conn == Some(c) else Registered(s, u, c))
      && (Indexed(s', u, c) <==> if conn == Some(c) then u == uid else Indexed(s, u, c) && !Registered(s, uid, c))
  }

  lemma PutMoves(s: State, uid: string, st: AgentConn)
    ensures Moved(s, PutConn(s, uid, st), uid, st.conn)
  {
  }

  lemma SameMaps(s: State, s': State)
    requires s'.byConn == s.byConn && s'.byUID.Keys == s.byUID.Keys && forall u <- s.byUID :: s'.byUID[u].conn == s.byUID[u].conn
    ensures Kept(s, s')
  {
  }

  lemma KeptMoved(a: State, b: State, c: State, d: State, uid: string, conn: Option<nat>)
    requires Kept(a, b) && Moved(b, c, uid, conn) && Kept(c, d)
    ensures Moved(a, d, uid, conn)
  {
    hide Registered, Indexed;
  }

  lemma ArriveMoves(s: State, conn: Option<nat>, msg: Message, now: int, fails: set<Write>, prev: Option<AgentConn>, st: AgentConn)
    ensures Moved(s, Arrive(s, conn, msg, now, fails, prev, st), msg.uid, conn)
  {
    hide PutConn, SetDescriptionOp, SetConnectedOp, Kept, Moved;
    var st1 := st.(conn := conn, lastSeen := now, dirty := true,
                   capabilities := if msg.capabilities != {} then msg.capabilities else st.capabilities);
    DescriptionOnly(s, msg.uid, st.agent, msg.capabilities, fails);
    var s1 := if msg.described && prev.Some? then SetDescriptionOp(s, msg.uid, st.agent, msg.capabilities, fails) else s;
    SameMaps(s, s1);
    PutMoves(s1, msg.uid, st1);
    var s2 := PutConn(s1, msg.uid, st1);
    ConnectedOnly(s2, msg.uid, st.agent, true, now, fails);
    SameMaps(s2, Arrive(s, conn, msg, now, fails, prev, st));
    KeptMoved(s, s1, s2, Arrive(s, conn, msg, now, fails, prev, st), msg.uid, conn);
  }

  lemma ProcessMoves(s: State, conn: Option<nat>, msg: Message, now: int, desired: map<nat, string>, fails: set<Write>,
                     prev: Option<AgentConn>, st: AgentConn)
    ensures var (s', r) := Process(s, conn, msg, now, desired, fails, prev, st);
            Moved(s, s', msg.uid, conn) && !r.error && (r.askFullState ==> r.offer.Some?)
  {
    hide Report, Arrive, MaybeOffer, Kept, Moved, OnlyReports;
    var s1 := Arrive(s, conn, msg, now, fails, prev, st);
    ArriveMoves(s, conn, msg, now, fails, prev, st);
    ProcessMaps(s, conn, msg, now, desired, fails, prev, st);
    ReportOnly(s1, msg, fails);
    var s2, s' := Report(s1, msg, fails), Process(s, conn, msg, now, desired, fails, prev, st).0;
    ReportedConns(s1, s2, msg.uid);
    SameMaps(s1, s');
    SameMaps(s, s);
    KeptMoved(s, s, s1, s', msg.uid, conn);
  }

  /** An answered message moves its agent to the connection it came on; any other changes nothing
      in the registry. */
  lemma MessageMoves(s: State, input: Input)
    requires input.Receive?
    ensures if Answered(s, input) then Moved(s, Step(s, input), input.msg.uid, input.conn) else Kept(s, Step(s, input))
  {
    hide Process, Resolve, Kept, Moved;
    var Receive(conn, auth, msg, now, desired, fails, race) := input;
    SameMaps(s, s);
    if msg.uid in s.byUID {
      ProcessMoves(s, conn, msg, now, desired, fails, Some(s.byUID[msg.uid]), s.byUID[msg.uid]);
    } else {
      ResolveEffect(s, conn, auth, msg, now, fails, race);
      var (s1, r) := Resolve(s, conn, auth, msg, now, fails, race);
      SameMaps(s, s1);
      if r.Found? {
        ProcessMoves(s1, conn, msg, now, desired, fails, None, r.st);
        var s' := Process(s1, conn, msg, now, desired, fails, None, r.st).0;
        SameMaps(s', s');
        KeptMoved(s, s1, s', s', msg.uid, conn);
      }
    }
  }

  lemma CloseMoves(s: State, conn: nat, fails: set<Write>)
    requires ConnsCurrent(s)
    ensures var s' := HandleClose(s, conn, fails);
            forall u: string, c: nat ::
              && (Registered(s', u, c) <==> Registered(s, u, c) && !(c == conn && Indexed(s, u, c)))
              && (Indexed(s', u, c) <==> c != conn && Indexed(s, u, c))
  {
    hide SetConnectedOp;
    if conn in s.byConn {
      var uid := s.byConn[conn];
      var s1 := s.(byConn := s.byConn - {conn});
      if uid in s.byUID {
        var st := s.byUID[uid];
        ConnectedOnly(s1.(byUID := s1.byUID - {uid}), uid, st.agent, false, st.lastSeen, fails);
      }
    }
  }

  lemma OtherKept(s: State, input: Input)
    requires input.Push? || input.Flush? || input.Delete?
    ensures Kept(s, Step(s, input))
  {
    hide Without;
    SameMaps(s, Step(s, input));
  }

  // ---------------------------------------------------------------------
  // The registry is its history

  lemma RunLast(inputs: seq<Input>)
    requires inputs != []
    ensures Run(START, inputs) == Step(Run(START, inputs[..|inputs| - 1]), inputs[|inputs| - 1])
  {
    hide Step, Run;
    assert inputs == inputs[..|inputs| - 1] + [inputs[|inputs| - 1]];
    RunNext(START, inputs[..|inputs| - 1], inputs[|inputs| - 1]);
  }

  /** Over every run, whatever writes fail: who is registered on a connection and whom the
      connection index names is what was said on it. */
  lemma {:induction false} RegistryIsHistory(inputs: seq<Input>, uid: string, conn: nat)
    ensures On(inputs, uid, conn) <==> Registered(Run(START, inputs), uid, conn)
    ensures SpeaksFor(inputs, uid, conn) <==> Indexed(Run(START, inputs), uid, conn)
    decreases |inputs|
  {
    hide Run, Answered, ConnsCurrent, HandleMessage, HandleClose, HandlePush, HandleFlush, HandleDelete, Joined;
    if inputs == [] {
      NothingRegistered(uid, conn);
    } else {
      var before, last := inputs[..|inputs| - 1], inputs[|inputs| - 1];
      var s := Run(START, before);
      RunLast(inputs);
      RegistryIsHistory(before, uid, conn);
      match last
      case Receive(c, auth, msg, now, desired, fails, race) =>
        MessageMoves(s, last);
        RegistryIsHistory(before, msg.uid, conn);
      case Close(c, fails) =>
        RunConnsCurrent(before);
        CloseMoves(s, c, fails);
      case Restart =>
      case _ => OtherKept(s, last);
    }
  }

  lemma NothingRegistered(uid: string, conn: nat)
    ensures !Registered(Run(START, []), uid, conn) && !Indexed(Run(START, []), uid, conn)
  {
  }

  lemma {:induction false} RunConnsCurrent(inputs: seq<Input>)
    ensures ConnsCurrent(Run(START, inputs)) && Joined(Run(START, inputs))
    decreases |inputs|
  {
    hide Step, ConnsCurrent, Run;
    if inputs == [] {
      StartJoined();
    } else {
      RunLast(inputs);
      RunConnsCurrent(inputs[..|inputs| - 1]);
      StepJoined(Run(START, inputs[..|inputs| - 1]), inputs[|inputs| - 1]);
    }
  }

  lemma StartJoined()
    ensures Joined(Run(START, []))
  {
  }

  /** Closing the connection an agent is on takes the agent offline exactly when the connection
      still speaks for it: nobody else was answered on it after the agent's last message, and
      nobody on it has moved away since. */
  lemma CloseByHistory(inputs: seq<Input>, uid: string, conn: nat)
    requires (forall input <- inputs :: Clean(input)) && On(inputs, uid, conn)
    ensures var s' := HandleClose(Run(START, inputs), conn, {});
            uid !in s'.byUID && uid in s'.agents && !s'.agents[uid].connected <==> SpeaksFor(inputs, uid, conn)
  {
    hide Run, On, SpeaksFor, Joined, AllCoherent, HandleClose;
    RegistryIsHistory(inputs, uid, conn);
    StartCoherent();
    RunCoherent(START, inputs);
    CloseExactly(Run(START, inputs), uid, conn);
  }
}
