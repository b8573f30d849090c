/** The OpAMP fleet protocol: the agents table with its event log, the in-memory registry of
    live connections, and what one message, close, push, flush, deletion or restart does to them. */
module Fleet {
  import opened Prelude

  // ---------------------------------------------------------------------
  // Data

  /** Capability bits an agent advertises; bit 1 is AcceptsRemoteConfig. */
  type Capabilities = set<nat>

  const ACCEPTS_REMOTE_CONFIG: nat := 1

  datatype Status = Unset | Applying | Applied | Failed

  /** RemoteConfigStatus of a message: protocol status number, last config hash, error text. */
  datatype ConfigReport = ConfigReport(status: int, hash: string, error: string)

  datatype Message = Message(uid: string, capabilities: Capabilities, described: bool,
                             config: Option<ConfigReport>, health: Option<bool>)

  /** What a connection authenticated as; agent is set for per-agent tokens. */
  datatype Auth = Auth(customer: nat, agent: Option<nat>)

  /** One agents row. */
  datatype Row = Row(id: nat, customer: nat, capabilities: Capabilities, wanted: Option<string>,
                     acked: Option<string>, status: Status, error: Option<string>, healthy: Option<bool>,
                     connected: bool, lastSeen: int)

  datatype Kind = Enrolled | Connected | Disconnected | ConfigApplied(hash: string) | ConfigFailed(hash: string) | Healthy | Unhealthy

  /** One agent_events row. */
  datatype Event = Event(uid: string, agent: nat, kind: Kind)

  /** The in-memory state of one connected agent; a nil connection is None. */
  datatype AgentConn = AgentConn(conn: Option<nat>, agent: nat, customer: nat, capabilities: Capabilities,
                                 acked: Option<string>, status: Status, healthy: Option<bool>,
                                 lastSeen: int, dirty: bool)

  /** What subscribers outside the control plane are told. */
  datatype Notice = AgentOffline(agent: nat) | AgentConfigFailed(agent: nat) | AgentUnhealthy(agent: nat)

  /** Table rows by instance UID (a unique column), the event log, the registry's two maps, and
      the notices sent so far. */
  datatype State = State(agents: map<string, Row>, nextId: nat, events: seq<Event>,
                         byUID: map<string, AgentConn>, byConn: map<nat, string>, notices: seq<Notice>)

  const START := State(map[], 0, [], map[], map[], [])

  /** Store operations that may fail during a step. */
  datatype Write = Lookup | Enroll | SetConnected | SetDescription | SetAcked | SetStatus | SetHealth | SetAssigned | Touch

  datatype Response = Response(error: bool, askFullState: bool, offer: Option<string>)

  // ---------------------------------------------------------------------
  // Store operations; an update names the row by its id

  predicate HasRow(s: State, uid: string, id: nat) {
    uid in s.agents && s.agents[uid].id == id
  }

  function PutRow(s: State, uid: string, row: Row): State {
    s.(agents := s.agents[uid := row])
  }

  function Log(s: State, uid: string, id: nat, kind: Kind): State {
    s.(events := s.events + [Event(uid, id, kind)])
  }

  function SetConnectedOp(s: State, uid: string, id: nat, connected: bool, at: int, fails: set<Write>): State {
    if SetConnected in fails || !HasRow(s, uid, id) then s else
    var row := s.agents[uid];
    Log(PutRow(s, uid, row.(connected := connected, lastSeen := Max(row.lastSeen, at))), uid, id,
        if connected then Connected else Disconnected)
  }

  function SetDescriptionOp(s: State, uid: string, id: nat, capabilities: Capabilities, fails: set<Write>): State {
    if SetDescription in fails || !HasRow(s, uid, id) || capabilities == {} then s else
    PutRow(s, uid, s.agents[uid].(capabilities := capabilities))
  }

  function SetAckedOp(s: State, uid: string, id: nat, acked: Option<string>, fails: set<Write>): State {
    if SetAcked in fails || !HasRow(s, uid, id) then s else PutRow(s, uid, s.agents[uid].(acked := acked))
  }

  function SetAssignedOp(s: State, uid: string, id: nat, hash: string, fails: set<Write>): State {
    if SetAssigned in fails || !HasRow(s, uid, id) then s else PutRow(s, uid, s.agents[uid].(wanted := Some(hash)))
  }

  function SetStatusOp(s: State, uid: string, id: nat, status: Status, error: Option<string>, event: Option<Kind>,
                       fails: set<Write>): (State, bool) {
    if SetStatus in fails || !HasRow(s, uid, id) then (s, false) else
    var s1 := PutRow(s, uid, s.agents[uid].(status := status, error := error));
    (if event.Some? then Log(s1, uid, id, event.value) else s1, true)
  }

  function SetHealthOp(s: State, uid: string, id: nat, healthy: bool, flip: Option<Kind>, fails: set<Write>): (State, bool) {
    if SetHealth in fails || !HasRow(s, uid, id) then (s, false) else
    var s1 := PutRow(s, uid, s.agents[uid].(healthy := Some(healthy)));
    (if flip.Some? then Log(s1, uid, id, flip.value) else s1, true)
  }

  /** A freshly enrolled row and its event. */
  function EnrollOp(s: State, uid: string, customer: nat, capabilities: Capabilities, now: int): State {
    var row := Row(s.nextId, customer, capabilities, None, None, Unset, None, None, false, now);
    Log(PutRow(s, uid, row), uid, s.nextId, Enrolled).(nextId := s.nextId + 1)
  }

  // ---------------------------------------------------------------------
  // Registry operations

  /** Drops the binding of the connection the agent moves away from. */
  function Unbind(byConn: map<nat, string>, conn: Option<nat>): map<nat, string> {
    if conn.Some? then byConn - {conn.value} else byConn
  }

  function PutConn(s: State, uid: string, st: AgentConn): State {
    var freed := if uid in s.byUID && s.byUID[uid].conn != st.conn then Unbind(s.byConn, s.byUID[uid].conn) else s.byConn;
    s.(byUID := s.byUID[uid := st], byConn := if st.conn.Some? then freed[st.conn.value := uid] else freed)
  }

  function UpdateConn(s: State, uid: string, st: AgentConn): State {
    s.(byUID := s.byUID[uid := st])
  }

  // ---------------------------------------------------------------------
  // Handling one message

  datatype Resolved = Found(st: AgentConn) | AskFullState | Reject

  function Seed(conn: Option<nat>, customer: nat, row: Row): AgentConn {
    AgentConn(conn, row.id, customer, row.capabilities, row.acked, row.status, row.healthy, 0, false)
  }

  /** Finds the row behind a UID the registry does not know, enrolling the agent if there is none.
      `race` says under which customer another replica enrolls the same UID first, if one does. */
  function Resolve(s: State, conn: Option<nat>, auth: Auth, msg: Message, now: int, fails: set<Write>, race: Option<nat>)
    : (State, Resolved)
    decreases msg.described
  {
    if Lookup in fails then (s, AskFullState) else
    if msg.uid in s.agents then
      (s, if s.agents[msg.uid].customer != auth.customer then Reject else Found(Seed(conn, auth.customer, s.agents[msg.uid])))
    else if !msg.described then (s, AskFullState)
    else if race.Some? then
      Resolve(EnrollOp(s, msg.uid, race.value, {}, now), conn, auth, Message(msg.uid, {}, false, None, None), now, fails, None)
    else if Enroll in fails then (s, AskFullState)
    else
      var s1 := EnrollOp(s, msg.uid, auth.customer, msg.capabilities, now);
      (s1, Found(Seed(conn, auth.customer, s1.agents[msg.uid])))
  }

  function MapStatus(status: int): Status {
    match status
    case 1 => Applied
    case 2 => Applying
    case 3 => Failed
    case _ => Unset
  }

  predicate Terminal(status: Status) {
    status == Applied || status == Failed
  }

  /** Remembers the reported hash, in memory and, when it is new or cleared, in the row. */
  function NoteAcked(s: State, uid: string, report: ConfigReport, fails: set<Write>): State
    requires uid in s.byUID
  {
    var st := s.byUID[uid];
    if report.hash != "" then
      var s1 := UpdateConn(s, uid, st.(acked := Some(report.hash)));
      if Some(report.hash) != st.acked then SetAckedOp(s1, uid, st.agent, Some(report.hash), fails) else s1
    else if MapStatus(report.status) == Unset then
      SetAckedOp(UpdateConn(s, uid, st.(acked := None)), uid, st.agent, None, fails)
    else s
  }

  function ConfigEvent(status: Status, hash: string): Option<Kind> {
    match status
    case Applied => Some(ConfigApplied(hash))
    case Failed => Some(ConfigFailed(hash))
    case _ => None
  }

  /** Records a status change and its event; memory follows only if the row was written. */
  function NoteStatus(s: State, uid: string, status: Status, report: ConfigReport, fails: set<Write>): State
    requires uid in s.byUID
  {
    var st := s.byUID[uid];
    var error := if status == Failed && report.error != "" then Some(report.error) else None;
    var (s1, ok) := SetStatusOp(s, uid, st.agent, status, error, ConfigEvent(status, report.hash), fails);
    if !ok then s1 else
    var s2 := if status == Failed then s1.(notices := s1.notices + [AgentConfigFailed(st.agent)]) else s1;
    UpdateConn(s2, uid, st.(status := status))
  }

  /** A transition is a status change, or a new hash reaching a terminal status. */
  function HandleConfigReport(s: State, uid: string, report: ConfigReport, fails: set<Write>): State
    requires uid in s.byUID
  {
    var st := s.byUID[uid];
    var status := MapStatus(report.status);
    var newHash := report.hash != "" && Some(report.hash) != st.acked;
    var s1 := NoteAcked(s, uid, report, fails);
    if status == st.status && !(newHash && Terminal(status)) then s1 else NoteStatus(s1, uid, status, report, fails)
  }

  function HandleHealth(s: State, uid: string, healthy: bool, fails: set<Write>): State
    requires uid in s.byUID
  {
    var st := s.byUID[uid];
    var flip := if st.healthy == Some(healthy) then None else Some(if healthy then Healthy else Unhealthy);
    var (s1, ok) := SetHealthOp(s, uid, st.agent, healthy, flip, fails);
    if !ok then s1 else
    var s2 := if flip.Some? && !healthy then s1.(notices := s1.notices + [AgentUnhealthy(st.agent)]) else s1;
    UpdateConn(s2, uid, st.(healthy := Some(healthy)))
  }

  /** The offer for a capable agent that has not acknowledged the desired config. `desired` holds
      the rendered edge config per customer; a customer it misses fails to render. A config is its
      own hash: SHA-256 is taken to be injective. */
  function MaybeOffer(s: State, uid: string, desired: map<nat, string>, fails: set<Write>): (State, Option<string>)
    requires uid in s.byUID
  {
    var st := s.byUID[uid];
    if ACCEPTS_REMOTE_CONFIG !in st.capabilities || st.customer !in desired then (s, None) else
    var body := desired[st.customer];
    (SetAssignedOp(s, uid, st.agent, body, fails), if st.acked == Some(body) then None else Some(body))
  }

  predicate NewConn(conn: Option<nat>, prev: Option<AgentConn>) {
    prev.None? || prev.value.conn != conn
  }

  /** The agent behind the message is known: refresh its description, register it on this
      connection and, once per connection, mark it connected. `prev` is the registry's snapshot. */
  function Arrive(s: State, conn: Option<nat>, msg: Message, now: int, fails: set<Write>,
                  prev: Option<AgentConn>, st: AgentConn): State {
    var st1 := st.(conn := conn, lastSeen := now, dirty := true,
                   capabilities := if msg.capabilities != {} then msg.capabilities else st.capabilities);
    var s1 := if msg.described && prev.Some? then SetDescriptionOp(s, msg.uid, st.agent, msg.capabilities, fails) else s;
    var s2 := PutConn(s1, msg.uid, st1);
    if NewConn(conn, prev) then SetConnectedOp(s2, msg.uid, st.agent, true, now, fails) else s2
  }

  function Process(s: State, conn: Option<nat>, msg: Message, now: int, desired: map<nat, string>, fails: set<Write>,
                   prev: Option<AgentConn>, st: AgentConn): (State, Response) {
    var s1 := Report(Arrive(s, conn, msg, now, fails, prev, st), msg, fails);
    if NewConn(conn, prev) || msg.described then
      var (s2, offer) := MaybeOffer(s1, msg.uid, desired, fails);
      (s2, Response(false, offer.Some?, offer))
    else (s1, Response(false, false, None))
  }

  /** The parts of a message that report on the agent. */
  function Report(s: State, msg: Message, fails: set<Write>): (r: State)
    requires msg.uid in s.byUID
    ensures msg.uid in r.byUID
  {
    var s1 := if msg.config.Some? then HandleConfigReport(s, msg.uid, msg.config.value, fails) else s;
    if msg.health.Some? then HandleHealth(s1, msg.uid, msg.health.value, fails) else s1
  }

  function HandleMessage(s: State, conn: Option<nat>, auth: Auth, msg: Message, now: int, desired: map<nat, string>,
                         fails: set<Write>, race: Option<nat>): (State, Response) {
    if msg.uid == "" then (s, Response(true, false, None)) else
    var prev := if msg.uid in s.byUID then Some(s.byUID[msg.uid]) else None;
    var (s1, found) := if prev.Some?
                       then (s, if prev.value.customer != auth.customer then Reject else Found(prev.value))
                       else Resolve(s, conn, auth, msg, now, fails, race);
    match found
    case Reject => (s1, Response(true, false, None))
    case AskFullState => (s1, Response(false, true, None))
    case Found(st) =>
      if auth.agent.Some? && st.agent != auth.agent.value then (s1, Response(true, false, None))
      else Process(s1, conn, msg, now, desired, fails, prev, st)
  }

  // ---------------------------------------------------------------------
  // The other inputs

  /** The agent whose current connection closes goes offline; any other close changes nothing. */
  function HandleClose(s: State, conn: nat, fails: set<Write>): State {
    if conn !in s.byConn then s else
    var uid := s.byConn[conn];
    var s1 := s.(byConn := s.byConn - {conn});
    if uid !in s.byUID || s.byUID[uid].conn != Some(conn) then s1 else
    var st := s.byUID[uid];
    var s2 := SetConnectedOp(s1.(byUID := s1.byUID - {uid}), uid, st.agent, false, st.lastSeen, fails);
    s2.(notices := s2.notices + [AgentOffline(st.agent)])
  }

  /** The registered agents of a customer that take remote configs. */
  predicate Targeted(s: State, uid: string, customer: nat) {
    && uid in s.byUID && s.byUID[uid].customer == customer
    && ACCEPTS_REMOTE_CONFIG in s.byUID[uid].capabilities
  }

  /** A config sent on a connection, as an offer or as a push. */
  datatype Sent = Sent(conn: Option<nat>, body: string)

  function HandlePush(s: State, customer: nat, desired: map<nat, string>, fails: set<Write>): (State, set<Sent>) {
    if customer !in desired then (s, {}) else
    var body := desired[customer];
    (s.(agents := map uid | uid in s.agents ::
          if SetAssigned !in fails && Targeted(s, uid, customer) && HasRow(s, uid, s.byUID[uid].agent)
          then s.agents[uid].(wanted := Some(body)) else s.agents[uid]),
     set uid | uid in s.byUID && Targeted(s, uid, customer) && s.byUID[uid].conn.Some? :: Sent(s.byUID[uid].conn, body))
  }

  /** Writes behind the heartbeats that are not flushed yet; the flags are cleared even if the write fails. */
  function HandleFlush(s: State, fails: set<Write>): State {
    s.(agents := map uid | uid in s.agents ::
         if Touch !in fails && uid in s.byUID && s.byUID[uid].dirty && HasRow(s, uid, s.byUID[uid].agent)
         then s.agents[uid].(lastSeen := Max(s.agents[uid].lastSeen, s.byUID[uid].lastSeen)) else s.agents[uid],
       byUID := map uid | uid in s.byUID :: s.byUID[uid].(dirty := false))
  }

  /** The API refuses to delete an agent whose row says connected; events go with the row. */
  function HandleDelete(s: State, uid: string): State {
    if uid !in s.agents || s.agents[uid].connected then s else
    s.(agents := s.agents - {uid}, events := Without(s.events, s.agents[uid].id))
  }

  function Without(events: seq<Event>, id: nat): seq<Event> {
    if events == [] then [] else
    (if events[0].agent == id then [] else [events[0]]) + Without(events[1..], id)
  }

  /** A control-plane restart loses everything in memory. */
  function HandleRestart(s: State): State {
    s.(byUID := map[], byConn := map[])
  }

  // ---------------------------------------------------------------------
  // Runs

  datatype Input =
    | Receive(conn: Option<nat>, auth: Auth, msg: Message, now: int, desired: map<nat, string>, fails: set<Write>, race: Option<nat>)
    | Close(closed: nat, fails: set<Write>)
    | Push(customer: nat, desired: map<nat, string>, fails: set<Write>)
    | Flush(fails: set<Write>)
    | Delete(uid: string)
    | Restart

  function Step(s: State, input: Input): State {
    match input
    case Receive(conn, auth, msg, now, desired, fails, race) => HandleMessage(s, conn, auth, msg, now, desired, fails, race).0
    case Close(conn, fails) => HandleClose(s, conn, fails)
    case Push(customer, desired, fails) => HandlePush(s, customer, desired, fails).0
    case Flush(fails) => HandleFlush(s, fails)
    case Delete(uid) => HandleDelete(s, uid)
    case Restart => HandleRestart(s)
  }

  /** The configs a step sends: the offer in the response, or the pushes. */
  function Sends(s: State, input: Input): set<Sent> {
    match input
    case Receive(conn, auth, msg, now, desired, fails, race) =>
      var offer := HandleMessage(s, conn, auth, msg, now, desired, fails, race).1.offer;
      if offer.Some? then {Sent(conn, offer.value)} else {}
    case Push(customer, desired, fails) => HandlePush(s, customer, desired, fails).1
    case _ => {}
  }

  function Run(s: State, inputs: seq<Input>): State
    decreases |inputs|
  {
    if inputs == [] then s else Run(Step(s, inputs[0]), inputs[1..])
  }
}
