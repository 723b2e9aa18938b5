/** The readiness reducer: bounded observations in, one snapshot out.  Observations are the values the
  * reducers read from their sources; instants are microseconds, None for a text that does not parse. */
module ApplianceReadiness {
  import opened Outcomes

  type Instant = int

  const SECOND: int := 1_000_000
  const LIVE_OBSERVATION_MAX_AGE := 10 * SECOND
  const JOURNEY_VERIFICATION_MAX_AGE := 300 * SECOND

  datatype State = ABSENT | STOPPED | STARTING | READY | DEGRADED | BLOCKED | UNKNOWN

  datatype Journey = NativeChat | OpenWebui | RemoteClient

  datatype Code =
    | MODEL_ABSENT | MODEL_STARTING | MODEL_STOPPED | MODEL_IDENTITY_MISMATCH
    | MODEL_OBSERVATION_STALE | MODEL_PROTOCOL_UNAVAILABLE
    | GATEWAY_NOT_INSTALLED | GATEWAY_STOPPED | GATEWAY_CREDENTIAL_REQUIRED
    | GATEWAY_OBSERVATION_STALE | GATEWAY_PROTOCOL_UNAVAILABLE
    | OPENWEBUI_NOT_INSTALLED | OPENWEBUI_STARTING | OPENWEBUI_STOPPED
    | OPENWEBUI_OBSERVATION_STALE | OPENWEBUI_HTTP_UNAVAILABLE
    | OPENWEBUI_PROVIDER_NOT_CONFIGURED | OPENWEBUI_MODEL_NOT_VISIBLE | OPENWEBUI_CHAT_UNVERIFIED
    | TAILSCALE_NOT_INSTALLED | TAILSCALE_STOPPED | TAILSCALE_OBSERVATION_STALE | TAILSCALE_DISCONNECTED
    | PUBLIC_FUNNEL_ENABLED | SERVE_MAPPING_MISSING | FUNNEL_STATE_UNKNOWN | SERVE_OBSERVATION_STALE
    | REMOTE_DEPENDENCY_NOT_READY | CLIENT_VERIFICATION_INVALIDATED
    | CLIENT_VERIFICATION_STALE | CLIENT_VERIFICATION_FAILED
    | THERMAL_SAFETY_BLOCK | RECOVERY_REQUIRED | NATIVE_CHAT_UNVERIFIED

  datatype Action = BrowseModels | StartModel | ReconcileModel | OpenActivity | RunChecks
                  | EnableConnections | AddClient | OpenConnections | EnableOpenWebui | ReconcileOpenWebui
                  | ReconcileSharing | OpenThermal | OpenRecovery

  /** A problem and the action it offers; the reducers always set or omit both. */
  datatype Problem = Problem(code: Code, action: Action)

  datatype Component =
    Component(state: State, process: bool, protocol: bool, journey: bool, problem: Option<Problem>)

  /** A component shows a problem exactly when it is not READY. */
  predicate Coherent(c: Component) {
    c.state != READY <==> c.problem.Some?
  }

  datatype Model = Model(installed: bool, starting: bool, process: bool, protocol: bool,
                         identityMatches: bool, chatVerified: bool, observed: Option<Instant>)
  datatype Gateway = Gateway(installed: bool, process: bool, metadata: bool, listeners: bool,
                             backend: bool, sseVerified: bool, observed: Option<Instant>)
  datatype WebUi = WebUi(installed: bool, starting: bool, process: bool, http: bool, provider: bool,
                         visible: bool, verified: bool, observed: Option<Instant>)
  datatype Tailscale = Tailscale(installed: bool, process: bool, connected: bool, named: bool,
                                 observed: Option<Instant>)
  datatype Serve = Serve(publicFunnel: bool, mappings: bool, funnelDisabled: bool, observed: Option<Instant>)
  datatype Verification = Verification(passed: bool, expected: Option<string>, verified: Option<string>,
                                       observed: Option<Instant>)
  datatype Observations =
    Observations(model: Model, gateway: Gateway, webui: WebUi, tailscale: Tailscale, serve: Serve,
                 verification: Verification, thermalBlocked: bool, recoveryRequired: bool)

  datatype Snapshot = Snapshot(overall: State, primary: Option<Problem>,
                               nativeReady: bool, openwebuiReady: bool, remoteReady: bool)

  /** A stamp up to one second in the future, or up to `maxAge` old, is current evidence. */
  predicate Fresh(observed: Option<Instant>, now: Option<Instant>, maxAge: int) {
    observed.Some? && now.Some?
    && observed.value <= now.value + SECOND && now.value <= observed.value + maxAge
  }

  predicate Live(observed: Option<Instant>, now: Option<Instant>) {
    Fresh(observed, now, LIVE_OBSERVATION_MAX_AGE)
  }

  function Failing(state: State, process: bool, protocol: bool, code: Code, action: Action): (c: Component) {
    Component(state, process, protocol, false, Some(Problem(code, action)))
  }

  /** One thing a component asks for: when it is missing, the state and the
      problem to show. */
  datatype Stage = Stage(missing: bool, state: State, problem: Problem)

  /** The component shows the first thing that is missing, or is READY. */
  predicate ShowsFirst(c: Component, stages: seq<Stage>) {
    && ((forall i | 0 <= i < |stages| :: !stages[i].missing) ==> c.state == READY && c.problem == None)
    && forall i | 0 <= i < |stages| && stages[i].missing && (forall j | 0 <= j < i :: !stages[j].missing) ::
         c.state == stages[i].state && c.problem == Some(stages[i].problem)
  }

  function ModelStages(m: Model, now: Option<Instant>): (stages: seq<Stage>) {
    [Stage(!m.installed, ABSENT, Problem(MODEL_ABSENT, BrowseModels)),
     Stage(m.starting, STARTING, Problem(MODEL_STARTING, OpenActivity)),
     Stage(!m.process, STOPPED, Problem(MODEL_STOPPED, StartModel)),
     Stage(!m.identityMatches, BLOCKED, Problem(MODEL_IDENTITY_MISMATCH, ReconcileModel)),
     Stage(!m.protocol, DEGRADED, Problem(MODEL_PROTOCOL_UNAVAILABLE, RunChecks)),
     Stage(!Live(m.observed, now), DEGRADED, Problem(MODEL_OBSERVATION_STALE, RunChecks))]
  }

  function GatewayStages(g: Gateway, now: Option<Instant>): (stages: seq<Stage>) {
    [Stage(!g.installed, ABSENT, Problem(GATEWAY_NOT_INSTALLED, EnableConnections)),
     Stage(!g.process, STOPPED, Problem(GATEWAY_STOPPED, EnableConnections)),
     Stage(!g.metadata, BLOCKED, Problem(GATEWAY_CREDENTIAL_REQUIRED, AddClient)),
     Stage(!g.listeners || !g.backend, DEGRADED, Problem(GATEWAY_PROTOCOL_UNAVAILABLE, RunChecks)),
     Stage(!Live(g.observed, now), DEGRADED, Problem(GATEWAY_OBSERVATION_STALE, RunChecks))]
  }

  function WebUiStages(w: WebUi, now: Option<Instant>): (stages: seq<Stage>) {
    [Stage(!w.installed, ABSENT, Problem(OPENWEBUI_NOT_INSTALLED, EnableOpenWebui)),
     Stage(w.starting, STARTING, Problem(OPENWEBUI_STARTING, OpenActivity)),
     Stage(!w.process, STOPPED, Problem(OPENWEBUI_STOPPED, EnableOpenWebui)),
     Stage(!w.http, DEGRADED, Problem(OPENWEBUI_HTTP_UNAVAILABLE, RunChecks)),
     Stage(!Live(w.observed, now), DEGRADED, Problem(OPENWEBUI_OBSERVATION_STALE, RunChecks)),
     Stage(!w.provider, BLOCKED, Problem(OPENWEBUI_PROVIDER_NOT_CONFIGURED, ReconcileOpenWebui)),
     Stage(!w.visible, BLOCKED, Problem(OPENWEBUI_MODEL_NOT_VISIBLE, ReconcileOpenWebui)),
     Stage(!w.verified, DEGRADED, Problem(OPENWEBUI_CHAT_UNVERIFIED, RunChecks))]
  }

  function TailscaleStages(t: Tailscale, now: Option<Instant>): (stages: seq<Stage>) {
    [Stage(!t.installed, ABSENT, Problem(TAILSCALE_NOT_INSTALLED, OpenConnections)),
     Stage(!t.process, STOPPED, Problem(TAILSCALE_STOPPED, OpenConnections)),
     Stage(!t.connected || !t.named, DEGRADED, Problem(TAILSCALE_DISCONNECTED, OpenConnections)),
     Stage(!Live(t.observed, now), DEGRADED, Problem(TAILSCALE_OBSERVATION_STALE, OpenConnections))]
  }

  function ServeStages(s: Serve, now: Option<Instant>): (stages: seq<Stage>) {
    [Stage(s.publicFunnel, BLOCKED, Problem(PUBLIC_FUNNEL_ENABLED, ReconcileSharing)),
     Stage(!s.mappings, STOPPED, Problem(SERVE_MAPPING_MISSING, ReconcileSharing)),
     Stage(!s.funnelDisabled, UNKNOWN, Problem(FUNNEL_STATE_UNKNOWN, ReconcileSharing)),
     Stage(!Live(s.observed, now), DEGRADED, Problem(SERVE_OBSERVATION_STALE, ReconcileSharing))]
  }

  function VerificationStages(v: Verification, now: Option<Instant>, dependencies: bool): (stages: seq<Stage>) {
    [Stage(!dependencies, BLOCKED, Problem(REMOTE_DEPENDENCY_NOT_READY, RunChecks)),
     Stage(v.expected.Some? && v.expected != v.verified, BLOCKED, Problem(CLIENT_VERIFICATION_INVALIDATED, RunChecks)),
     Stage(!Fresh(v.observed, now, JOURNEY_VERIFICATION_MAX_AGE), DEGRADED, Problem(CLIENT_VERIFICATION_STALE, RunChecks)),
     Stage(!v.passed, DEGRADED, Problem(CLIENT_VERIFICATION_FAILED, RunChecks))]
  }

  function ModelReadiness(m: Model, now: Option<Instant>): (c: Component)
    ensures Coherent(c)
    ensures ShowsFirst(c, ModelStages(m, now))
    ensures c.process <==> m.installed && m.process
    ensures c.protocol <==> m.installed && !m.starting && m.process && m.protocol && Live(m.observed, now)
    ensures c.journey <==> c.state == READY && m.chatVerified
  {
    ghost var stages := ModelStages(m, now);
    assert stages[0].missing || stages[1].missing || stages[2].missing || stages[3].missing || stages[4].missing || stages[5].missing || |stages| == 6;
    if !m.installed then Failing(ABSENT, false, false, MODEL_ABSENT, BrowseModels)
    else if m.starting then Failing(STARTING, m.process, false, MODEL_STARTING, OpenActivity)
    else if !m.process then Failing(STOPPED, false, false, MODEL_STOPPED, StartModel)
    else if !m.identityMatches then
      Failing(BLOCKED, true, m.protocol && Live(m.observed, now), MODEL_IDENTITY_MISMATCH, ReconcileModel)
    else if !m.protocol || !Live(m.observed, now) then
      Failing(DEGRADED, true, false,
              if m.protocol then MODEL_OBSERVATION_STALE else MODEL_PROTOCOL_UNAVAILABLE, RunChecks)
    else Component(READY, true, true, m.chatVerified, None)
  }

  function GatewayReadiness(g: Gateway, now: Option<Instant>): (c: Component)
    ensures Coherent(c)
    ensures ShowsFirst(c, GatewayStages(g, now))
    ensures (c.process <==> g.installed && g.process) && (c.protocol <==> c.state == READY)
    ensures c.journey <==> c.state == READY && g.sseVerified
  {
    ghost var stages := GatewayStages(g, now);
    assert stages[0].missing || stages[1].missing || stages[2].missing || stages[3].missing || stages[4].missing || |stages| == 5;
    var protocol := g.listeners && g.backend;
    if !g.installed then Failing(ABSENT, false, false, GATEWAY_NOT_INSTALLED, EnableConnections)
    else if !g.process then Failing(STOPPED, false, false, GATEWAY_STOPPED, EnableConnections)
    else if !g.metadata then Failing(BLOCKED, true, false, GATEWAY_CREDENTIAL_REQUIRED, AddClient)
    else if !protocol || !Live(g.observed, now) then
      Failing(DEGRADED, true, false,
              if protocol then GATEWAY_OBSERVATION_STALE else GATEWAY_PROTOCOL_UNAVAILABLE, RunChecks)
    else Component(READY, true, true, g.sseVerified, None)
  }

  function WebUiReadiness(w: WebUi, now: Option<Instant>): (c: Component)
    ensures Coherent(c)
    ensures ShowsFirst(c, WebUiStages(w, now))
    ensures c.process <==> w.installed && w.process
    ensures c.protocol <==> w.installed && !w.starting && w.process && w.http && Live(w.observed, now)
    ensures c.journey <==> c.state == READY
  {
    ghost var stages := WebUiStages(w, now);
    assert stages[0].missing || stages[1].missing || stages[2].missing || stages[3].missing || stages[4].missing || stages[5].missing || stages[6].missing || stages[7].missing || |stages| == 8;
    if !w.installed then Failing(ABSENT, false, false, OPENWEBUI_NOT_INSTALLED, EnableOpenWebui)
    else if w.starting then Failing(STARTING, w.process, false, OPENWEBUI_STARTING, OpenActivity)
    else if !w.process then Failing(STOPPED, false, false, OPENWEBUI_STOPPED, EnableOpenWebui)
    else if !w.http || !Live(w.observed, now) then
      Failing(DEGRADED, true, false,
              if w.http then OPENWEBUI_OBSERVATION_STALE else OPENWEBUI_HTTP_UNAVAILABLE, RunChecks)
    else if !w.provider || !w.visible then
      Failing(BLOCKED, true, true,
              if !w.provider then OPENWEBUI_PROVIDER_NOT_CONFIGURED else OPENWEBUI_MODEL_NOT_VISIBLE,
              ReconcileOpenWebui)
    else if !w.verified then Failing(DEGRADED, true, true, OPENWEBUI_CHAT_UNVERIFIED, RunChecks)
    else Component(READY, true, true, true, None)
  }

  function TailscaleReadiness(t: Tailscale, now: Option<Instant>): (c: Component)
    ensures Coherent(c)
    ensures ShowsFirst(c, TailscaleStages(t, now))
    ensures (c.process <==> t.process) && (c.protocol <==> c.state == READY) && !c.journey
  {
    ghost var stages := TailscaleStages(t, now);
    assert stages[0].missing || stages[1].missing || stages[2].missing || stages[3].missing || |stages| == 4;
    if !t.installed then Failing(ABSENT, t.process, false, TAILSCALE_NOT_INSTALLED, OpenConnections)
    else if !t.process then Failing(STOPPED, false, false, TAILSCALE_STOPPED, OpenConnections)
    else if !t.connected || !t.named || !Live(t.observed, now) then
      Failing(DEGRADED, true, false,
              if t.connected && t.named then TAILSCALE_OBSERVATION_STALE else TAILSCALE_DISCONNECTED,
              OpenConnections)
    else Component(READY, true, true, false, None)
  }

  function ServeReadiness(s: Serve, now: Option<Instant>): (c: Component)
    ensures Coherent(c)
    ensures ShowsFirst(c, ServeStages(s, now))
    ensures (c.process <==> s.mappings) && (c.protocol <==> c.state == READY) && !c.journey
  {
    ghost var stages := ServeStages(s, now);
    assert stages[0].missing || stages[1].missing || stages[2].missing || stages[3].missing || |stages| == 4;
    if s.publicFunnel then Failing(BLOCKED, s.mappings, false, PUBLIC_FUNNEL_ENABLED, ReconcileSharing)
    else if !s.mappings then Failing(STOPPED, false, false, SERVE_MAPPING_MISSING, ReconcileSharing)
    else if !s.funnelDisabled then Failing(UNKNOWN, true, false, FUNNEL_STATE_UNKNOWN, ReconcileSharing)
    else if !Live(s.observed, now) then Failing(DEGRADED, true, false, SERVE_OBSERVATION_STALE, ReconcileSharing)
    else Component(READY, true, true, false, None)
  }

  function VerificationReadiness(v: Verification, now: Option<Instant>, dependencies: bool): (c: Component)
    ensures Coherent(c)
    ensures ShowsFirst(c, VerificationStages(v, now, dependencies))
    ensures (c.process <==> dependencies) && (c.protocol <==> dependencies && v.passed) && (c.journey <==> c.state == READY)
  {
    ghost var stages := VerificationStages(v, now, dependencies);
    assert stages[0].missing || stages[1].missing || stages[2].missing || stages[3].missing || |stages| == 4;
    var protocol := dependencies && v.passed;
    if !dependencies then Failing(BLOCKED, false, false, REMOTE_DEPENDENCY_NOT_READY, RunChecks)
    else if v.expected.Some? && v.expected != v.verified then
      Failing(BLOCKED, true, protocol, CLIENT_VERIFICATION_INVALIDATED, RunChecks)
    else if !Fresh(v.observed, now, JOURNEY_VERIFICATION_MAX_AGE) then
      Failing(DEGRADED, true, protocol, CLIENT_VERIFICATION_STALE, RunChecks)
    else if !v.passed then Failing(DEGRADED, true, false, CLIENT_VERIFICATION_FAILED, RunChecks)
    else Component(READY, true, true, true, None)
  }

  /** The thermal and the recovery component. */
  function Guard(blocked: bool, problem: Problem): (c: Component)
    ensures Coherent(c)
  {
    Component(if blocked then BLOCKED else READY, true, !blocked, !blocked, if blocked then Some(problem) else None)
  }

  const URGENCY := [BLOCKED, ABSENT, STOPPED, DEGRADED, STARTING, UNKNOWN]

  function FirstInState(rows: seq<Component>, state: State): (found: Option<Component>) {
    if rows == [] then None
    else if rows[0].state == state then Some(rows[0])
    else FirstInState(rows[1..], state)
  }

  function FirstProblem(rows: seq<Component>, states: seq<State>): (found: Option<Component>) {
    if states == [] then None
    else
      var first := FirstInState(rows, states[0]);
      if first.Some? then first else FirstProblem(rows, states[1..])
  }

  /** The components one journey is judged by, in the order the reducer lists them. */
  function Targets(o: Observations, now: Option<Instant>, journey: Journey): (rows: seq<Component>) {
    var safety := Guard(o.thermalBlocked, Problem(THERMAL_SAFETY_BLOCK, OpenThermal));
    var recovery := Guard(o.recoveryRequired, Problem(RECOVERY_REQUIRED, OpenRecovery));
    var model := ModelReadiness(o.model, now);
    var gateway := GatewayReadiness(o.gateway, now);
    var tailscale := TailscaleReadiness(o.tailscale, now);
    var serve := ServeReadiness(o.serve, now);
    match journey
    case NativeChat => [safety, recovery, model]
    case OpenWebui => [safety, recovery, model, gateway, WebUiReadiness(o.webui, now)]
    case RemoteClient =>
      [safety, recovery, model, gateway, tailscale, serve, VerificationOf(o, now)]
  }

  function VerificationOf(o: Observations, now: Option<Instant>): (c: Component)
    ensures Coherent(c)
  {
    VerificationReadiness(o.verification, now,
                          && ModelReadiness(o.model, now).state == READY
                          && GatewayReadiness(o.gateway, now).state == READY
                          && TailscaleReadiness(o.tailscale, now).state == READY
                          && ServeReadiness(o.serve, now).state == READY)
  }

  function Build(o: Observations, now: Option<Instant>, journey: Journey): (s: Snapshot) {
    var model := ModelReadiness(o.model, now);
    var core := !o.thermalBlocked && !o.recoveryRequired && model.state == READY;
    var native := core && model.journey;
    var found := FirstProblem(Targets(o, now, journey), URGENCY);
    var primary :=
      if journey == NativeChat && found.None? && !native
      then Some(Failing(DEGRADED, model.process, model.protocol, NATIVE_CHAT_UNVERIFIED, RunChecks))
      else found;
    Snapshot(
      if primary.None? then READY else primary.value.state,
      if primary.None? then None else primary.value.problem,
      native,
      core && GatewayReadiness(o.gateway, now).state == READY && WebUiReadiness(o.webui, now).state == READY,
      core && VerificationOf(o, now).state == READY)
  }

  function JourneyFlag(s: Snapshot, journey: Journey): (ready: bool) {
    match journey
    case NativeChat => s.nativeReady
    case OpenWebui => s.openwebuiReady
    case RemoteClient => s.remoteReady
  }

  // ---- What the reducer promises ----

  /** Everything a journey asks for apart from the age of its evidence, said without the reducers. */
  predicate Sound(o: Observations, journey: Journey) {
    && !o.thermalBlocked && !o.recoveryRequired
    && o.model.installed && !o.model.starting && o.model.process && o.model.protocol && o.model.identityMatches
    && (journey == NativeChat ==> o.model.chatVerified)
    && (journey != NativeChat ==>
          o.gateway.installed && o.gateway.process && o.gateway.metadata && o.gateway.listeners && o.gateway.backend)
    && (journey == OpenWebui ==>
          && o.webui.installed && !o.webui.starting && o.webui.process && o.webui.http
          && o.webui.provider && o.webui.visible && o.webui.verified)
    && (journey == RemoteClient ==>
          && o.tailscale.installed && o.tailscale.process && o.tailscale.connected && o.tailscale.named
          && !o.serve.publicFunnel && o.serve.mappings && o.serve.funnelDisabled
          && o.verification.passed
          && (o.verification.expected.Some? ==> o.verification.expected == o.verification.verified))
  }

  /** The stamps a journey rests on, each with the age it may reach. */
  function Evidence(o: Observations, journey: Journey): (stamps: seq<(Option<Instant>, int)>) {
    var live := 10_000_000;
    match journey
    case NativeChat => [(o.model.observed, live)]
    case OpenWebui => [(o.model.observed, live), (o.gateway.observed, live), (o.webui.observed, live)]
    case RemoteClient =>
      [(o.model.observed, live), (o.gateway.observed, live), (o.tailscale.observed, live),
       (o.serve.observed, live), (o.verification.observed, 300_000_000)]
  }

  predicate Current(o: Observations, now: Option<Instant>, journey: Journey) {
    forall e :: e in Evidence(o, journey) ==> Fresh(e.0, now, e.1)
  }

  /** The row at `i` is the first of its state. */
  predicate FirstAt(rows: seq<Component>, i: nat, state: State) {
    i < |rows| && rows[i].state == state && forall j | 0 <= j < i :: rows[j].state != state
  }

  lemma {:induction false} FirstInStateFinds(rows: seq<Component>, state: State)
    ensures FirstInState(rows, state).None? <==> forall c | c in rows :: c.state != state
    ensures FirstInState(rows, state).Some? ==>
              exists i | 0 <= i < |rows| :: FirstAt(rows, i, state) && rows[i] == FirstInState(rows, state).value
  {
    if rows != [] {
      assert rows == [rows[0]] + rows[1..];
      if rows[0].state == state {
        assert FirstAt(rows, 0, state);
      } else {
        FirstInStateFinds(rows[1..], state);
        if FirstInState(rows[1..], state).Some? {
          var i :| 0 <= i < |rows[1..]| && FirstAt(rows[1..], i, state) && rows[1..][i] == FirstInState(rows[1..], state).value;
          assert forall j | 1 <= j < i + 1 :: rows[j] == rows[1..][j - 1];
          assert FirstAt(rows, i + 1, state);
        }
      }
    }
  }

  /** The problem shown is the first row in the most urgent state that any row
      is in. */
  lemma {:induction false} FirstProblemIsMostUrgent(rows: seq<Component>, states: seq<State>)
    ensures var found := FirstProblem(rows, states);
      && (found.None? <==> forall c | c in rows :: c.state !in states)
      && (found.Some? ==>
            && (exists i | 0 <= i < |rows| :: FirstAt(rows, i, found.value.state) && rows[i] == found.value)
            && exists k :: 0 <= k < |states| && states[k] == found.value.state
                           && forall c | c in rows :: c.state !in states[..k])
  {
    if states != [] {
      FirstInStateFinds(rows, states[0]);
      if FirstInState(rows, states[0]).None? {
        FirstProblemIsMostUrgent(rows, states[1..]);
        var found := FirstProblem(rows, states[1..]);
        assert states == [states[0]] + states[1..];
        if found.Some? {
          var k :| 0 <= k < |states[1..]| && states[1..][k] == found.value.state
                   && forall c | c in rows :: c.state !in states[1..][..k];
          assert states[..k + 1] == [states[0]] + states[1..][..k];
          assert states[k + 1] == found.value.state;
        }
      } else {
        assert states[..0] == [];
      }
    }
  }

  lemma TargetsAreCoherent(o: Observations, now: Option<Instant>, journey: Journey)
    ensures forall c :: c in Targets(o, now, journey) ==> Coherent(c)
  {
    hide ModelReadiness, GatewayReadiness, WebUiReadiness, TailscaleReadiness, ServeReadiness, VerificationOf, Guard, Coherent;
  }

  lemma NonReadyIsRanked(s: State)
    ensures s in URGENCY <==> s != READY
  {
    assert URGENCY[0] == BLOCKED && URGENCY[1] == ABSENT && URGENCY[2] == STOPPED
           && URGENCY[3] == DEGRADED && URGENCY[4] == STARTING && URGENCY[5] == UNKNOWN;
  }

  lemma NothingFoundMeansAllReady(o: Observations, now: Option<Instant>, journey: Journey)
    ensures FirstProblem(Targets(o, now, journey), URGENCY).None?
            <==> forall c :: c in Targets(o, now, journey) ==> c.state == READY
    ensures FirstProblem(Targets(o, now, journey), URGENCY).Some? ==>
              var c := FirstProblem(Targets(o, now, journey), URGENCY).value; c.state != READY && c.problem.Some?
  {
    hide Targets, FirstProblem;
    FirstProblemIsMostUrgent(Targets(o, now, journey), URGENCY);
    TargetsAreCoherent(o, now, journey);
    forall s: State ensures s in URGENCY <==> s != READY { NonReadyIsRanked(s); }
  }

  /** When a component of the journey is not READY, the snapshot shows the problem of the first one listed in
    * the most urgent state present, and takes that state; a thermal block is shown before anything else. */
  lemma SnapshotShowsTheMostUrgent(o: Observations, now: Option<Instant>, journey: Journey)
    requires exists c :: c in Targets(o, now, journey) && c.state != READY
    ensures var s := Build(o, now, journey);
      && (exists i | 0 <= i < |Targets(o, now, journey)| ::
            FirstAt(Targets(o, now, journey), i, s.overall) && Targets(o, now, journey)[i].problem == s.primary)
      && (exists k :: 0 <= k < |URGENCY| && URGENCY[k] == s.overall
                      && forall c :: c in Targets(o, now, journey) ==> c.state !in URGENCY[..k])
      && (o.thermalBlocked ==> s.primary == Some(Problem(THERMAL_SAFETY_BLOCK, OpenThermal)))
  {
    NothingFoundMeansAllReady(o, now, journey);
    FirstProblemIsMostUrgent(Targets(o, now, journey), URGENCY);
    if o.thermalBlocked { ThermalIsFirst(o, now, journey); }
    hide Targets, FirstProblem, ModelReadiness, GatewayReadiness, WebUiReadiness, VerificationOf;
  }

  lemma ThermalIsFirst(o: Observations, now: Option<Instant>, journey: Journey)
    requires o.thermalBlocked
    ensures FirstProblem(Targets(o, now, journey), URGENCY) == Some(Targets(o, now, journey)[0])
    ensures Targets(o, now, journey)[0].problem == Some(Problem(THERMAL_SAFETY_BLOCK, OpenThermal))
  {
    hide ModelReadiness, GatewayReadiness, WebUiReadiness, TailscaleReadiness, ServeReadiness, VerificationOf;
    assert URGENCY[0] == BLOCKED;
  }

  lemma AllTargetsReadyExactly(o: Observations, now: Option<Instant>, journey: Journey)
    ensures (forall c :: c in Targets(o, now, journey) ==> c.state == READY)
            <==> match journey
                 case NativeChat => !o.thermalBlocked && !o.recoveryRequired && ModelReadiness(o.model, now).state == READY
                 case OpenWebui => Build(o, now, journey).openwebuiReady
                 case RemoteClient => Build(o, now, journey).remoteReady
  {
    hide ModelReadiness, GatewayReadiness, WebUiReadiness, TailscaleReadiness, ServeReadiness, FirstProblem;
    var rows := Targets(o, now, journey);
    assert rows[0] in rows && rows[1] in rows && rows[2] in rows;
    if journey != NativeChat { assert rows[3] in rows && rows[4] in rows; }
    if journey == RemoteClient { assert rows[5] in rows && rows[6] in rows; }
  }

  /** For the target journey: READY, the journey's own flag and the absence of a problem say the same. */
  lemma ReadyFlagAndProblemAgree(o: Observations, now: Option<Instant>, journey: Journey)
    ensures var s := Build(o, now, journey);
      && (s.overall == READY <==> JourneyFlag(s, journey))
      && (s.overall == READY <==> s.primary.None?)
  {
    hide Targets, FirstProblem, ModelReadiness, GatewayReadiness, WebUiReadiness, VerificationOf;
    NothingFoundMeansAllReady(o, now, journey);
    AllTargetsReadyExactly(o, now, journey);
  }

  /** The flag against a definition that never looks at a component state: facts sound, evidence current. */
  lemma FlagIsEvidence(o: Observations, now: Option<Instant>, journey: Journey)
    ensures JourneyFlag(Build(o, now, journey), journey) <==> Sound(o, journey) && Current(o, now, journey)
  {
    hide Targets, FirstProblem;
    var e := Evidence(o, journey);
    assert e[0] in e;
    if journey != NativeChat { assert e[1] in e && e[2] in e; }
    if journey == RemoteClient { assert e[3] in e && e[4] in e; }
  }

  lemma ReadyExactlyWhen(o: Observations, now: Option<Instant>, journey: Journey)
    ensures Build(o, now, journey).overall == READY <==> Sound(o, journey) && Current(o, now, journey)
  {
    hide Build, Sound, Current;
    ReadyFlagAndProblemAgree(o, now, journey);
    FlagIsEvidence(o, now, journey);
  }

  /** With the observations fixed, the instants judged READY have no gap and span at most eleven seconds. */
  lemma ReadyTimesAreOneShortInterval(o: Observations, journey: Journey, a: Instant, b: Instant, c: Instant)
    requires a <= b <= c
    requires Build(o, Some(a), journey).overall == READY
    requires Build(o, Some(c), journey).overall == READY
    ensures Build(o, Some(b), journey).overall == READY
    ensures c - a <= 11_000_000
  {
    hide Build, Sound;
    ReadyExactlyWhen(o, Some(a), journey);
    ReadyExactlyWhen(o, Some(b), journey);
    ReadyExactlyWhen(o, Some(c), journey);
    var e := Evidence(o, journey)[0];
    assert e in Evidence(o, journey);
    assert Fresh(e.0, Some(a), e.1) && Fresh(e.0, Some(c), e.1);
  }

  /** The eleven seconds are reached: one second before the stamp, ten after it. */
  lemma ElevenSecondsAreReached(o: Observations, t: Instant)
    requires Sound(o, NativeChat) && o.model.observed == Some(t)
    ensures Build(o, Some(t - 1_000_000), NativeChat).overall == READY
    ensures Build(o, Some(t + 10_000_000), NativeChat).overall == READY
  {
    hide Build, Sound;
    ReadyExactlyWhen(o, Some(t - 1_000_000), NativeChat);
    ReadyExactlyWhen(o, Some(t + 10_000_000), NativeChat);
  }
}
