/** Streamable HTTP posts: touch the session, reserve the request id, pass the lifecycle gate, then
    dispatch or accept a notification, and only then mark the session as initialized. Any number of
    posts, stream openings and deletions interleave between these store operations. */
module McpLifecycle {
  import opened Wrappers
  import opened StoreRecords
  import opened McpSessions

  type Sessions = map<string, McpSessionRecord>

  /** A message whose method is the one in the body; `wellFormed` tells whether the parameters of a
      notification, or of an initialize request, are valid. */
  datatype Body =
    | ResponseMessage
    | MalformedMessage(rawMethod: Option<string>)
    | RequestMessage(rpcMethod: string, id: Option<string>, wellFormed: bool)

  /** `session` is the hash of a well-formed session header; `hasHeader` tells whether there is any. */
  datatype Post = Post(body: Body, hasHeader: bool, session: Option<string>, protocolVersion: Option<string>)

  datatype Phase =
    | Arrived
    | Touched(session: Option<string>, initialized: bool)
    | AtGate(session: Option<string>, initialized: bool)
    | Creating
    | Marking(hash: string)
    | Finished

  datatype Process = Process(post: Post, phase: Phase)

  /** A request handed to its method. */
  datatype Dispatch = Dispatch(p: nat, session: Option<string>, rpcMethod: string)

  /** `accepted`, `holders` and `dispatches` are history: the sessions for which a valid initialized
      notification was accepted, the post that each reserved id was granted to, and the dispatches. */
  datatype System = System(
    sessions: Sessions,
    procs: map<nat, Process>,
    accepted: set<string>,
    holders: map<(string, string), nat>,
    dispatches: seq<Dispatch>)

  datatype Step =
    | Arrive(p: nat, post: Post)
    | TouchSession(p: nat, now: int)
    | ReserveId(p: nat, now: int)
    | Gate(p: nat)
    | Create(p: nat, hash: string, clientId: string, negotiated: string, now: int)
    | Mark(p: nat, now: int)
    | OpenStream(session: string, protocolVersion: Option<string>, now: int)
    | Delete(session: string, now: int)

  const SESSION_SECONDS := 3600

  function MethodOf(body: Body): Option<string> {
    match body
    case ResponseMessage => None
    case MalformedMessage(rawMethod) => rawMethod
    case RequestMessage(rpcMethod, _, _) => Some(rpcMethod)
  }

  predicate AllowedBeforeInitialized(rpcMethod: string) {
    rpcMethod in {"initialize", "ping", "notifications/initialized"}
  }

  function SessionAt(s: System, hash: string): Option<McpSessionRecord> {
    if hash in s.sessions then Some(s.sessions[hash]) else None
  }

  function To(s: System, p: nat, phase: Phase): System
    requires p in s.procs
  {
    s.(procs := s.procs[p := s.procs[p].(phase := phase)])
  }

  function NewSession(hash: string, clientId: string, protocolVersion: string, now: int): McpSessionRecord {
    McpSessionRecord(hash, clientId, protocolVersion, now, now, now + SESSION_SECONDS, [], None, None)
  }

  // ----- actions -----

  /** An initialize request must not come with a session header; every other message must name a session. */
  ghost predicate TouchAction(s: System, p: nat, now: int, s': System) {
    && p in s.procs && s.procs[p].phase.Arrived? && now > 0
    && var post := s.procs[p].post;
    if MethodOf(post.body) == Some("initialize") then
      s' == To(s, p, if post.hasHeader then Finished else Touched(None, false))
    else if post.session.None? then
      s' == To(s, p, Finished)
    else
      match Touch(SessionAt(s, post.session.value), post.protocolVersion, false, now)
      case Err(_) => s' == To(s, p, Finished)
      case Ok((record, initialized)) =>
        s' == To(s, p, Touched(post.session, initialized)).(sessions := s.sessions[post.session.value := record])
  }

  /** Responses are acknowledged and malformed messages refused; a request with an id must reserve it. */
  ghost predicate ReserveAction(s: System, p: nat, now: int, s': System) {
    && p in s.procs && s.procs[p].phase.Touched? && now > 0
    && var Touched(session, initialized) := s.procs[p].phase;
    match s.procs[p].post.body
    case RequestMessage(_, Some(id), _) =>
      if session.None? then s' == To(s, p, AtGate(session, initialized))
      else
        (match Reserve(SessionAt(s, session.value), id, now)
         case Err(_) => s' == To(s, p, Finished)
         case Ok((record, granted)) =>
           var after := s.(sessions := s.sessions[session.value := record]);
           if granted then s' == To(after, p, AtGate(session, initialized)).(holders :=
               s.holders[(session.value, id) := p])
           else s' == To(after, p, Finished))
    case RequestMessage(_, None, _) => s' == To(s, p, AtGate(session, initialized))
    case _ => s' == To(s, p, Finished)
  }

  ghost predicate GateAction(s: System, p: nat, s': System) {
    && p in s.procs && s.procs[p].phase.AtGate? && s.procs[p].post.body.RequestMessage?
    && var AtGate(session, initialized) := s.procs[p].phase;
    && var RequestMessage(rpcMethod, id, wellFormed) := s.procs[p].post.body;
    if !initialized && !AllowedBeforeInitialized(rpcMethod) then
      s' == To(s, p, Finished)
    else if id.None? then
      if rpcMethod == "notifications/initialized" && wellFormed && session.Some? then
        s' == To(s, p, Marking(session.value)).(accepted := s.accepted + {session.value})
      else
        s' == To(s, p, Finished)
    else
      var after := s.(dispatches := s.dispatches + [Dispatch(p, session, rpcMethod)]);
      s' == To(after, p, if rpcMethod == "initialize" && wellFormed then Creating else Finished)
  }

  ghost predicate CreateAction(s: System, p: nat, hash: string, clientId: string, protocolVersion: string, now: int,
      s': System) {
    && p in s.procs && s.procs[p].phase.Creating? && hash !in s.sessions && now > 0
    && s' == To(s, p, Finished).(sessions := s.sessions[hash := NewSession(hash, clientId, protocolVersion, now)])
  }

  ghost predicate MarkAction(s: System, p: nat, now: int, s': System) {
    && p in s.procs && s.procs[p].phase.Marking? && now > 0
    && var session := s.procs[p].phase.hash;
    match Touch(SessionAt(s, session), s.procs[p].post.protocolVersion, true, now)
    case Err(_) => s' == To(s, p, Finished)
    case Ok((record, _)) => s' == To(s, p, Finished).(sessions := s.sessions[session := record])
  }

  ghost predicate OpenStreamAction(s: System, session: string, protocolVersion: Option<string>, now: int, s': System) {
    now > 0
    && match Touch(SessionAt(s, session), protocolVersion, false, now)
       case Err(_) => s' == s
       case Ok((record, _)) => s' == s.(sessions := s.sessions[session := record])
  }

  ghost predicate DeleteAction(s: System, session: string, now: int, s': System) {
    now > 0
    && match Terminate(SessionAt(s, session), now)
       case Err(_) => s' == s
       case Ok(record) => s' == s.(sessions := s.sessions[session := record])
  }

  ghost predicate Next(s: System, step: Step, s': System) {
    match step
    case Arrive(p, post) => p !in s.procs && s' == s.(procs := s.procs[p := Process(post, Arrived)])
    case TouchSession(p, now) => TouchAction(s, p, now, s')
    case ReserveId(p, now) => ReserveAction(s, p, now, s')
    case Gate(p) => GateAction(s, p, s')
    case Create(p, hash, clientId, negotiated, now) => CreateAction(s, p, hash, clientId, negotiated, now, s')
    case Mark(p, now) => MarkAction(s, p, now, s')
    case OpenStream(session, protocolVersion, now) => OpenStreamAction(s, session, protocolVersion, now, s')
    case Delete(session, now) => DeleteAction(s, session, now, s')
  }

  ghost predicate Init(s: System) {
    s == System(map[], map[], {}, map[], [])
  }

  ghost predicate StepAt(states: seq<System>, steps: seq<Step>, i: nat)
    requires |states| == |steps| + 1 && i < |steps|
  {
    Next(states[i], steps[i], states[i + 1])
  }

  ghost predicate IsRun(states: seq<System>, steps: seq<Step>) {
    && |states| == |steps| + 1 && Init(states[0])
    && forall i: nat | i < |steps| :: StepAt(states, steps, i)
  }

  // ----- invariant -----

  /** Only an accepted notification initializes a session. */
  ghost predicate SessionsTracked(s: System) {
    forall h | h in s.sessions && s.sessions[h].initializedAt.Some? :: h in s.accepted
  }

  ghost predicate PhaseTracked(s: System, phase: Phase) {
    match phase
    case Touched(session, initialized) => initialized ==> session.Some? && session.value in s.accepted
    case AtGate(session, initialized) => initialized ==> session.Some? && session.value in s.accepted
    case Marking(session) => session in s.accepted
    case _ => true
  }

  /** A post past its reservation holds its id, and the session remembers it. */
  ghost predicate IdHeld(s: System, p: nat, proc: Process) {
    proc.phase.AtGate? && proc.phase.session.Some? && proc.post.body.RequestMessage? && proc.post.body.id.Some? ==>
      var key := (proc.phase.session.value, proc.post.body.id.value);
      key in s.holders && s.holders[key] == p
  }

  ghost predicate HoldersTracked(s: System) {
    forall key | key in s.holders :: key.0 in s.sessions && key.1 in s.sessions[key.0].requestIdHashes
  }

  ghost predicate DispatchTracked(s: System, d: Dispatch) {
    && (d.rpcMethod != "initialize" && d.rpcMethod != "ping" && d.rpcMethod != "notifications/initialized" ==>
          d.session.Some? && d.session.value in s.accepted)
    && d.p in s.procs && s.procs[d.p].post.body.RequestMessage? && s.procs[d.p].post.body.id.Some?
    && (d.session.Some? ==>
          var key := (d.session.value, s.procs[d.p].post.body.id.value);
          key in s.holders && s.holders[key] == d.p)
  }

  ghost predicate Inv(s: System) {
    && SessionsTracked(s) && HoldersTracked(s)
    && (forall p {:trigger PhaseTracked(s, s.procs[p].phase)} | p in s.procs :: PhaseTracked(s, s.procs[p].phase))
    && (forall p {:trigger IdHeld(s, p, s.procs[p])} | p in s.procs :: IdHeld(s, p, s.procs[p]))
    && (forall d {:trigger DispatchTracked(s, d)} | d in s.dispatches :: DispatchTracked(s, d))
  }

  ghost predicate SessionsAdvance(before: Sessions, after: Sessions) {
    forall h | h in before ::
      && h in after
      && (before[h].initializedAt.Some? ==> after[h].initializedAt.Some?)
      && before[h].requestIdHashes <= after[h].requestIdHashes
  }

  /** What no step undoes. */
  ghost predicate Advances(s: System, s': System) {
    && s.accepted <= s'.accepted
    && SessionsAdvance(s.sessions, s'.sessions)
    && (forall key | key in s.holders :: key in s'.holders && s'.holders[key] == s.holders[key])
    && (forall p | p in s.procs :: p in s'.procs && s'.procs[p].post == s.procs[p].post)
    && s.dispatches <= s'.dispatches
  }

  /** A reservation grants an id that nobody holds yet. */
  lemma GrantedIsNew(s: System, session: string, id: string, now: int)
    requires HoldersTracked(s) && Reserve(SessionAt(s, session), id, now).Ok?
        && Reserve(SessionAt(s, session), id, now).value.1
    ensures (session, id) !in s.holders
  {
  }

  lemma TouchAdvances(s: System, p: nat, now: int, s': System)
    requires TouchAction(s, p, now, s')
    ensures Advances(s, s')
  {
  }

  lemma ReserveAdvances(s: System, p: nat, now: int, s': System)
    requires HoldersTracked(s) && ReserveAction(s, p, now, s')
    ensures Advances(s, s')
  {
    match s.procs[p].post.body {
      case RequestMessage(_, Some(id), _) =>
        var session := s.procs[p].phase.session;
        if session.Some? && Reserve(SessionAt(s, session.value), id, now).Ok?
            && Reserve(SessionAt(s, session.value), id, now).value.1 {
          GrantedIsNew(s, session.value, id, now);
        }
      case _ =>
    }
  }

  lemma GateAdvances(s: System, p: nat, s': System)
    requires GateAction(s, p, s')
    ensures Advances(s, s')
  {
  }

  lemma MarkAdvances(s: System, p: nat, now: int, s': System)
    requires MarkAction(s, p, now, s')
    ensures Advances(s, s')
  {
  }

  lemma DeleteAdvances(s: System, session: string, now: int, s': System)
    requires DeleteAction(s, session, now, s')
    ensures Advances(s, s')
  {
  }

  lemma OpenStreamAdvances(s: System, session: string, protocolVersion: Option<string>, now: int,
      s': System)
    requires OpenStreamAction(s, session, protocolVersion, now, s')
    ensures Advances(s, s')
  {
  }

  lemma NextAdvances(s: System, step: Step, s': System)
    requires HoldersTracked(s) && Next(s, step, s')
    ensures Advances(s, s')
  {
    match step {
      case Arrive(_, _) =>
      case TouchSession(p, now) => TouchAdvances(s, p, now, s');
      case ReserveId(p, now) => ReserveAdvances(s, p, now, s');
      case Gate(p) => GateAdvances(s, p, s');
      case Create(_, _, _, _, _) =>
      case Mark(p, now) => MarkAdvances(s, p, now, s');
      case OpenStream(session, protocolVersion, now) => OpenStreamAdvances(s, session, protocolVersion, now, s');
      case Delete(session, now) => DeleteAdvances(s, session, now, s');
    }
  }

  lemma NextKeepsSessions(s: System, step: Step, s': System)
    requires SessionsTracked(s) && Next(s, step, s')
    requires forall p {:trigger PhaseTracked(s, s.procs[p].phase)} | p in s.procs :: PhaseTracked(s, s.procs[p].phase)
    ensures SessionsTracked(s')
  {
    if step.Mark? {
      assert PhaseTracked(s, s.procs[step.p].phase);
    }
  }

  lemma OldHoldersStay(s: System, s': System)
    requires HoldersTracked(s) && SessionsAdvance(s.sessions, s'.sessions)
    ensures forall key | key in s.holders :: key.0 in s'.sessions && key.1 in s'.sessions[key.0].requestIdHashes
  {
  }

  lemma NewHolders(s: System, step: Step, s': System)
    requires Next(s, step, s')
    ensures forall key | key in s'.holders && key !in s.holders ::
        key.0 in s'.sessions && key.1 in s'.sessions[key.0].requestIdHashes
  {
  }

  lemma NextKeepsHolders(s: System, step: Step, s': System)
    requires HoldersTracked(s) && Advances(s, s') && Next(s, step, s')
    ensures HoldersTracked(s')
  {
    OldHoldersStay(s, s');
    NewHolders(s, step, s');
  }

  lemma OthersKeepTheirPlace(s: System, step: Step, s': System, p: nat)
    requires Next(s, step, s') && p in s.procs && p in s'.procs && s'.procs[p] != s.procs[p]
    ensures !step.Arrive? && !step.OpenStream? && !step.Delete? && step.p == p
  {
  }

  lemma MoverKeepsPhase(s: System, step: Step, s': System, p: nat)
    requires SessionsTracked(s) && Next(s, step, s') && p in s.procs && p in s'.procs && s'.procs[p] != s.procs[p]
    requires PhaseTracked(s, s.procs[p].phase)
    ensures PhaseTracked(s', s'.procs[p].phase)
  {
    OthersKeepTheirPlace(s, step, s', p);
  }

  lemma NextKeepsPhases(s: System, step: Step, s': System, p: nat)
    requires SessionsTracked(s) && Next(s, step, s') && Advances(s, s') && p in s'.procs
    requires p in s.procs ==> PhaseTracked(s, s.procs[p].phase)
    ensures PhaseTracked(s', s'.procs[p].phase)
  {
    if p in s.procs && s'.procs[p] != s.procs[p] {
      MoverKeepsPhase(s, step, s', p);
    }
  }

  lemma ReservationHoldsId(s: System, p: nat, now: int, s': System)
    requires ReserveAction(s, p, now, s')
    ensures p in s'.procs && IdHeld(s', p, s'.procs[p])
  {
  }

  lemma NextKeepsIds(s: System, step: Step, s': System, p: nat)
    requires Next(s, step, s') && Advances(s, s') && p in s'.procs
    requires p in s.procs ==> IdHeld(s, p, s.procs[p])
    ensures IdHeld(s', p, s'.procs[p])
  {
    if p in s.procs && s'.procs[p] != s.procs[p] {
      OthersKeepTheirPlace(s, step, s', p);
      if step.ReserveId? {
        ReservationHoldsId(s, p, step.now, s');
      }
    }
  }

  lemma NewDispatch(s: System, p: nat, s': System)
    requires GateAction(s, p, s') && PhaseTracked(s, s.procs[p].phase) && IdHeld(s, p, s.procs[p])
    ensures forall d | d in s'.dispatches && d !in s.dispatches :: DispatchTracked(s', d)
  {
  }

  lemma OldDispatch(s: System, s': System, d: Dispatch)
    requires DispatchTracked(s, d) && Advances(s, s')
    ensures DispatchTracked(s', d)
  {
  }

  lemma NextKeepsDispatches(s: System, step: Step, s': System)
    requires Inv(s) && Next(s, step, s')
    ensures forall d {:trigger DispatchTracked(s', d)} | d in s'.dispatches :: DispatchTracked(s', d)
  {
    NextAdvances(s, step, s');
    if step.Gate? {
      assert PhaseTracked(s, s.procs[step.p].phase) && IdHeld(s, step.p, s.procs[step.p]);
      NewDispatch(s, step.p, s');
    }
    forall d | d in s'.dispatches ensures DispatchTracked(s', d) {
      if d in s.dispatches {
        assert DispatchTracked(s, d);
        OldDispatch(s, s', d);
      }
    }
  }

  lemma NextKeepsInv(s: System, step: Step, s': System)
    requires Inv(s) && Next(s, step, s')
    ensures Inv(s')
  {
    NextAdvances(s, step, s');
    NextKeepsSessions(s, step, s');
    NextKeepsHolders(s, step, s');
    NextKeepsDispatches(s, step, s');
    forall p | p in s'.procs ensures PhaseTracked(s', s'.procs[p].phase) && IdHeld(s', p, s'.procs[p]) {
      if p in s.procs {
        assert PhaseTracked(s, s.procs[p].phase) && IdHeld(s, p, s.procs[p]);
      }
      NextKeepsPhases(s, step, s', p);
      NextKeepsIds(s, step, s', p);
    }
  }

  lemma {:induction false} RunKeepsInv(states: seq<System>, steps: seq<Step>, i: nat)
    requires IsRun(states, steps) && i <= |steps|
    ensures Inv(states[i])
  {
    if i > 0 {
      RunKeepsInv(states, steps, i - 1);
      assert StepAt(states, steps, i - 1);
      NextKeepsInv(states[i - 1], steps[i - 1], states[i]);
    }
  }

  lemma AdvancesTransitive(a: System, b: System, c: System)
    requires Advances(a, b) && Advances(b, c)
    ensures Advances(a, c)
  {
  }

  lemma {:induction false} RunAdvances(states: seq<System>, steps: seq<Step>, i: nat, j: nat)
    requires IsRun(states, steps) && i <= j <= |steps|
    ensures Advances(states[i], states[j])
    decreases j - i
  {
    if i < j {
      RunAdvances(states, steps, i, j - 1);
      RunKeepsInv(states, steps, j - 1);
      assert StepAt(states, steps, j - 1);
      NextAdvances(states[j - 1], steps[j - 1], states[j]);
      AdvancesTransitive(states[i], states[j - 1], states[j]);
    }
  }

  // ----- results -----

  /** Step `k` takes a well-formed initialized notification from a post that named the session. */
  ghost predicate NotifiedAt(states: seq<System>, steps: seq<Step>, k: nat, h: string) {
    && k < |steps| && k < |states| && steps[k].Gate? && steps[k].p in states[k].procs
    && var proc := states[k].procs[steps[k].p];
    && proc.phase.AtGate? && proc.phase.session == Some(h)
    && proc.post.body == RequestMessage("notifications/initialized", None, true)
  }

  lemma {:induction false} NotifiedBySomeStep(states: seq<System>, steps: seq<Step>, i: nat, h: string)
      returns (k: nat)
    requires IsRun(states, steps) && i <= |steps| && h in states[i].accepted
    ensures k < i && NotifiedAt(states, steps, k, h)
  {
    assert i > 0;
    if h in states[i - 1].accepted {
      k := NotifiedBySomeStep(states, steps, i - 1, h);
    } else {
      k := i - 1;
      assert StepAt(states, steps, k);
    }
  }

  /** A list, call or read is dispatched only for a session for which a post has brought a well-formed
      initialized notification before. */
  lemma DispatchedOnlyAfterInitialized(states: seq<System>, steps: seq<Step>, i: nat, d: Dispatch)
    requires IsRun(states, steps) && i <= |steps| && d in states[i].dispatches
    requires !AllowedBeforeInitialized(d.rpcMethod)
    ensures d.session.Some? && exists k | 0 <= k < i :: NotifiedAt(states, steps, k, d.session.value)
  {
    RunKeepsInv(states, steps, i);
    assert DispatchTracked(states[i], d);
    var k := NotifiedBySomeStep(states, steps, i, d.session.value);
  }

  /** At the gate a request with an id is dispatched exactly when its touch reported an initialized session
      or its method is one of the three that may come before. A notification is accepted exactly when it is
      the well-formed initialized notification of a named session, which then goes on to be marked. */
  lemma PassesTheGateIff(states: seq<System>, steps: seq<Step>, i: nat, p: nat)
    requires IsRun(states, steps) && i < |steps| && steps[i] == Gate(p)
    ensures p in states[i].procs && p in states[i + 1].procs && states[i].procs[p].phase.AtGate?
    ensures states[i].procs[p].post.body.RequestMessage?
    ensures var s, s', AtGate(session, initialized) := states[i], states[i + 1], states[i].procs[p].phase;
            var RequestMessage(rpcMethod, id, wellFormed) := s.procs[p].post.body;
            && (id.Some? && (initialized || rpcMethod == "initialize" || rpcMethod == "ping"
                             || rpcMethod == "notifications/initialized") <==>
                s'.dispatches == s.dispatches + [Dispatch(p, session, rpcMethod)])
            && (s'.dispatches == s.dispatches || s'.dispatches == s.dispatches + [Dispatch(p, session, rpcMethod)])
            && (id.None? && rpcMethod == "notifications/initialized" && wellFormed && session.Some? <==>
                s'.procs[p].phase.Marking?)
            && (s'.procs[p].phase.Marking? ==>
                  s'.procs[p].phase.hash == session.value && s'.accepted == s.accepted + {session.value})
            && (!s'.procs[p].phase.Marking? ==> s'.accepted == s.accepted)
            && (id.Some? && rpcMethod == "initialize" && wellFormed <==> s'.procs[p].phase.Creating?)
  {
    assert StepAt(states, steps, i);
  }

  /** A post that names a session gets past the touch exactly when the session is stored, not terminated and
      unexpired, and has the protocol version that the post gives, if any. */
  lemma PassesTheTouchIff(states: seq<System>, steps: seq<Step>, i: nat, p: nat, now: int)
    requires IsRun(states, steps) && i < |steps| && steps[i] == TouchSession(p, now)
    ensures p in states[i].procs && p in states[i + 1].procs
    ensures var sessions, post, phase := states[i].sessions, states[i].procs[p].post, states[i + 1].procs[p].phase;
            if MethodOf(post.body) == Some("initialize") then
              phase == if post.hasHeader then Finished else Touched(None, false)
            else
              && (phase.Touched? <==>
                    && post.session.Some? && post.session.value in sessions
                    && var record := sessions[post.session.value];
                    && (record.terminatedAt == None || record.terminatedAt == Some(0)) && record.expiresAt > now
                    && (post.protocolVersion == None || post.protocolVersion == Some(record.protocolVersion)))
              && (phase.Touched? ==>
                    phase == Touched(post.session, sessions[post.session.value].initializedAt.Some?))
              && (!phase.Touched? ==> phase == Finished && states[i + 1].sessions == sessions)
  {
    assert StepAt(states, steps, i);
  }

  /** A request with an id gets to the gate of a session exactly when the session is still live, does not know
      the id yet and has fewer than 4096. */
  lemma PassesTheReservationIff(states: seq<System>, steps: seq<Step>, i: nat, p: nat, now: int, h: string, id: string)
    requires IsRun(states, steps) && i < |steps| && steps[i] == ReserveId(p, now) && p in states[i].procs
    requires states[i].procs[p].phase.Touched? && states[i].procs[p].phase.session == Some(h)
    requires states[i].procs[p].post.body.RequestMessage? && states[i].procs[p].post.body.id == Some(id)
    ensures p in states[i + 1].procs
    ensures var sessions, phase := states[i].sessions, states[i + 1].procs[p].phase;
            && (phase.AtGate? <==>
                  && h in sessions && var record := sessions[h];
                  && (record.terminatedAt == None || record.terminatedAt == Some(0)) && record.expiresAt > now
                  && id !in record.requestIdHashes && |record.requestIdHashes| < 4096)
            && (phase.AtGate? ==> phase == AtGate(Some(h), states[i].procs[p].phase.initialized))
            && (!phase.AtGate? ==> phase == Finished)
  {
    assert StepAt(states, steps, i);
  }

  /** A deletion terminates the session exactly when it is live, and changes nothing otherwise. */
  lemma DeletesIff(states: seq<System>, steps: seq<Step>, i: nat, h: string, now: int)
    requires IsRun(states, steps) && i < |steps| && steps[i] == Delete(h, now)
    ensures var before, after := states[i].sessions, states[i + 1].sessions;
            if h in before && (before[h].terminatedAt == None || before[h].terminatedAt == Some(0))
                && before[h].expiresAt > now then
              after == before[h := before[h].(terminatedAt := Some(now), lastSeenAt := now)] && now > 0
            else
              states[i + 1] == states[i]
  {
    assert StepAt(states, steps, i);
  }

  ghost predicate Ended(s: System, h: string) {
    h in s.sessions && s.sessions[h].terminatedAt.Some? && s.sessions[h].terminatedAt.value != 0
  }

  lemma NextKeepsEnded(s: System, step: Step, s': System, h: string)
    requires Next(s, step, s') && Ended(s, h)
    ensures Ended(s', h)
  {
  }

  lemma {:induction false} EndedStaysEnded(states: seq<System>, steps: seq<Step>, i: nat, j: nat, h: string)
    requires IsRun(states, steps) && i <= j <= |steps| && Ended(states[i], h)
    ensures Ended(states[j], h)
    decreases j
  {
    if i < j {
      EndedStaysEnded(states, steps, i, j - 1, h);
      assert StepAt(states, steps, j - 1);
      NextKeepsEnded(states[j - 1], steps[j - 1], states[j], h);
    }
  }

  /** Once a session is terminated, every post that names it is turned away at its touch. */
  lemma EndedSessionAnswersNoMore(states: seq<System>, steps: seq<Step>, i: nat, j: nat, h: string, p: nat, now: int)
    requires IsRun(states, steps) && i <= j < |steps| && Ended(states[i], h)
    requires steps[j] == TouchSession(p, now) && p in states[j].procs && states[j].procs[p].post.session == Some(h)
    requires MethodOf(states[j].procs[p].post.body) != Some("initialize")
    ensures p in states[j + 1].procs && states[j + 1].procs[p].phase == Finished
  {
    EndedStaysEnded(states, steps, i, j, h);
    PassesTheTouchIff(states, steps, j, p, now);
  }

  /** And a request that was touched before gets no id any more. */
  lemma EndedSessionReservesNoMore(states: seq<System>, steps: seq<Step>, i: nat, j: nat, h: string, p: nat, now: int,
      id: string)
    requires IsRun(states, steps) && i <= j < |steps| && Ended(states[i], h)
    requires steps[j] == ReserveId(p, now) && p in states[j].procs
    requires states[j].procs[p].phase.Touched? && states[j].procs[p].phase.session == Some(h)
    requires states[j].procs[p].post.body.RequestMessage? && states[j].procs[p].post.body.id == Some(id)
    ensures p in states[j + 1].procs && states[j + 1].procs[p].phase == Finished
  {
    EndedStaysEnded(states, steps, i, j, h);
    PassesTheReservationIff(states, steps, j, p, now, h, id);
  }

  /** A post learns that its session is initialized only from a live, initialized record. */
  lemma TouchedSessionIsLive(states: seq<System>, steps: seq<Step>, i: nat, p: nat, now: int,
      h: string, initialized: bool)
    requires IsRun(states, steps) && i < |steps| && steps[i] == TouchSession(p, now) && p in states[i + 1].procs
    requires states[i + 1].procs[p].phase == Touched(Some(h), initialized)
    ensures SessionLive(SessionAt(states[i], h), now)
    ensures initialized <==> states[i].sessions[h].initializedAt.Some?
  {
    assert StepAt(states, steps, i);
  }

  /** Initialization is never undone. */
  lemma InitializationIsFinal(states: seq<System>, steps: seq<Step>, i: nat, j: nat, h: string)
    requires IsRun(states, steps) && i <= j <= |steps|
    requires h in states[i].sessions && states[i].sessions[h].initializedAt.Some?
    ensures h in states[j].sessions && states[j].sessions[h].initializedAt.Some?
  {
    RunAdvances(states, steps, i, j);
  }

  /** A request with an id is at the gate of a session only after that id was reserved for it. */
  lemma IdReservedBeforeTheGate(states: seq<System>, steps: seq<Step>, i: nat, p: nat, h: string,
      id: string)
    requires IsRun(states, steps) && i <= |steps| && p in states[i].procs && states[i].procs[p].phase.AtGate?
    requires states[i].procs[p].phase.session == Some(h)
    requires states[i].procs[p].post.body.RequestMessage? && states[i].procs[p].post.body.id == Some(id)
    ensures h in states[i].sessions && id in states[i].sessions[h].requestIdHashes
    ensures (h, id) in states[i].holders && states[i].holders[(h, id)] == p
  {
    RunKeepsInv(states, steps, i);
    assert IdHeld(states[i], p, states[i].procs[p]);
  }

  /** Within a session no id is dispatched by two posts. */
  lemma EachIdDispatchedByOnePost(states: seq<System>, steps: seq<Step>, i: nat, c: Dispatch,
      d: Dispatch)
    requires IsRun(states, steps) && i <= |steps| && c in states[i].dispatches && d in states[i].dispatches
    requires c.session.Some? && c.session == d.session && c.p in states[i].procs && d.p in states[i].procs
    requires states[i].procs[c.p].post.body.RequestMessage? && states[i].procs[d.p].post.body.RequestMessage?
    requires states[i].procs[c.p].post.body.id == states[i].procs[d.p].post.body.id
    ensures c.p == d.p
  {
    RunKeepsInv(states, steps, i);
    assert DispatchTracked(states[i], c) && DispatchTracked(states[i], d);
  }
}
