/** The lifecycle of one session over the shared store: the posts that name it run their touches and
    reservations as calls of the session protocol, where other calls come in between and the item may be
    collected. */
module McpSharedLifecycle {
  import opened Wrappers
  import McpLifecycle
  import opened McpSessionProtocol

  /** A post that names the session; an initialize request never does. */
  datatype Post = Post(body: McpLifecycle.Body, protocolVersion: Option<string>)

  datatype PostPhase =
    | Touching(call: nat)
    | Reserving(call: nat, initialized: bool)
    | AtGate(reservation: Option<nat>, initialized: bool)
    | Finished

  datatype PostProcess = PostProcess(post: Post, phase: PostPhase)

  datatype Dispatch = Dispatch(p: nat, reservation: nat, rpcMethod: string)

  /** `accepted`, `owners` and `dispatches` are history: whether a valid initialized notification was
      accepted, the post of each reservation, and the requests handed to their methods. */
  datatype Shared = Shared(
    session: System,
    posts: map<nat, PostProcess>,
    accepted: bool,
    owners: map<nat, nat>,
    dispatches: seq<Dispatch>)

  datatype Move =
    | StoreStep(step: Step)
    | OtherCall(c: nat, call: Call)
    | ArrivePost(p: nat, post: Post, c: nat)
    | FinishTouch(p: nat, c: nat)
    | FinishReserve(p: nat)
    | PassGate(p: nat, c: nat)

  function ToPost(s: Shared, p: nat, phase: PostPhase): Shared
    requires p in s.posts
  {
    s.(posts := s.posts[p := s.posts[p].(phase := phase)])
  }

  ghost predicate Replied(s: Shared, c: nat) {
    c in s.session.procs && s.session.procs[c].phase.Done?
  }

  // ----- actions -----

  /** Stream openings and deletions, which touch without marking or terminate. */
  ghost predicate OtherCallAction(s: Shared, c: nat, call: Call, s': Shared) {
    && (call.TerminateCall? || (call.TouchCall? && !call.markInitialized))
    && ArriveAction(s.session, c, call, s'.session) && s' == s.(session := s'.session)
  }

  ghost predicate ArrivePostAction(s: Shared, p: nat, post: Post, c: nat, s': Shared) {
    && p !in s.posts && McpLifecycle.MethodOf(post.body) != Some("initialize")
    && ArriveAction(s.session, c, TouchCall(post.protocolVersion, false), s'.session)
    && s' == s.(session := s'.session, posts := s.posts[p := PostProcess(post, Touching(c))])
  }

  /** After the touch a request with an id goes on to reserve it. */
  ghost predicate FinishTouchAction(s: Shared, p: nat, c: nat, s': Shared) {
    && p in s.posts && s.posts[p].phase.Touching? && Replied(s, s.posts[p].phase.call)
    && match s.session.procs[s.posts[p].phase.call].phase.reply
       case Touched(initialized) =>
         (match s.posts[p].post.body
          case RequestMessage(_, Some(id), _) =>
            && ArriveAction(s.session, c, ReserveCall(id), s'.session)
            && s' == ToPost(s, p, Reserving(c, initialized)).(session := s'.session, owners := s.owners[c := p])
          case RequestMessage(_, None, _) => s' == ToPost(s, p, AtGate(None, initialized))
          case _ => s' == ToPost(s, p, Finished))
       case _ => s' == ToPost(s, p, Finished)
  }

  ghost predicate FinishReserveAction(s: Shared, p: nat, s': Shared) {
    && p in s.posts && s.posts[p].phase.Reserving? && Replied(s, s.posts[p].phase.call)
    && var Reserving(c, initialized) := s.posts[p].phase;
    var granted := s.session.procs[c].phase.reply == Granted(true);
    s' == ToPost(s, p, if granted then AtGate(Some(c), initialized) else Finished)
  }

  /** The gate goes by what the touch reported. An accepted notification marks the session as
      initialized with a second touch. */
  ghost predicate PassGateAction(s: Shared, p: nat, c: nat, s': Shared) {
    && p in s.posts && s.posts[p].phase.AtGate? && s.posts[p].post.body.RequestMessage?
    && var AtGate(reservation, initialized) := s.posts[p].phase;
    && var RequestMessage(rpcMethod, id, wellFormed) := s.posts[p].post.body;
    if !initialized && !McpLifecycle.AllowedBeforeInitialized(rpcMethod) then
      s' == ToPost(s, p, Finished)
    else if id.None? then
      if rpcMethod == "notifications/initialized" && wellFormed then
        && ArriveAction(s.session, c, TouchCall(s.posts[p].post.protocolVersion, true), s'.session)
        && s' == ToPost(s, p, Finished).(session := s'.session, accepted := true)
      else
        s' == ToPost(s, p, Finished)
    else
      && reservation.Some?
      && s' == ToPost(s, p, Finished).(dispatches := s.dispatches + [Dispatch(p, reservation.value, rpcMethod)])
  }

  ghost predicate NextShared(s: Shared, move: Move, s': Shared) {
    match move
    case StoreStep(step) => !step.Arrive? && Next(s.session, step, s'.session) && s' == s.(session := s'.session)
    case OtherCall(c, call) => OtherCallAction(s, c, call, s')
    case ArrivePost(p, post, c) => ArrivePostAction(s, p, post, c, s')
    case FinishTouch(p, c) => FinishTouchAction(s, p, c, s')
    case FinishReserve(p) => FinishReserveAction(s, p, s')
    case PassGate(p, c) => PassGateAction(s, p, c, s')
  }

  ghost predicate InitShared(s: Shared) {
    Init(s.session) && s.posts == map[] && !s.accepted && s.owners == map[] && s.dispatches == []
  }

  ghost predicate StepAt(states: seq<Shared>, moves: seq<Move>, i: nat)
    requires |states| == |moves| + 1 && i < |moves|
  {
    NextShared(states[i], moves[i], states[i + 1])
  }

  ghost predicate IsSharedRun(states: seq<Shared>, moves: seq<Move>) {
    && |states| == |moves| + 1 && InitShared(states[0])
    && forall i: nat | i < |moves| :: StepAt(states, moves, i)
  }

  // ----- the session -----

  /** The session stands still, takes a step of its protocol, or gets one more call. */
  ghost predicate SessionMoves(s: System, s': System) {
    s' == s || exists step :: Next(s, step, s')
  }

  lemma NextMovesSession(s: Shared, move: Move, s': Shared)
    requires NextShared(s, move, s')
    ensures SessionMoves(s.session, s'.session)
  {
    if s'.session != s.session {
      match move {
        case StoreStep(step) =>
        case OtherCall(c, call) => assert Next(s.session, Arrive(c, call), s'.session);
        case ArrivePost(_, post, c) =>
          assert Next(s.session, Arrive(c, TouchCall(post.protocolVersion, false)), s'.session);
        case FinishTouch(p, c) =>
          assert Next(s.session, Arrive(c, ReserveCall(s.posts[p].post.body.id.value)), s'.session);
        case PassGate(p, c) =>
          assert Next(s.session, Arrive(c, TouchCall(s.posts[p].post.protocolVersion, true)), s'.session);
        case FinishReserve(_) =>
      }
    }
  }

  lemma SessionKeepsInv(s: System, s': System)
    requires Inv(s) && GrantsTracked(s) && SessionMoves(s, s')
    ensures Inv(s') && GrantsTracked(s')
  {
    if s' != s {
      var step :| Next(s, step, s');
      NextKeepsInv(s, step, s');
      NextKeepsGrants(s, step, s');
    }
  }

  /** A call stays what it is, and its reply stands. */
  ghost predicate CallsStay(s: System, s': System) {
    forall c | c in s.procs ::
      c in s'.procs && s'.procs[c].call == s.procs[c].call && (s.procs[c].phase.Done? ==> s'.procs[c] == s.procs[c])
  }

  lemma UpdateMovesItsCall(s: System, p: nat, s': System)
    requires UpdateAction(s, p, s')
    ensures p in s'.procs && s'.procs == s.procs[p := s.procs[p].(phase := s'.procs[p].phase)]
  {
  }

  lemma OneCallMoves(s: System, step: Step, s': System, c: nat)
    requires Next(s, step, s') && c in s.procs
    ensures c in s'.procs && s'.procs[c].call == s.procs[c].call
    ensures s'.procs[c] != s.procs[c] ==>
              !s.procs[c].phase.Done? && (step == Sample(c) || step == Read(c) || step == Update(c))
  {
    if step.Update? {
      UpdateMovesItsCall(s, step.p, s');
    }
  }

  lemma StepKeepsCalls(s: System, step: Step, s': System)
    requires Next(s, step, s')
    ensures CallsStay(s, s')
  {
    forall c | c in s.procs
      ensures c in s'.procs && s'.procs[c].call == s.procs[c].call
      ensures s.procs[c].phase.Done? ==> s'.procs[c] == s.procs[c]
    {
      OneCallMoves(s, step, s', c);
    }
  }

  lemma SessionKeepsCalls(s: System, s': System)
    requires SessionMoves(s, s')
    ensures CallsStay(s, s')
  {
    if s' != s {
      var step :| Next(s, step, s');
      StepKeepsCalls(s, step, s');
    }
  }

  // ----- initialization -----

  /** A call that neither marks the session as initialized nor has seen it so. */
  predicate Uninitialized(proc: Process) {
    && (proc.call.TouchCall? ==> !proc.call.markInitialized)
    && (proc.phase.Updating? ==> proc.phase.seen.initializedAt.None?)
    && proc.phase != Done(Touched(true))
  }

  ghost predicate SessionUninitialized(s: System) {
    && (s.item.Some? ==> s.item.value.initializedAt.None?)
    && forall c | c in s.procs :: Uninitialized(s.procs[c])
  }

  predicate PostUninitialized(phase: PostPhase) {
    (phase.Reserving? || phase.AtGate?) ==> !phase.initialized
  }

  /** Before a notification is accepted nothing in the system takes the session for initialized. */
  ghost predicate NotYet(s: Shared) {
    && SessionUninitialized(s.session)
    && (forall p | p in s.posts :: PostUninitialized(s.posts[p].phase))
    && forall d | d in s.dispatches :: McpLifecycle.AllowedBeforeInitialized(d.rpcMethod)
  }

  lemma MoverStaysUninitialized(s: System, step: Step, s': System, c: nat)
    requires SessionUninitialized(s) && Next(s, step, s') && c in s.procs && c in s'.procs
    requires step == Sample(c) || step == Read(c) || step == Update(c)
    ensures Uninitialized(s'.procs[c])
  {
    assert Uninitialized(s.procs[c]);
  }

  lemma ItemStaysUninitialized(s: System, step: Step, s': System)
    requires SessionUninitialized(s) && Next(s, step, s')
    ensures s'.item.Some? ==> s'.item.value.initializedAt.None?
  {
    if step.Update? {
      assert Uninitialized(s.procs[step.p]);
    }
  }

  lemma StepKeepsUninitialized(s: System, step: Step, s': System)
    requires SessionUninitialized(s) && Next(s, step, s')
    requires step.Arrive? && step.call.TouchCall? ==> !step.call.markInitialized
    ensures SessionUninitialized(s')
  {
    ItemStaysUninitialized(s, step, s');
    forall c | c in s'.procs ensures Uninitialized(s'.procs[c]) {
      if c in s.procs {
        assert Uninitialized(s.procs[c]);
        OneCallMoves(s, step, s', c);
        if s'.procs[c] != s.procs[c] {
          MoverStaysUninitialized(s, step, s', c);
        }
      }
    }
  }

  lemma NextKeepsNotYet(s: Shared, move: Move, s': Shared)
    requires NotYet(s) && NextShared(s, move, s') && !s'.accepted
    ensures NotYet(s')
  {
    match move {
      case StoreStep(step) => StepKeepsUninitialized(s.session, step, s'.session);
      case OtherCall(c, call) => StepKeepsUninitialized(s.session, Arrive(c, call), s'.session);
      case ArrivePost(_, post, c) =>
        StepKeepsUninitialized(s.session, Arrive(c, TouchCall(post.protocolVersion, false)), s'.session);
      case FinishTouch(p, c) =>
        if s'.session != s.session {
          StepKeepsUninitialized(s.session, Arrive(c, ReserveCall(s.posts[p].post.body.id.value)), s'.session);
        }
        assert Uninitialized(s.session.procs[s.posts[p].phase.call]);
      case FinishReserve(p) => assert PostUninitialized(s.posts[p].phase);
      case PassGate(p, _) => assert PostUninitialized(s.posts[p].phase);
    }
  }

  // ----- reservations -----

  predicate Asks(post: Post, id: string) {
    post.body.RequestMessage? && post.body.id == Some(id)
  }

  /** Call `c` is the reservation of the post's id. */
  ghost predicate Owns(s: Shared, p: nat, c: nat) {
    && p in s.posts && c in s.owners && s.owners[c] == p
    && c in s.session.procs && s.session.procs[c].call.ReserveCall?
    && Asks(s.posts[p].post, s.session.procs[c].call.idHash)
  }

  ghost predicate PostTracked(s: Shared, p: nat, proc: PostProcess) {
    match proc.phase
    case Reserving(c, _) => Owns(s, p, c)
    case AtGate(Some(c), _) => Owns(s, p, c) && IsGranted(s.session.procs[c])
    case AtGate(None, _) => proc.post.body.RequestMessage? && proc.post.body.id.None?
    case _ => true
  }

  ghost predicate DispatchTracked(s: Shared, d: Dispatch) {
    Owns(s, d.p, d.reservation) && IsGranted(s.session.procs[d.reservation])
  }

  ghost predicate SharedInv(s: Shared) {
    && Inv(s.session) && GrantsTracked(s.session)
    && (!s.accepted ==> NotYet(s))
    && (forall c | c in s.owners :: c in s.session.procs)
    && (forall p {:trigger PostTracked(s, p, s.posts[p])} | p in s.posts :: PostTracked(s, p, s.posts[p]))
    && (forall d {:trigger DispatchTracked(s, d)} | d in s.dispatches :: DispatchTracked(s, d))
  }

  /** Posts keep what they carry, and calls in the protocol keep their owners. */
  ghost predicate OwnersStay(s: Shared, s': Shared) {
    && (forall p | p in s.posts :: p in s'.posts && s'.posts[p].post == s.posts[p].post)
    && (forall c | c in s.owners && c in s.session.procs :: c in s'.owners && s'.owners[c] == s.owners[c])
    && CallsStay(s.session, s'.session)
  }

  lemma FinishTouchMovesPost(s: Shared, p: nat, c: nat, s': Shared)
    requires FinishTouchAction(s, p, c, s')
    ensures s'.posts == s.posts[p := PostProcess(s.posts[p].post, s'.posts[p].phase)]
    ensures s'.owners == s.owners || (c !in s.session.procs && s'.owners == s.owners[c := p])
  {
  }

  lemma PassGateMovesPost(s: Shared, p: nat, c: nat, s': Shared)
    requires PassGateAction(s, p, c, s')
    ensures s'.posts == s.posts[p := PostProcess(s.posts[p].post, Finished)] && s'.owners == s.owners
  {
  }

  lemma NextKeepsOwners(s: Shared, move: Move, s': Shared)
    requires NextShared(s, move, s') && CallsStay(s.session, s'.session)
    ensures OwnersStay(s, s')
  {
    match move {
      case FinishTouch(p, c) => FinishTouchMovesPost(s, p, c, s');
      case PassGate(p, c) => PassGateMovesPost(s, p, c, s');
      case _ =>
    }
  }

  lemma OwnsStays(s: Shared, s': Shared, p: nat, c: nat)
    requires OwnersStay(s, s') && Owns(s, p, c)
    ensures Owns(s', p, c)
    ensures IsGranted(s.session.procs[c]) ==> IsGranted(s'.session.procs[c])
  {
  }

  lemma StillPostTracked(s: Shared, s': Shared, p: nat)
    requires OwnersStay(s, s')
    requires p in s.posts && p in s'.posts && s'.posts[p] == s.posts[p] && PostTracked(s, p, s.posts[p])
    ensures PostTracked(s', p, s'.posts[p])
  {
    match s.posts[p].phase {
      case Reserving(c, _) => OwnsStays(s, s', p, c);
      case AtGate(Some(c), _) => OwnsStays(s, s', p, c);
      case _ =>
    }
  }

  lemma TouchedPostTracked(s: Shared, p: nat, c: nat, s': Shared)
    requires FinishTouchAction(s, p, c, s')
    ensures s'.posts == s.posts[p := s'.posts[p]] && PostTracked(s', p, s'.posts[p])
  {
  }

  lemma MovedPostTracked(s: Shared, move: Move, s': Shared, p: nat)
    requires NextShared(s, move, s') && OwnersStay(s, s')
    requires p in s'.posts && (p in s.posts ==> PostTracked(s, p, s.posts[p]) && s'.posts[p] != s.posts[p])
    ensures PostTracked(s', p, s'.posts[p])
  {
    match move {
      case FinishTouch(q, c) => TouchedPostTracked(s, q, c, s');
      case FinishReserve(q) =>
        OwnsStays(s, s', q, s.posts[q].phase.call);
      case PassGate(q, c) => PassGateMovesPost(s, q, c, s');
      case _ =>
    }
  }

  lemma NextKeepsPosts(s: Shared, move: Move, s': Shared)
    requires SharedInv(s) && NextShared(s, move, s') && OwnersStay(s, s')
    ensures forall p {:trigger PostTracked(s', p, s'.posts[p])} | p in s'.posts :: PostTracked(s', p, s'.posts[p])
  {
    forall p | p in s'.posts ensures PostTracked(s', p, s'.posts[p]) {
      if p in s.posts {
        assert PostTracked(s, p, s.posts[p]);
      }
      if p in s.posts && s'.posts[p] == s.posts[p] {
        StillPostTracked(s, s', p);
      } else {
        MovedPostTracked(s, move, s', p);
      }
    }
  }

  lemma NewDispatch(s: Shared, move: Move, s': Shared, d: Dispatch)
    requires NextShared(s, move, s') && d in s'.dispatches && d !in s.dispatches
    ensures move.PassGate? && d.p == move.p && d.p in s.posts
    ensures s.posts[d.p].phase.AtGate? && s.posts[d.p].phase.reservation == Some(d.reservation)
  {
  }

  lemma NextKeepsDispatches(s: Shared, move: Move, s': Shared)
    requires SharedInv(s) && NextShared(s, move, s') && OwnersStay(s, s')
    ensures forall d {:trigger DispatchTracked(s', d)} | d in s'.dispatches :: DispatchTracked(s', d)
  {
    forall d | d in s'.dispatches ensures DispatchTracked(s', d) {
      if d in s.dispatches {
        assert DispatchTracked(s, d);
      } else {
        NewDispatch(s, move, s', d);
        assert PostTracked(s, d.p, s.posts[d.p]);
      }
      OwnsStays(s, s', d.p, d.reservation);
    }
  }

  lemma NextKeepsSharedInv(s: Shared, move: Move, s': Shared)
    requires SharedInv(s) && NextShared(s, move, s')
    ensures SharedInv(s')
  {
    NextMovesSession(s, move, s');
    SessionKeepsInv(s.session, s'.session);
    SessionKeepsCalls(s.session, s'.session);
    NextKeepsOwners(s, move, s');
    NextKeepsPosts(s, move, s');
    NextKeepsDispatches(s, move, s');
    if !s'.accepted {
      NextKeepsNotYet(s, move, s');
    }
  }

  lemma {:induction false} RunKeepsSharedInv(states: seq<Shared>, moves: seq<Move>, i: nat)
    requires IsSharedRun(states, moves) && i <= |moves|
    ensures SharedInv(states[i])
  {
    if i > 0 {
      RunKeepsSharedInv(states, moves, i - 1);
      assert StepAt(states, moves, i - 1);
      NextKeepsSharedInv(states[i - 1], moves[i - 1], states[i]);
    }
  }

  // ----- results -----

  /** Move `k` takes a well-formed initialized notification from a post that named the session. */
  ghost predicate NotifiedAt(states: seq<Shared>, moves: seq<Move>, k: nat) {
    && k < |moves| && k < |states| && moves[k].PassGate? && moves[k].p in states[k].posts
    && states[k].posts[moves[k].p].phase.AtGate?
    && states[k].posts[moves[k].p].post.body == McpLifecycle.RequestMessage("notifications/initialized", None, true)
  }

  lemma {:induction false} NotifiedBySomeMove(states: seq<Shared>, moves: seq<Move>, i: nat) returns (k: nat)
    requires IsSharedRun(states, moves) && i <= |moves| && states[i].accepted
    ensures k < i && NotifiedAt(states, moves, k)
  {
    assert i > 0;
    if states[i - 1].accepted {
      k := NotifiedBySomeMove(states, moves, i - 1);
    } else {
      k := i - 1;
      RunKeepsSharedInv(states, moves, k);
      assert StepAt(states, moves, k);
      assert PostTracked(states[k], moves[k].p, states[k].posts[moves[k].p]);
    }
  }

  /** Over every interleaving at the shared store, with the item collected at any time, a list, call or
      read is dispatched only after a post has brought a well-formed initialized notification. */
  lemma DispatchedOnlyAfterInitialized(states: seq<Shared>, moves: seq<Move>, i: nat, d: Dispatch)
    requires IsSharedRun(states, moves) && i <= |moves| && d in states[i].dispatches
    requires !McpLifecycle.AllowedBeforeInitialized(d.rpcMethod)
    ensures exists k | 0 <= k < i :: NotifiedAt(states, moves, k)
  {
    RunKeepsSharedInv(states, moves, i);
    var k := NotifiedBySomeMove(states, moves, i);
  }

  /** At the gate a request with an id is dispatched exactly when its touch reported an initialized session
      or its method is one of those that may come before. The mark is set out for exactly when the post is
      the well-formed initialized notification. */
  lemma PassesTheGateIff(states: seq<Shared>, moves: seq<Move>, i: nat, p: nat, c: nat)
    requires IsSharedRun(states, moves) && i < |moves| && moves[i] == PassGate(p, c)
    ensures p in states[i].posts && states[i].posts[p].phase.AtGate? && states[i].posts[p].post.body.RequestMessage?
    ensures var s, s', AtGate(reservation, initialized) := states[i], states[i + 1], states[i].posts[p].phase;
            var RequestMessage(rpcMethod, id, wellFormed) := s.posts[p].post.body;
            var marks := c !in s.session.procs && c in s'.session.procs
                && s'.session.procs[c].call == TouchCall(s.posts[p].post.protocolVersion, true);
            && (id.Some? && (initialized || rpcMethod == "initialize" || rpcMethod == "ping"
                             || rpcMethod == "notifications/initialized") <==>
                |s'.dispatches| > |s.dispatches|)
            && (|s'.dispatches| > |s.dispatches| ==>
                  reservation.Some? && s'.dispatches == s.dispatches + [Dispatch(p, reservation.value, rpcMethod)])
            && (id.None? && rpcMethod == "notifications/initialized" && wellFormed <==> marks)
            && s'.accepted == (s.accepted || marks) && (!marks ==> s'.session == s.session)
  {
    assert StepAt(states, moves, i);
  }

  /** A request with an id is at the gate only after its own call was granted that id. */
  lemma IdReservedBeforeTheGate(states: seq<Shared>, moves: seq<Move>, i: nat, p: nat, id: string)
    requires IsSharedRun(states, moves) && i <= |moves| && p in states[i].posts && states[i].posts[p].phase.AtGate?
    requires Asks(states[i].posts[p].post, id)
    ensures id in states[i].session.grants
    ensures exists c ::
        && states[i].posts[p].phase.reservation == Some(c) && Owns(states[i], p, c)
        && states[i].session.procs[c].call == ReserveCall(id) && IsGranted(states[i].session.procs[c])
  {
    RunKeepsSharedInv(states, moves, i);
    assert PostTracked(states[i], p, states[i].posts[p]);
  }

  /** No id is dispatched by two posts. */
  lemma EachIdDispatchedByOnePost(states: seq<Shared>, moves: seq<Move>, i: nat, d: Dispatch, e: Dispatch, id: string)
    requires IsSharedRun(states, moves) && i <= |moves| && d in states[i].dispatches && e in states[i].dispatches
    requires d.p in states[i].posts && Asks(states[i].posts[d.p].post, id)
    requires e.p in states[i].posts && Asks(states[i].posts[e.p].post, id)
    ensures d.p == e.p
  {
    RunKeepsSharedInv(states, moves, i);
    assert DispatchTracked(states[i], d) && DispatchTracked(states[i], e);
  }
}
