/** What a session serves over the shared store: every new request on a live, initialized session can be
    carried through to its dispatch, and such a session can be opened from nothing. */
module McpSharedProgress {
  import opened Wrappers
  import McpLifecycle
  import opened McpSessionProtocol
  import opened McpSharedLifecycle

  function Last(states: seq<Shared>): Shared
    requires states != []
  {
    states[|states| - 1]
  }

  ghost predicate GoesOn(states: seq<Shared>, moves: seq<Move>, longer: seq<Shared>, more: seq<Move>) {
    IsSharedRun(longer, more) && states <= longer && moves <= more
  }

  lemma Extend(states: seq<Shared>, moves: seq<Move>, move: Move, s': Shared)
    returns (longer: seq<Shared>, more: seq<Move>)
    requires IsSharedRun(states, moves) && NextShared(Last(states), move, s')
    ensures GoesOn(states, moves, longer, more) && Last(longer) == s'
  {
    longer, more := states + [s'], moves + [move];
    forall i: nat | i < |more| ensures StepAt(longer, more, i) {
      if i < |moves| {
        assert StepAt(states, moves, i);
      }
    }
  }

  predicate LiveItem(s: System) {
    && s.item.Some? && s.item.value.terminatedAt == None
    && s.item.value.expiresAt.Some? && s.item.value.expiresAt.value > s.clock
  }

  predicate JustArrived(s: System, c: nat, call: Call) {
    c in s.procs && s.procs[c].call == call && s.procs[c].phase == Sampling(0)
  }

  function WithPhase(s: Shared, c: nat, phase: Phase): Shared
    requires c in s.session.procs
  {
    s.(session := To(s.session, c, phase))
  }

  // ----- one call without interruption -----

  lemma CallReads(states: seq<Shared>, moves: seq<Move>, c: nat, call: Call)
      returns (longer: seq<Shared>, more: seq<Move>)
    requires IsSharedRun(states, moves) && JustArrived(Last(states).session, c, call) && !call.TerminateCall?
    requires var s := Last(states).session; s.item.Some? && Decide(s.item, call, s.clock) == None
    ensures GoesOn(states, moves, longer, more)
    ensures var s := Last(states);
            Last(longer) ==
            WithPhase(s, c, Updating(0, s.session.clock, s.session.item.value, |s.session.grants|))
  {
    var s := Last(states);
    longer, more := Extend(states, moves, StoreStep(Sample(c)), WithPhase(s, c, Reading(0, s.session.clock)));
    longer, more := Extend(longer, more, StoreStep(Read(c)),
        WithPhase(s, c, Updating(0, s.session.clock, s.session.item.value, |s.session.grants|)));
  }

  function TouchedBy(s: Shared, c: nat, mark: bool): Shared
    requires c in s.session.procs && s.session.item.Some?
  {
    var item := s.session.item.value;
    var done := WithPhase(s, c, Done(Touched(item.initializedAt.Some? || mark)));
    done.(session := done.session.(item := Some(TouchUpdate(item, item, mark, s.session.clock))))
  }

  lemma TouchGoesThrough(states: seq<Shared>, moves: seq<Move>, c: nat, mark: bool)
      returns (longer: seq<Shared>, more: seq<Move>)
    requires IsSharedRun(states, moves) && JustArrived(Last(states).session, c, TouchCall(None, mark))
    requires LiveItem(Last(states).session)
    ensures GoesOn(states, moves, longer, more) && Last(longer) == TouchedBy(Last(states), c, mark)
  {
    longer, more := CallReads(states, moves, c, TouchCall(None, mark));
    longer, more := Extend(longer, more, StoreStep(Update(c)), TouchedBy(Last(states), c, mark));
  }

  function GrantedTo(s: Shared, c: nat, id: string): Shared
    requires c in s.session.procs && s.session.item.Some?
  {
    var item := s.session.item.value;
    var done := WithPhase(s, c, Done(Granted(true)));
    done.(session := done.session.(item := Some(ReserveUpdate(item, id, item, s.session.clock)),
        grants := s.session.grants + [id]))
  }

  lemma ReservationGoesThrough(states: seq<Shared>, moves: seq<Move>, c: nat, id: string)
      returns (longer: seq<Shared>, more: seq<Move>)
    requires IsSharedRun(states, moves) && JustArrived(Last(states).session, c, ReserveCall(id))
    requires var s := Last(states).session;
             && LiveItem(s) && id !in s.item.value.requestIds && |s.item.value.requestIds| < 4096
    ensures GoesOn(states, moves, longer, more) && Last(longer) == GrantedTo(Last(states), c, id)
  {
    RunKeepsSharedInv(states, moves, |moves|);
    longer, more := CallReads(states, moves, c, ReserveCall(id));
    ReservationUpdates(Last(states), c, id);
    longer, more := Extend(longer, more, StoreStep(Update(c)), GrantedTo(Last(states), c, id));
  }

  lemma ReservationUpdates(s: Shared, c: nat, id: string)
    requires Inv(s.session) && JustArrived(s.session, c, ReserveCall(id)) && LiveItem(s.session)
    ensures var read := WithPhase(s, c, Updating(0, s.session.clock, s.session.item.value, |s.session.grants|));
            UpdateAction(read.session, c, GrantedTo(s, c, id).session)
  {
  }

  // ----- a request -----

  lemma PostIsTouched(states: seq<Shared>, moves: seq<Move>, p: nat, post: Post, c: nat)
      returns (longer: seq<Shared>, more: seq<Move>)
    requires IsSharedRun(states, moves) && p !in Last(states).posts && c !in Last(states).session.procs
    requires LiveItem(Last(states).session) && post.protocolVersion == None
    requires McpLifecycle.MethodOf(post.body) != Some("initialize")
    ensures GoesOn(states, moves, longer, more)
    ensures var s, s', item := Last(states), Last(longer), Last(states).session.item.value;
            && s'.posts == s.posts[p := PostProcess(post, Touching(c))]
            && s'.session.procs.Keys == s.session.procs.Keys + {c} && s'.dispatches == s.dispatches
            && s'.session.procs[c].phase == Done(Touched(item.initializedAt.Some?))
            && s'.session.item == Some(item.(lastSeenAt := Some(s.session.clock)))
            && s'.session.clock == s.session.clock
  {
    var s := Last(states);
    var called := s.session.(procs :=
        s.session.procs[c := Process(TouchCall(None, false), Sampling(0), |s.session.grants|)]);
    var s1 := s.(session := called, posts := s.posts[p := PostProcess(post, Touching(c))]);
    longer, more := Extend(states, moves, ArrivePost(p, post, c), s1);
    longer, more := TouchGoesThrough(longer, more, c, false);
  }

  lemma TouchedPostIsDispatched(states: seq<Shared>, moves: seq<Move>, p: nat, post: Post, c: nat, d: nat, id: string,
      rpcMethod: string) returns (longer: seq<Shared>, more: seq<Move>)
    requires IsSharedRun(states, moves) && d !in Last(states).session.procs
    requires var s := Last(states);
             && p in s.posts && s.posts[p] == PostProcess(post, Touching(c))
             && c in s.session.procs && s.session.procs[c].phase == Done(Touched(true))
             && LiveItem(s.session) && id !in s.session.item.value.requestIds
             && |s.session.item.value.requestIds| < 4096
    requires post.body.RequestMessage? && post.body.rpcMethod == rpcMethod && post.body.id == Some(id)
    ensures GoesOn(states, moves, longer, more)
    ensures Last(longer).dispatches == Last(states).dispatches + [Dispatch(p, d, rpcMethod)]
  {
    var s := Last(states);
    var called := s.session.(procs := s.session.procs[d := Process(ReserveCall(id), Sampling(0), |s.session.grants|)]);
    var s1 := ToPost(s, p, Reserving(d, true)).(session := called, owners := s.owners[d := p]);
    longer, more := Extend(states, moves, FinishTouch(p, d), s1);
    longer, more := ReservationGoesThrough(longer, more, d, id);
    var s2 := ToPost(Last(longer), p, AtGate(Some(d), true));
    longer, more := Extend(longer, more, FinishReserve(p), s2);
    var s3 := ToPost(s2, p, Finished).(dispatches := s2.dispatches + [Dispatch(p, d, rpcMethod)]);
    longer, more := Extend(longer, more, PassGate(p, d), s3);
  }

  /** A new request on a live, initialized session with room is dispatched if nothing comes in between. */
  lemma NewRequestIsDispatched(states: seq<Shared>, moves: seq<Move>, p: nat, c: nat, d: nat, rpcMethod: string,
      id: string) returns (longer: seq<Shared>, more: seq<Move>)
    requires IsSharedRun(states, moves) && p !in Last(states).posts && rpcMethod != "initialize"
    requires c !in Last(states).session.procs && d !in Last(states).session.procs && c != d
    requires var s := Last(states).session;
             && LiveItem(s) && s.item.value.initializedAt.Some?
             && id !in s.item.value.requestIds && |s.item.value.requestIds| < 4096
    ensures GoesOn(states, moves, longer, more)
    ensures Last(longer).dispatches == Last(states).dispatches + [Dispatch(p, d, rpcMethod)]
  {
    var post := Post(McpLifecycle.RequestMessage(rpcMethod, Some(id), true), None);
    longer, more := PostIsTouched(states, moves, p, post, c);
    longer, more := TouchedPostIsDispatched(longer, more, p, post, c, d, id, rpcMethod);
  }

  // ----- opening a session -----

  lemma SessionIsSaved(protocolVersion: string, expiresAt: int, now: int)
      returns (states: seq<Shared>, moves: seq<Move>)
    requires 0 < now < expiresAt
    ensures IsSharedRun(states, moves)
    ensures var s := Last(states);
            && s.posts == map[] && s.session.procs == map[] && s.dispatches == [] && s.session.clock == now
            && s.session.item == Some(Item(Some(expiresAt), Some(protocolVersion), {}, Some(0), None, None, Some(now)))
  {
    var s0 := Shared(System(None, now, map[], [], false), map[], false, map[], []);
    states, moves := [s0], [];
    var item := Item(Some(expiresAt), Some(protocolVersion), {}, Some(0), None, None, Some(now));
    states, moves := Extend(states, moves, StoreStep(Save(protocolVersion, expiresAt)),
        s0.(session := System(Some(item), now, map[], [], true)));
  }

  lemma SessionIsMarked(states: seq<Shared>, moves: seq<Move>, p: nat, c: nat, d: nat)
      returns (longer: seq<Shared>, more: seq<Move>)
    requires IsSharedRun(states, moves) && p !in Last(states).posts
    requires c !in Last(states).session.procs && d !in Last(states).session.procs && c != d
    requires LiveItem(Last(states).session) && Last(states).session.item.value.initializedAt == None
    ensures GoesOn(states, moves, longer, more)
    ensures var s, s' := Last(states), Last(longer);
            && s'.posts.Keys == s.posts.Keys + {p} && s'.session.procs.Keys == s.session.procs.Keys + {c, d}
            && s'.dispatches == s.dispatches && s'.session.clock == s.session.clock
            && s'.session.item == Some(s.session.item.value.(lastSeenAt := Some(s.session.clock),
                initializedAt := Some(s.session.clock)))
  {
    var post := Post(McpLifecycle.RequestMessage("notifications/initialized", None, true), None);
    longer, more := PostIsTouched(states, moves, p, post, c);
    var s1 := ToPost(Last(longer), p, AtGate(None, false));
    longer, more := Extend(longer, more, FinishTouch(p, d), s1);
    var called := s1.session.(procs :=
        s1.session.procs[d := Process(TouchCall(None, true), Sampling(0), |s1.session.grants|)]);
    var s2 := ToPost(s1, p, Finished).(session := called, accepted := true);
    longer, more := Extend(longer, more, PassGate(p, d), s2);
    longer, more := TouchGoesThrough(longer, more, d, true);
  }

  /** From nothing to the first call over the shared store. */
  lemma ToolsAreListed(protocolVersion: string, expiresAt: int, id: string, now: int)
      returns (states: seq<Shared>, moves: seq<Move>)
    requires 0 < now < expiresAt
    ensures IsSharedRun(states, moves) && Last(states).dispatches == [Dispatch(1, 3, "tools/list")]
  {
    states, moves := SessionIsSaved(protocolVersion, expiresAt, now);
    states, moves := SessionIsMarked(states, moves, 0, 0, 1);
    states, moves := NewRequestIsDispatched(states, moves, 1, 2, 3, "tools/list", id);
  }
}
