/** What a session serves: every new request on a live, initialized session can be carried through to its
    dispatch, and such a session can be opened from nothing. */
module McpProgress {
  import opened Wrappers
  import opened McpLifecycle

  function Last(states: seq<System>): System
    requires states != []
  {
    states[|states| - 1]
  }

  lemma Extend(states: seq<System>, steps: seq<Step>, step: Step, s': System)
    returns (longer: seq<System>, more: seq<Step>)
    requires IsRun(states, steps) && Next(Last(states), step, s')
    ensures IsRun(longer, more) && Last(longer) == s'
    ensures longer == states + [s'] && more == steps + [step]
  {
    longer, more := states + [s'], steps + [step];
    forall i: nat | i < |more| ensures StepAt(longer, more, i) {
      if i < |steps| {
        assert StepAt(states, steps, i);
      }
    }
  }

  /** A live session that is initialized, answers this protocol version and has not seen the id. */
  predicate Serves(s: System, h: string, protocolVersion: Option<string>, id: string, now: int) {
    && h in s.sessions && now > 0
    && var record := s.sessions[h];
    && record.terminatedAt == None && record.expiresAt > now && record.initializedAt.Some?
    && (protocolVersion.Some? ==> record.protocolVersion == protocolVersion.value)
    && id !in record.requestIdHashes && |record.requestIdHashes| < 4096
  }

  /** A new request on such a session gets to the gate if nothing comes in between. */
  lemma NewRequestReachesTheGate(states: seq<System>, steps: seq<Step>, p: nat, post: Post, h: string, id: string,
      now: int) returns (longer: seq<System>, more: seq<Step>)
    requires IsRun(states, steps) && p !in Last(states).procs
    requires post.body.RequestMessage? && post.body.rpcMethod != "initialize" && post.body.id == Some(id)
    requires post.session == Some(h) && Serves(Last(states), h, post.protocolVersion, id, now)
    ensures IsRun(longer, more) && states <= longer && steps <= more
    ensures var s, s' := Last(states), Last(longer);
            && p in s'.procs && s'.procs[p] == Process(post, AtGate(Some(h), true)) && s'.dispatches == s.dispatches
            && h in s'.sessions && id in s'.sessions[h].requestIdHashes
  {
    var s, record := Last(states), Last(states).sessions[h];
    var seen := record.(lastSeenAt := now);
    var reserved := seen.(requestIdHashes := seen.requestIdHashes + [id]);
    var s1 := s.(procs := s.procs[p := Process(post, Arrived)]);
    var s2 := To(s1, p, Touched(Some(h), true)).(sessions := s.sessions[h := seen]);
    var s3 := To(s2, p, AtGate(Some(h), true)).(sessions := s2.sessions[h := reserved],
        holders := s.holders[(h, id) := p]);
    longer, more := Extend(states, steps, Arrive(p, post), s1);
    longer, more := Extend(longer, more, TouchSession(p, now), s2);
    longer, more := Extend(longer, more, ReserveId(p, now), s3);
  }

  /** A new request on such a session is dispatched. */
  lemma NewRequestIsDispatched(states: seq<System>, steps: seq<Step>, p: nat, post: Post, h: string, rpcMethod: string,
      id: string, now: int) returns (longer: seq<System>, more: seq<Step>)
    requires IsRun(states, steps) && p !in Last(states).procs
    requires post.body.RequestMessage? && post.body.rpcMethod == rpcMethod && post.body.id == Some(id)
    requires rpcMethod != "initialize" && post.session == Some(h)
    requires Serves(Last(states), h, post.protocolVersion, id, now)
    ensures IsRun(longer, more) && states <= longer && steps <= more
    ensures Last(longer).dispatches == Last(states).dispatches + [Dispatch(p, Some(h), rpcMethod)]
    ensures h in Last(longer).sessions && id in Last(longer).sessions[h].requestIdHashes
  {
    longer, more := NewRequestReachesTheGate(states, steps, p, post, h, id, now);
    var s := Last(longer);
    var s' := To(s, p, Finished).(dispatches := s.dispatches + [Dispatch(p, Some(h), rpcMethod)]);
    longer, more := Extend(longer, more, Gate(p), s');
  }

  /** An initialize request creates a session. */
  lemma SessionIsCreated(hash: string, clientId: string, protocolVersion: string, id: string, now: int)
      returns (states: seq<System>, steps: seq<Step>)
    requires now > 0
    ensures IsRun(states, steps)
    ensures var s := Last(states);
            && s.procs.Keys == {0} && s.dispatches == [Dispatch(0, None, "initialize")] && s.accepted == {}
            && s.sessions == map[hash := NewSession(hash, clientId, protocolVersion, now)]
  {
    var hello := Post(RequestMessage("initialize", Some(id), true), false, None, Some(protocolVersion));
    var s0 := System(map[], map[], {}, map[], []);
    var s1 := s0.(procs := map[0 := Process(hello, Arrived)]);
    var s2 := To(s1, 0, Touched(None, false));
    var s3 := To(s2, 0, AtGate(None, false));
    var s4 := To(s3, 0, Creating).(dispatches := [Dispatch(0, None, "initialize")]);
    var s5 := To(s4, 0, Finished).(sessions := map[hash := NewSession(hash, clientId, protocolVersion, now)]);
    states, steps := [s0], [];
    states, steps := Extend(states, steps, Arrive(0, hello), s1);
    states, steps := Extend(states, steps, TouchSession(0, now), s2);
    states, steps := Extend(states, steps, ReserveId(0, now), s3);
    states, steps := Extend(states, steps, Gate(0), s4);
    states, steps := Extend(states, steps, Create(0, hash, clientId, protocolVersion, now), s5);
  }

  /** The initialized notification marks a live session. */
  lemma SessionIsMarked(states: seq<System>, steps: seq<Step>, p: nat, h: string, now: int)
      returns (longer: seq<System>, more: seq<Step>)
    requires IsRun(states, steps) && p !in Last(states).procs && h in Last(states).sessions && now > 0
    requires var record := Last(states).sessions[h];
             record.terminatedAt == None && record.expiresAt > now && record.initializedAt == None
    ensures IsRun(longer, more) && states <= longer && steps <= more
    ensures var s, s' := Last(states), Last(longer);
            && s'.procs.Keys == s.procs.Keys + {p} && s'.dispatches == s.dispatches
            && s'.sessions == s.sessions[h := s.sessions[h].(lastSeenAt := now, initializedAt := Some(now))]
  {
    var ready := Post(RequestMessage("notifications/initialized", None, true), true, Some(h), None);
    var s, seen := Last(states), Last(states).sessions[h].(lastSeenAt := now);
    var s1 := s.(procs := s.procs[p := Process(ready, Arrived)]);
    var s2 := To(s1, p, Touched(Some(h), false)).(sessions := s.sessions[h := seen]);
    var s3 := To(s2, p, AtGate(Some(h), false));
    longer, more := Extend(states, steps, Arrive(p, ready), s1);
    longer, more := Extend(longer, more, TouchSession(p, now), s2);
    longer, more := Extend(longer, more, ReserveId(p, now), s3);
    longer, more := MarkFollows(longer, more, p, ready, h, now);
  }

  lemma MarkFollows(states: seq<System>, steps: seq<Step>, p: nat, ready: Post, h: string, now: int)
      returns (longer: seq<System>, more: seq<Step>)
    requires IsRun(states, steps) && p in Last(states).procs && h in Last(states).sessions && now > 0
    requires Last(states).procs[p] == Process(ready, AtGate(Some(h), false))
    requires ready.body == RequestMessage("notifications/initialized", None, true) && ready.protocolVersion == None
    requires var record := Last(states).sessions[h];
             record.terminatedAt == None && record.expiresAt > now && record.initializedAt == None
    ensures IsRun(longer, more) && states <= longer && steps <= more
    ensures var s, s' := Last(states), Last(longer);
            && s'.procs.Keys == s.procs.Keys && s'.dispatches == s.dispatches
            && s'.sessions == s.sessions[h := s.sessions[h].(lastSeenAt := now, initializedAt := Some(now))]
  {
    var s := Last(states);
    var s1 := To(s, p, Marking(h)).(accepted := s.accepted + {h});
    var s2 := To(s1, p, Finished).(sessions :=
        s.sessions[h := s.sessions[h].(lastSeenAt := now, initializedAt := Some(now))]);
    longer, more := Extend(states, steps, Gate(p), s1);
    longer, more := Extend(longer, more, Mark(p, now), s2);
  }

  /** From nothing to the first call: a session is created, initialized and lists its tools. */
  lemma ToolsAreListed(hash: string, clientId: string, protocolVersion: string, id: string, now: int)
      returns (states: seq<System>, steps: seq<Step>)
    requires now > 0
    ensures IsRun(states, steps)
    ensures Last(states).dispatches == [Dispatch(0, None, "initialize"), Dispatch(2, Some(hash), "tools/list")]
  {
    states, steps := SessionIsCreated(hash, clientId, protocolVersion, id, now);
    states, steps := SessionIsMarked(states, steps, 1, hash, now);
    var post := Post(RequestMessage("tools/list", Some(id), true), true, Some(hash), Some(protocolVersion));
    states, steps := NewRequestIsDispatched(states, steps, 2, post, hash, "tools/list", id, now);
  }
}
