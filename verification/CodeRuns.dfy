/** Whole runs of the code protocol are explained by the disk store. */
module CodeRuns {
  import opened Wrappers
  import opened AuthorizationCodes
  import opened CodeProtocol

  ghost predicate StepAt(digest: Digest, states: seq<System>, steps: seq<Step>, events: seq<Option<Event>>, i: nat)
    requires |states| == |steps| + 1 && |events| == |steps| && i < |steps|
  {
    Next(digest, states[i], steps[i], states[i + 1], events[i])
  }

  ghost predicate IsRun(digest: Digest, states: seq<System>, steps: seq<Step>, events: seq<Option<Event>>) {
    && |states| == |steps| + 1 && |events| == |steps|
    && Init(states[0])
    && forall i: nat | i < |steps| :: StepAt(digest, states, steps, events, i)
  }

  /** The disk store after the operations completed in the first `n` steps of a run. */
  function DiskAfter(digest: Digest, events: seq<Option<Event>>, n: nat): Codes
    requires n <= |events|
  {
    if n == 0 then map[]
    else
      var before := DiskAfter(digest, events, n - 1);
      match events[n - 1]
      case None => before
      case Some(e) => Apply(digest, before, e.op).0
  }

  ghost predicate Explained(digest: Digest, events: seq<Option<Event>>) {
    forall i | 0 <= i < |events| && events[i].Some? ::
      Apply(digest, DiskAfter(digest, events, i), events[i].value.op).1 == events[i].value.reply
  }

  lemma {:induction false} RunTracksDisk(digest: Digest, states: seq<System>, steps: seq<Step>,
      events: seq<Option<Event>>, n: nat)
    requires IsRun(digest, states, steps, events) && n <= |steps|
    ensures Inv(digest, states[n], DiskAfter(digest, events, n))
  {
    if n > 0 {
      RunTracksDisk(digest, states, steps, events, n - 1);
      assert StepAt(digest, states, steps, events, n - 1);
      StepRefines(digest, states[n - 1], DiskAfter(digest, events, n - 1), steps[n - 1], states[n], events[n - 1]);
    }
  }

  /** Any interleaving, with expired items collected in between, gives every request the reply
      that the disk store gives when the completed operations run one at a time. */
  lemma RunRefinesDisk(digest: Digest, states: seq<System>, steps: seq<Step>,
      events: seq<Option<Event>>)
    requires IsRun(digest, states, steps, events)
    ensures Explained(digest, events)
  {
    forall i | 0 <= i < |events| && events[i].Some?
      ensures Apply(digest, DiskAfter(digest, events, i), events[i].value.op).1 == events[i].value.reply
    {
      RunTracksDisk(digest, states, steps, events, i);
      assert StepAt(digest, states, steps, events, i);
      StepRefines(digest, states[i], DiskAfter(digest, events, i), steps[i], states[i + 1], events[i]);
    }
  }

  /** In every reachable state a request without a reply has a step that brings it closer to one. */
  lemma NoRequestIsStuck(digest: Digest, states: seq<System>, steps: seq<Step>, events: seq<Option<Event>>, i: nat,
      p: nat, hash: string) returns (step: Step, s': System, event: Option<Event>)
    requires IsRun(digest, states, steps, events) && i <= |steps|
    requires p in states[i].procs && !states[i].procs[p].phase.Replied? && hash !in states[i].drawn
    ensures Next(digest, states[i], step, s', event)
    ensures p in s'.procs && StepsLeft(s'.procs[p].phase) < StepsLeft(states[i].procs[p].phase)
  {
    RunTracksDisk(digest, states, steps, events, i);
    step, s', event := RequestMovesOn(digest, states[i], DiskAfter(digest, events, i), p, hash);
  }
}
