/** Every step of the DynamoDB protocol keeps the invariant, and the steps that reply
    agree with the atomic operations. */
module RefreshRefinement {
  import opened Wrappers
  import opened StoreRecords
  import opened RefreshTokens
  import opened FamilyChain
  import opened RefreshProtocol
  import opened RefreshInvariant

  lemma StaysExpired(s: System, s': System)
    requires TimeMovesOn(s, s')
    ensures forall e | Expired(s, e) :: Expired(s', e)
  {
  }

  lemma QuietTable(s: System, s': System, disk: Tokens)
    requires TokensTracked(s, disk) && FamiliesTracked(s, disk)
    requires s'.table == s.table && TimeMovesOn(s, s')
    ensures TokensTracked(s', disk) && FamiliesTracked(s', disk)
  {
  }

  lemma QuietMarkers(s: System, s': System, disk: Tokens)
    requires MarkersTracked(s, disk)
    requires s'.table == s.table && TimeMovesOn(s, s')
    ensures MarkersTracked(s', disk)
  {
  }

  lemma QuietAges(s: System, s': System, disk: Tokens)
    requires Aged(s, disk) && s'.lifetime == s.lifetime && s.clock <= s'.clock
    ensures Aged(s', disk)
  {
  }

  lemma QuietCalls(s: System, s': System, disk: Tokens)
    requires CallsTracked(s, disk) && s'.procs == s.procs
    requires s'.lifetime == s.lifetime && s.clock <= s'.clock && s'.table.families.Keys <= s.table.families.Keys
    ensures CallsTracked(s', disk)
  {
  }

  lemma QuietDraws(s: System, s': System, disk: Tokens)
    requires DrawsTracked(s, disk) && s'.procs == s.procs && s'.drawn == s.drawn
    requires s'.table.families.Keys <= s.table.families.Keys
    ensures DrawsTracked(s', disk)
  {
  }

  lemma MovingCalls(s: System, s': System, disk: Tokens, p: nat)
    requires CallsTracked(s, disk) && MovesAlone(s, s', p)
    requires CallTracked(s', disk, s'.procs[p].call, s'.procs[p].phase)
    ensures CallsTracked(s', disk)
  {
  }

  lemma MovingDraws(s: System, s': System, disk: Tokens, p: nat)
    requires DrawsTracked(s, disk) && MovesAlone(s, s', p)
    ensures DrawsTracked(s', disk)
  {
  }

  lemma MovingKeepsInv(s: System, s': System, disk: Tokens, chains: Chains, p: nat)
    requires Inv(s, disk, chains) && MovesAlone(s, s', p) && CallsTracked(s', disk)
    ensures Inv(s', disk, chains)
  {
    assert TimeMovesOn(s, s');
    QuietTable(s, s', disk);
    QuietMarkers(s, s', disk);
    QuietAges(s, s', disk);
    MovingDraws(s, s', disk, p);
  }

  // ----- steps that leave the disk alone -----

  lemma CallOf(s: System, disk: Tokens, p: nat)
    requires CallsTracked(s, disk) && p in s.procs
    ensures CallTracked(s, disk, s.procs[p].call, s.procs[p].phase)
  {
  }

  lemma LastUsedHasChild(disk: Tokens, chains: Chains, hash: string)
    requires Chained(disk, chains) && hash in disk
    ensures disk[hash].lastUsedAt.Some? <==> HasChild(disk, hash)
    ensures disk[hash].revokedAt.Some? <==> IsSet(disk[hash].revokedAt)
  {
    ChildlessIsLeaf(disk, chains, hash);
    var chain := chains[disk[hash].familyId];
    var i :| 0 <= i < |chain| && chain[i] == hash;
    assert Member(disk, disk[hash].familyId, chain[0], chain[i]);
    if i < |chain| - 1 {
      assert chain[i] != chain[|chain| - 1];
    }
  }

  lemma ChainedIsStamped(disk: Tokens, chains: Chains)
    requires Chained(disk, chains)
    ensures Stamped(disk)
  {
    forall h | h in disk ensures (disk[h].lastUsedAt.Some? <==> HasChild(disk, h))
        && (disk[h].revokedAt.Some? ==> IsSet(disk[h].revokedAt)) {
      LastUsedHasChild(disk, chains, h);
    }
  }

  lemma ChainedIsRooted(disk: Tokens, chains: Chains)
    requires Chained(disk, chains)
    ensures Rooted(disk)
  {
    forall k | k in disk && disk[k].rotatedFromHash.Some?
      ensures disk[k].rotatedFromHash.value in disk && disk[disk[k].rotatedFromHash.value].familyId == disk[k].familyId
    {
      ChildFollowsParent(disk, chains, k, disk[k].rotatedFromHash.value);
    }
  }

  lemma ChainedHasOneLeaf(disk: Tokens, chains: Chains)
    requires Chained(disk, chains)
    ensures OneLeaf(disk)
  {
    forall h, k | h in disk && k in disk && disk[h].familyId == disk[k].familyId && !HasChild(disk, h)
        && !HasChild(disk, k)
      ensures h == k
    {
      ChildlessIsLeaf(disk, chains, h);
      ChildlessIsLeaf(disk, chains, k);
    }
  }

  lemma ArriveMoves(s: System, disk: Tokens, p: nat, call: Request, s': System, event: Option<Event>)
    requires CallsTracked(s, disk) && ArriveAction(s, p, call, s', event)
    ensures MovesAlone(s, s', p) && CallsTracked(s', disk)
  {
  }

  lemma ArriveStep(s: System, disk: Tokens, chains: Chains, p: nat, call: Request, s': System,
      event: Option<Event>)
    requires Inv(s, disk, chains) && ArriveAction(s, p, call, s', event)
    ensures Inv(s', disk, chains)
  {
    ArriveMoves(s, disk, p, call, s', event);
    MovingKeepsInv(s, s', disk, chains, p);
  }

  lemma DrawTokensMoves(s: System, disk: Tokens, p: nat, hash: string, familyId: string,
      s': System, event: Option<Event>)
    requires CallsTracked(s, disk) && DrawsTracked(s, disk) && s.clock > 0
        && DrawTokensAction(s, p, hash, familyId, s', event)
    ensures MovesAlone(s, s', p) && CallsTracked(s', disk)
  {
  }

  lemma DrawTokensStep(s: System, disk: Tokens, chains: Chains, p: nat, hash: string,
      familyId: string, s': System, event: Option<Event>)
    requires Inv(s, disk, chains) && DrawTokensAction(s, p, hash, familyId, s', event)
    ensures Inv(s', disk, chains)
  {
    DrawTokensMoves(s, disk, p, hash, familyId, s', event);
    MovingKeepsInv(s, s', disk, chains, p);
  }

  lemma ReadTokenMoves(s: System, disk: Tokens, p: nat, s': System, event: Option<Event>)
    requires TokensTracked(s, disk) && s.clock > 0 && ReadTokenAction(s, p, s', event)
    requires CallsTracked(s, disk)
    requires Stamped(disk)
    ensures MovesAlone(s, s', p) && CallsTracked(s', disk)
  {
    CallOf(s, disk, p);
    MovingCalls(s, s', disk, p);
  }

  lemma ReadTokenReplies(s: System, disk: Tokens, p: nat, s': System, event: Option<Event>)
    requires TokensTracked(s, disk) && s.clock > 0 && ReadTokenAction(s, p, s', event)
    requires CallsTracked(s, disk)
    requires Stamped(disk)
    ensures Unchanging(disk, event)
  {
  }

  lemma ReadTokenStep(s: System, disk: Tokens, chains: Chains, p: nat, s': System,
      event: Option<Event>)
    requires Inv(s, disk, chains) && ReadTokenAction(s, p, s', event)
    ensures Inv(s', disk, chains)
  {
    ChainedIsStamped(disk, chains);
    ReadTokenMoves(s, disk, p, s', event);
    MovingKeepsInv(s, s', disk, chains, p);
  }

  lemma SampleClockMoves(s: System, disk: Tokens, p: nat, s': System, event: Option<Event>)
    requires s.clock > 0 && SampleClockAction(s, p, s', event)
    requires CallsTracked(s, disk)
    requires Aged(s, disk)
    ensures MovesAlone(s, s', p) && CallsTracked(s', disk)
  {
  }

  lemma SampleClockReplies(s: System, disk: Tokens, p: nat, s': System, event: Option<Event>)
    requires s.clock > 0 && SampleClockAction(s, p, s', event)
    requires CallsTracked(s, disk)
    requires Aged(s, disk)
    ensures Unchanging(disk, event)
  {
  }

  lemma SampleClockStep(s: System, disk: Tokens, chains: Chains, p: nat, s': System,
      event: Option<Event>)
    requires Inv(s, disk, chains) && SampleClockAction(s, p, s', event)
    ensures Inv(s', disk, chains)
  {
    SampleClockMoves(s, disk, p, s', event);
    MovingKeepsInv(s, s', disk, chains, p);
  }

  /** A family item refuses an unexpired token only when the family was revoked. */
  lemma ReadFamilyMoves(s: System, disk: Tokens, p: nat, s': System, event: Option<Event>)
    requires FamiliesTracked(s, disk) && ReadFamilyAction(s, p, s', event)
    requires CallsTracked(s, disk)
    requires Stamped(disk)
    ensures MovesAlone(s, s', p) && CallsTracked(s', disk)
  {
  }

  lemma ReadFamilyReplies(s: System, disk: Tokens, p: nat, s': System, event: Option<Event>)
    requires FamiliesTracked(s, disk) && ReadFamilyAction(s, p, s', event)
    requires CallsTracked(s, disk)
    requires Stamped(disk)
    ensures Unchanging(disk, event)
  {
  }

  lemma ReadFamilyStep(s: System, disk: Tokens, chains: Chains, p: nat, s': System,
      event: Option<Event>)
    requires Inv(s, disk, chains) && ReadFamilyAction(s, p, s', event)
    ensures Inv(s', disk, chains)
  {
    ChainedIsStamped(disk, chains);
    ReadFamilyMoves(s, disk, p, s', event);
    MovingKeepsInv(s, s', disk, chains, p);
  }

  lemma ReadMarkerMoves(s: System, disk: Tokens, p: nat, newHash: string, s': System,
      event: Option<Event>)
    requires MarkersTracked(s, disk) && DrawsTracked(s, disk) && ReadMarkerAction(s, p, newHash, s', event)
    requires CallsTracked(s, disk)
    ensures MovesAlone(s, s', p) && CallsTracked(s', disk)
  {
    CallOf(s, disk, p);
    MovingCalls(s, s', disk, p);
  }

  lemma ReadMarkerStep(s: System, disk: Tokens, chains: Chains, p: nat, newHash: string,
      s': System, event: Option<Event>)
    requires Inv(s, disk, chains) && ReadMarkerAction(s, p, newHash, s', event)
    ensures Inv(s', disk, chains)
  {
    ReadMarkerMoves(s, disk, p, newHash, s', event);
    MovingKeepsInv(s, s', disk, chains, p);
  }

  lemma TickStep(s: System, disk: Tokens, chains: Chains, time: int, s': System,
      event: Option<Event>)
    requires Inv(s, disk, chains) && TickAction(s, time, s', event)
    ensures Inv(s', disk, chains)
  {
    assert TimeMovesOn(s, s');
    QuietTable(s, s', disk);
    QuietMarkers(s, s', disk);
    QuietAges(s, s', disk);
    QuietCalls(s, s', disk);
    QuietDraws(s, s', disk);
  }

  /** What is no older than an expired item has expired as well, also after the item is gone. */
  lemma CollectedExpiry(s: System, s': System)
    requires s' == s.(table := s'.table)
    ensures forall e :: Expired(s, e) <==> Expired(s', e)
    ensures forall e, e' | Expired(s, e) && e' <= e :: Expired(s', e')
  {
  }

  lemma CollectedTable(s: System, disk: Tokens, key: string, s': System, event: Option<Event>)
    requires TokensTracked(s, disk) && FamiliesTracked(s, disk) && MarkersTracked(s, disk)
    requires CollectTokenAction(s, key, s', event) || CollectFamilyAction(s, key, s', event)
        || CollectMarkerAction(s, key, s', event)
    ensures TokensTracked(s', disk) && FamiliesTracked(s', disk) && MarkersTracked(s', disk)
    ensures s' == s.(table := s'.table) && s'.table.families.Keys <= s.table.families.Keys
  {
    CollectedExpiry(s, s');
  }

  lemma CollectedKeepsInv(s: System, s': System, disk: Tokens, chains: Chains)
    requires Inv(s, disk, chains)
    requires TokensTracked(s', disk) && FamiliesTracked(s', disk) && MarkersTracked(s', disk)
    requires s' == s.(table := s'.table) && s'.table.families.Keys <= s.table.families.Keys
    ensures Inv(s', disk, chains)
  {
    QuietAges(s, s', disk);
    QuietCalls(s, s', disk);
    QuietDraws(s, s', disk);
  }

  // ----- creation -----

  lemma WriteNewSucceeds(s: System, disk: Tokens, p: nat, s': System, event: Option<Event>)
    requires TokensTracked(s, disk) && CallsTracked(s, disk) && WriteNewAction(s, p, s', event)
    ensures event.Some? && event.value.op.CreateOp? && Matches(disk, event.value)
    ensures CreatedBy(s, s', disk, event.value.op) && Lands(s, s', p)
    ensures s.procs[p].phase == Creating(event.value.op.hash, event.value.op.familyId, event.value.op.createdAt)
  {
  }

  /** Creating a token adds it to the disk, the table and its own new family. */
  ghost predicate CreatedBy(s: System, s': System, disk: Tokens, op: Operation) {
    && op.CreateOp? && op.ttlSeconds == s.lifetime && Fresh(disk, op) && 0 < op.createdAt <= s.clock
    && op.familyId !in s.table.families
    && var record := NewRecord(op.hash, op.familyId, op.grant, op.createdAt, s.lifetime);
    && s'.table == Table(s.table.tokens[op.hash := StoredItem(record)],
                         s.table.families[op.familyId := FamilyItem(Some(record.expiresAt), None)],
                         s.table.markers)
    && s'.clock == s.clock && s'.lifetime == s.lifetime && s'.drawn == s.drawn
  }

  lemma CreatedTable(s: System, s': System, disk: Tokens, op: Operation)
    requires TokensTracked(s, disk) && FamiliesTracked(s, disk) && CreatedBy(s, s', disk, op) && TimeMovesOn(s, s')
    ensures TokensTracked(s', Apply(disk, op).0) && FamiliesTracked(s', Apply(disk, op).0)
  {
    StaysExpired(s, s');
  }

  lemma CreatedChildren(disk: Tokens, op: Operation)
    requires op.CreateOp? && Fresh(disk, op)
    ensures forall h :: HasChild(Apply(disk, op).0, h) <==> HasChild(disk, h)
  {
    var disk' := Apply(disk, op).0;
    forall h ensures HasChild(disk', h) <==> HasChild(disk, h) {
      if HasChild(disk, h) {
        var k :| k in disk && disk[k].rotatedFromHash == Some(h);
        assert k in disk' && disk'[k] == disk[k];
      }
    }
  }

  lemma CreatedMarkers(s: System, s': System, disk: Tokens, op: Operation)
    requires MarkersTracked(s, disk) && NewestLast(disk) && Aged(s, disk) && CreatedBy(s, s', disk, op)
        && TimeMovesOn(s, s')
    requires Rooted(disk)
    ensures MarkersTracked(s', Apply(disk, op).0) && NewestLast(Apply(disk, op).0) && Aged(s', Apply(disk, op).0)
  {
    StaysExpired(s, s');
    CreatedChildren(disk, op);
  }

  /** One request lands its draws and is done; every other request is as before. */
  ghost predicate Lands(s: System, s': System, p: nat) {
    && p in s.procs && p in s'.procs
    && s'.procs == s.procs[p := s'.procs[p]]
    && s'.procs[p].phase.Replied?
    && s'.clock == s.clock && s'.lifetime == s.lifetime && s'.drawn == s.drawn
  }

  lemma CreatedCalls(s: System, s': System, disk: Tokens, op: Operation, p: nat)
    requires CallsTracked(s, disk) && DrawsTracked(s, disk) && CreatedBy(s, s', disk, op) && Lands(s, s', p)
    requires s.procs[p].phase == Creating(op.hash, op.familyId, op.createdAt)
    ensures CallsTracked(s', Apply(disk, op).0)
  {
    CreatedChildren(disk, op);
    forall q | q in s'.procs ensures CallTracked(s', Apply(disk, op).0, s'.procs[q].call, s'.procs[q].phase) {
      if q != p {
        CallOf(s, disk, q);
        assert Holds(s.procs[q].phase) !! Holds(s.procs[p].phase);
        assert op.hash in Holds(s.procs[p].phase) && op.familyId in Holds(s.procs[p].phase);
      }
    }
  }

  lemma CreatedDraws(s: System, s': System, disk: Tokens, op: Operation, p: nat)
    requires DrawsTracked(s, disk) && CreatedBy(s, s', disk, op) && Lands(s, s', p)
    requires s.procs[p].phase == Creating(op.hash, op.familyId, op.createdAt)
    ensures DrawsTracked(s', Apply(disk, op).0)
  {
  }

  lemma LandingMovesTime(s: System, s': System, p: nat)
    requires Lands(s, s', p)
    ensures TimeMovesOn(s, s')
  {
  }

  lemma WriteNewStep(s: System, disk: Tokens, chains: Chains, p: nat, s': System,
      event: Option<Event>)
    requires Inv(s, disk, chains) && WriteNewAction(s, p, s', event)
    ensures event.Some? && Inv(s', Apply(disk, event.value.op).0, ChainsAfter(disk, chains, event.value.op))
  {
    WriteNewSucceeds(s, disk, p, s', event);
    var op := event.value.op;
    LandingMovesTime(s, s', p);
    ChainedIsRooted(disk, chains);
    CreatedTable(s, s', disk, op);
    CreatedMarkers(s, s', disk, op);
    CreatedCalls(s, s', disk, op, p);
    CreatedDraws(s, s', disk, op, p);
    StepKeepsChains(disk, chains, op);
  }

  // ----- rotation -----

  /** A transaction that fails shows that the token was rotated or its family revoked. */
  lemma TransactMoves(s: System, disk: Tokens, p: nat, s': System, event: Option<Event>)
    requires TokensTracked(s, disk) && FamiliesTracked(s, disk) && MarkersTracked(s, disk) && Stamped(disk)
    requires CallsTracked(s, disk) && TransactAction(s, p, s', event) && event == None
    ensures MovesAlone(s, s', p) && CallsTracked(s', disk)
  {
    CallOf(s, disk, p);
    MovingCalls(s, s', disk, p);
  }

  /** A transaction that fails writes nothing and goes on to the revocation, and the disk store would
      not rotate the token either. */
  lemma TransactFails(s: System, disk: Tokens, chains: Chains, p: nat, s': System,
      event: Option<Event>)
    requires Inv(s, disk, chains) && TransactAction(s, p, s', event) && event == None
    ensures Inv(s', disk, chains)
    ensures s'.table == s.table && s'.procs[p].phase.Revoking?
    ensures var Committing(_, now, newHash) := s.procs[p].phase;
            !Rotate(disk, s.procs[p].call.request, now, newHash).1.Rotated?
  {
    ChainedIsStamped(disk, chains);
    TransactMoves(s, disk, p, s', event);
    MovingKeepsInv(s, s', disk, chains, p);
  }

  /** A rotation that succeeds on the disk, with its four writes to the table. */
  ghost predicate RotatedBy(s: System, s': System, disk: Tokens, op: Operation) {
    && op.RotateOp? && op.request.ttlSeconds == s.lifetime && Fresh(disk, op)
    && Apply(disk, op).1.Rotated?
    && var h, now := op.request.hash, op.now;
    && var record := disk[h];
    && var successor := Successor(record, h, op.newHash, op.request.ttlSeconds, now);
    && record.createdAt <= now <= s.clock && record.revokedAt == None
    && h in s.table.tokens && record.familyId in s.table.families
    && s'.table == Table(
         s.table.tokens[op.newHash := StoredItem(successor)][h :=
             s.table.tokens[h].(record := Some(record.(lastUsedAt := Some(now))), lastUsedAt := Some(now))],
         s.table.families[record.familyId :=
             s.table.families[record.familyId].(expiresAt := Some(successor.expiresAt))],
         s.table.markers[h := MarkerItem(record.familyId, now, successor.expiresAt)])
    && s'.clock == s.clock && s'.lifetime == s.lifetime && s'.drawn == s.drawn
  }

  lemma TransactSucceeds(s: System, disk: Tokens, p: nat, s': System, event: Option<Event>)
    requires TokensTracked(s, disk) && FamiliesTracked(s, disk) && MarkersTracked(s, disk) && Stamped(disk)
    requires CallsTracked(s, disk) && TransactAction(s, p, s', event) && event.Some?
    ensures Matches(disk, event.value) && RotatedBy(s, s', disk, event.value.op) && Lands(s, s', p)
    ensures s.procs[p].phase.Committing? && s.procs[p].phase.newHash == event.value.op.newHash
  {
    CallOf(s, disk, p);
  }

  lemma RotatedChildren(disk: Tokens, op: Operation)
    requires op.RotateOp? && Fresh(disk, op) && Apply(disk, op).1.Rotated?
    ensures forall h :: HasChild(Apply(disk, op).0, h) <==> HasChild(disk, h) || h == op.request.hash
  {
    var disk' := Apply(disk, op).0;
    assert disk'[op.newHash].rotatedFromHash == Some(op.request.hash);
    forall h ensures HasChild(disk', h) <==> HasChild(disk, h) || h == op.request.hash {
      if HasChild(disk, h) {
        var k :| k in disk && disk[k].rotatedFromHash == Some(h);
        assert k in disk' && disk'[k].rotatedFromHash == Some(h);
      }
    }
  }

  lemma RotatedTokens(s: System, s': System, disk: Tokens, op: Operation)
    requires TokensTracked(s, disk) && RotatedBy(s, s', disk, op) && TimeMovesOn(s, s')
    ensures TokensTracked(s', Apply(disk, op).0)
  {
  }

  /** The rotated token was the newest, so the family item now outlives every token of the family. */
  lemma RotatedFamilies(s: System, s': System, disk: Tokens, op: Operation)
    requires FamiliesTracked(s, disk) && Aged(s, disk) && NewestLast(disk) && RotatedBy(s, s', disk, op)
        && TimeMovesOn(s, s')
    ensures FamiliesTracked(s', Apply(disk, op).0)
  {
  }

  lemma RotatedAges(s: System, s': System, disk: Tokens, op: Operation)
    requires Aged(s, disk) && RotatedBy(s, s', disk, op)
    ensures Aged(s', Apply(disk, op).0)
  {
  }

  lemma RotatedMarkers(s: System, s': System, disk: Tokens, op: Operation)
    requires MarkersTracked(s, disk) && Aged(s, disk) && Rooted(disk) && RotatedBy(s, s', disk, op)
        && TimeMovesOn(s, s')
    ensures MarkersTracked(s', Apply(disk, op).0)
  {
    StaysExpired(s, s');
    RotatedChildren(disk, op);
  }

  lemma RotatedNewest(s: System, s': System, disk: Tokens, op: Operation)
    requires NewestLast(disk) && OneLeaf(disk) && RotatedBy(s, s', disk, op)
    ensures NewestLast(Apply(disk, op).0)
  {
    RotatedChildren(disk, op);
  }

  lemma RotatedCalls(s: System, s': System, disk: Tokens, op: Operation, p: nat)
    requires CallsTracked(s, disk) && DrawsTracked(s, disk) && RotatedBy(s, s', disk, op) && Lands(s, s', p)
    requires s.procs[p].phase.Committing? && s.procs[p].phase.newHash == op.newHash
    ensures CallsTracked(s', Apply(disk, op).0)
  {
    RotatedChildren(disk, op);
    forall q | q in s'.procs ensures CallTracked(s', Apply(disk, op).0, s'.procs[q].call, s'.procs[q].phase) {
      if q != p {
        CallOf(s, disk, q);
        assert Holds(s.procs[q].phase) !! Holds(s.procs[p].phase);
        assert op.newHash in Holds(s.procs[p].phase);
      }
    }
  }

  lemma RotatedDraws(s: System, s': System, disk: Tokens, op: Operation, p: nat)
    requires DrawsTracked(s, disk) && RotatedBy(s, s', disk, op) && Lands(s, s', p)
    requires s.procs[p].phase.Committing? && s.procs[p].phase.newHash == op.newHash
    ensures DrawsTracked(s', Apply(disk, op).0)
  {
    assert Holds(s.procs[p].phase) <= s.drawn;
    assert op.newHash in Holds(s.procs[p].phase);
  }

  lemma TransactStep(s: System, disk: Tokens, chains: Chains, p: nat, s': System,
      event: Option<Event>)
    requires Inv(s, disk, chains) && TransactAction(s, p, s', event) && event.Some?
    ensures Inv(s', Apply(disk, event.value.op).0, ChainsAfter(disk, chains, event.value.op))
  {
    ChainedIsStamped(disk, chains);
    TransactSucceeds(s, disk, p, s', event);
    var op := event.value.op;
    LandingMovesTime(s, s', p);
    ChainedIsRooted(disk, chains);
    ChainedHasOneLeaf(disk, chains);
    RotatedTokens(s, s', disk, op);
    RotatedFamilies(s, s', disk, op);
    RotatedAges(s, s', disk, op);
    RotatedMarkers(s, s', disk, op);
    RotatedNewest(s, s', disk, op);
    RotatedCalls(s, s', disk, op, p);
    RotatedDraws(s, s', disk, op, p);
    StepKeepsChains(disk, chains, op);
  }

  // ----- revocation -----

  /** The revoke update is the atomic replay detection, or finds the family already revoked. */
  ghost predicate RevokedBy(s: System, s': System, disk: Tokens, op: Operation) {
    && op.RotateOp? && op.request.hash in disk && op.now > 0
    && var f := disk[op.request.hash].familyId;
    && f in s.table.families
    && Apply(disk, op).0 == (if s.table.families[f].revokedAt.None? then RevokeFamily(disk, f, op.now) else disk)
    && s'.table == RevokeUpdate(s.table, f, op.now)
    && s'.clock == s.clock && s'.lifetime == s.lifetime && s'.drawn == s.drawn
  }

  lemma RevokeFacts(s: System, disk: Tokens, p: nat, s': System, event: Option<Event>)
    requires FamiliesTracked(s, disk) && Stamped(disk) && CallsTracked(s, disk) && RevokeAction(s, p, s', event)
    ensures event.Some? && Matches(disk, event.value) && RevokedBy(s, s', disk, event.value.op) && Lands(s, s', p)
  {
  }

  lemma RevokedTable(s: System, s': System, disk: Tokens, op: Operation)
    requires TokensTracked(s, disk) && FamiliesTracked(s, disk) && RevokedBy(s, s', disk, op) && TimeMovesOn(s, s')
    ensures TokensTracked(s', Apply(disk, op).0) && FamiliesTracked(s', Apply(disk, op).0)
  {
    StaysExpired(s, s');
  }

  lemma RevokedChildren(disk: Tokens, familyId: string, now: int)
    ensures forall h :: HasChild(RevokeFamily(disk, familyId, now), h) <==> HasChild(disk, h)
  {
    var disk' := RevokeFamily(disk, familyId, now);
    forall h ensures HasChild(disk', h) <==> HasChild(disk, h) {
      if HasChild(disk, h) {
        var k :| k in disk && disk[k].rotatedFromHash == Some(h);
        assert k in disk' && disk'[k].rotatedFromHash == Some(h);
      }
    }
  }

  lemma RevokedMarkers(s: System, s': System, disk: Tokens, op: Operation)
    requires MarkersTracked(s, disk) && Aged(s, disk) && NewestLast(disk) && RevokedBy(s, s', disk, op)
        && TimeMovesOn(s, s')
    ensures MarkersTracked(s', Apply(disk, op).0) && Aged(s', Apply(disk, op).0) && NewestLast(Apply(disk, op).0)
  {
    StaysExpired(s, s');
    RevokedChildren(disk, disk[op.request.hash].familyId, op.now);
  }

  lemma RevokedCalls(s: System, s': System, disk: Tokens, op: Operation, p: nat)
    requires CallsTracked(s, disk) && DrawsTracked(s, disk) && RevokedBy(s, s', disk, op) && Lands(s, s', p)
    ensures CallsTracked(s', Apply(disk, op).0) && DrawsTracked(s', Apply(disk, op).0)
  {
    RevokedChildren(disk, disk[op.request.hash].familyId, op.now);
    forall q | q in s'.procs ensures CallTracked(s', Apply(disk, op).0, s'.procs[q].call, s'.procs[q].phase) {
      if q != p {
        CallOf(s, disk, q);
      }
    }
  }

  lemma RevokeStep(s: System, disk: Tokens, chains: Chains, p: nat, s': System, event: Option<Event>)
    requires Inv(s, disk, chains) && RevokeAction(s, p, s', event)
    ensures event.Some? && Inv(s', Apply(disk, event.value.op).0, chains)
  {
    ChainedIsStamped(disk, chains);
    RevokeFacts(s, disk, p, s', event);
    var op := event.value.op;
    LandingMovesTime(s, s', p);
    RevokedTable(s, s', disk, op);
    RevokedMarkers(s, s', disk, op);
    RevokedCalls(s, s', disk, op, p);
    ReuseKeepsChains(disk, chains, disk[op.request.hash].familyId, op.now);
  }
}
