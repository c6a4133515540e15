/** What holds over every run of the refresh-token store, started empty. */
module FamilyHistory {
  import opened Wrappers
  import opened StoreRecords
  import opened RefreshTokens
  import opened FamilyChain

  function ChainsOf(ops: seq<Operation>): Chains {
    if ops == [] then map[]
    else
      var before := ops[..|ops| - 1];
      ChainsAfter(Replay(map[], before), ChainsOf(before), ops[|ops| - 1])
  }

  lemma PrefixIsFresh(ops: seq<Operation>, n: nat)
    requires FreshRun(ops) && n <= |ops|
    ensures FreshRun(ops[..n])
  {
    forall i | 0 <= i < n ensures Fresh(Replay(map[], ops[..n][..i]), ops[..n][i]) {
      assert ops[..n][..i] == ops[..i];
    }
  }

  /** Every reachable store is a set of families, each a single chain with one root. */
  lemma {:induction false} ReachableStoresAreChained(ops: seq<Operation>)
    requires FreshRun(ops)
    ensures Chained(Replay(map[], ops), ChainsOf(ops))
  {
    if ops != [] {
      var n := |ops| - 1;
      PrefixIsFresh(ops, n);
      ReachableStoresAreChained(ops[..n]);
      StepKeepsChains(Replay(map[], ops[..n]), ChainsOf(ops[..n]), ops[n]);
    }
  }

  /** No token disappears, and what was decided about it stays decided. */
  ghost predicate Outlives(before: Tokens, after: Tokens) {
    forall h | h in before ::
      && h in after
      && after[h].familyId == before[h].familyId
      && after[h].expiresAt == before[h].expiresAt
      && GrantOf(after[h]) == GrantOf(before[h])
      && after[h].rotatedFromHash == before[h].rotatedFromHash
      && (IsSet(before[h].revokedAt) ==> IsSet(after[h].revokedAt))
  }

  lemma StepOutlives(tokens: Tokens, op: Operation)
    requires Fresh(tokens, op)
    ensures Outlives(tokens, Apply(tokens, op).0)
  {
  }

  lemma OutlivesTransitive(a: Tokens, b: Tokens, c: Tokens)
    requires Outlives(a, b) && Outlives(b, c)
    ensures Outlives(a, c)
  {
  }

  lemma ReplayStep(ops: seq<Operation>, i: nat)
    requires i < |ops|
    ensures Replay(map[], ops[..i + 1]) == Apply(Replay(map[], ops[..i]), ops[i]).0
    ensures FreshRun(ops) ==> Fresh(Replay(map[], ops[..i]), ops[i])
  {
    assert ops[..i + 1][..i] == ops[..i];
  }

  lemma NextOutlives(ops: seq<Operation>, i: nat)
    requires FreshRun(ops) && i < |ops|
    ensures Outlives(Replay(map[], ops[..i]), Replay(map[], ops[..i + 1]))
  {
    ReplayStep(ops, i);
    StepOutlives(Replay(map[], ops[..i]), ops[i]);
  }

  lemma {:induction false} OutlivesBetween(ops: seq<Operation>, i: nat, j: nat)
    requires FreshRun(ops) && i <= j <= |ops|
    ensures Outlives(Replay(map[], ops[..i]), Replay(map[], ops[..j]))
    decreases j - i
  {
    if i < j {
      var a, b, c := Replay(map[], ops[..i]), Replay(map[], ops[..j - 1]), Replay(map[], ops[..j]);
      NextOutlives(ops, j - 1);
      OutlivesBetween(ops, i, j - 1);
      OutlivesTransitive(a, b, c);
    }
  }

  lemma ChildPersists(before: Tokens, after: Tokens, hash: string)
    requires Outlives(before, after) && HasChild(before, hash)
    ensures HasChild(after, hash)
  {
  }

  lemma RotationLeavesChild(ops: seq<Operation>, i: nat)
    requires FreshRun(ops) && i < |ops| && OutcomeAt(ops, i).Rotated?
    ensures HasChild(Replay(map[], ops[..i + 1]), ops[i].request.hash)
  {
    ReplayStep(ops, i);
    var after := Replay(map[], ops[..i + 1]);
    assert after[ops[i].newHash].rotatedFromHash == Some(ops[i].request.hash);
  }

  /** No token is rotated twice. */
  lemma TokenRotatesAtMostOnce(ops: seq<Operation>, i: nat, j: nat)
    requires FreshRun(ops) && i < |ops| && j < |ops|
    requires OutcomeAt(ops, i).Rotated? && OutcomeAt(ops, j).Rotated?
    requires ops[i].request.hash == ops[j].request.hash
    ensures i == j
  {
    var first, second := if i <= j then i else j, if i <= j then j else i;
    if first < second {
      RotationLeavesChild(ops, first);
      OutlivesBetween(ops, first + 1, second);
      ChildPersists(Replay(map[], ops[..first + 1]), Replay(map[], ops[..second]), ops[first].request.hash);
    }
  }

  /** At most one token of a family can be rotated, whatever the request and the time. */
  lemma OneUsableTokenPerFamily(ops: seq<Operation>, r: RotateRequest, t: int, new1: string,
      s: RotateRequest, u: int, new2: string)
    requires FreshRun(ops)
    requires Rotate(Replay(map[], ops), r, t, new1).1.Rotated? && Rotate(Replay(map[], ops), s, u, new2).1.Rotated?
    requires Replay(map[], ops)[r.hash].familyId == Replay(map[], ops)[s.hash].familyId
    ensures r.hash == s.hash
  {
    ReachableStoresAreChained(ops);
    ChildlessIsLeaf(Replay(map[], ops), ChainsOf(ops), r.hash);
    ChildlessIsLeaf(Replay(map[], ops), ChainsOf(ops), s.hash);
  }

  /** Along a family the client, user, resource, scopes and authentication time never change. */
  lemma FamilyKeepsItsGrant(ops: seq<Operation>, h: string, k: string)
    requires FreshRun(ops) && h in Replay(map[], ops) && k in Replay(map[], ops)
    requires Replay(map[], ops)[h].familyId == Replay(map[], ops)[k].familyId
    ensures GrantOf(Replay(map[], ops)[h]) == GrantOf(Replay(map[], ops)[k])
    ensures IsSet(Replay(map[], ops)[h].revokedAt) <==> IsSet(Replay(map[], ops)[k].revokedAt)
  {
    ReachableStoresAreChained(ops);
    var tokens := Replay(map[], ops);
    var f := tokens[h].familyId;
    var chain := ChainsOf(ops)[f];
    var i :| 0 <= i < |chain| && chain[i] == h;
    var j :| 0 <= j < |chain| && chain[j] == k;
    assert Member(tokens, f, chain[0], chain[i]) && Member(tokens, f, chain[0], chain[j]);
  }

  /** The presented token was rotated before, and its own client presents it, unexpired, for its own resource. */
  ghost predicate ReplayedAt(ops: seq<Operation>, i: nat) {
    && i < |ops| && ops[i].RotateOp?
    && var tokens := Replay(map[], ops[..i]);
    && ops[i].request.hash in tokens
    && HasChild(tokens, ops[i].request.hash)
    && RotationAllowed(tokens[ops[i].request.hash].(revokedAt := None), ops[i].request, ops[i].now)
  }

  lemma ReplayRevokes(ops: seq<Operation>, i: nat)
    requires FreshRun(ops) && ReplayedAt(ops, i)
    ensures var after := Replay(map[], ops[..i + 1]);
            ops[i].request.hash in after && IsSet(after[ops[i].request.hash].revokedAt)
  {
    ReplayStep(ops, i);
  }

  /** Once a rotated token is replayed, no token of its family is ever accepted again. */
  lemma ReplayEndsFamily(ops: seq<Operation>, i: nat, j: nat)
    requires FreshRun(ops) && ReplayedAt(ops, i) && i <= j < |ops| && OutcomeAt(ops, j).Rotated?
    ensures Replay(map[], ops[..j])[ops[j].request.hash].familyId !=
            Replay(map[], ops[..i])[ops[i].request.hash].familyId
  {
    if i < j {
      ReplayRevokes(ops, i);
      OutlivesBetween(ops, i, i + 1);
      OutlivesBetween(ops, i + 1, j);
      PrefixIsFresh(ops, j);
      if Replay(map[], ops[..j])[ops[j].request.hash].familyId ==
          Replay(map[], ops[..i])[ops[i].request.hash].familyId {
        FamilyKeepsItsGrant(ops[..j], ops[j].request.hash, ops[i].request.hash);
      }
    }
  }
}
