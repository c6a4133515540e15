/** Every reachable set of refresh tokens splits into families, each one chain of rotations.
    `chains` lists each family's hashes from its root to its newest token. */
module FamilyChain {
  import opened Wrappers
  import opened StoreRecords
  import opened RefreshTokens

  type Chains = map<string, seq<string>>

  /** A token of a family: it carries the root's grant and is revoked exactly when the root is. */
  ghost predicate Member(tokens: Tokens, familyId: string, root: string, hash: string) {
    && hash in tokens && root in tokens
    && tokens[hash].familyId == familyId
    && GrantOf(tokens[hash]) == GrantOf(tokens[root])
    && tokens[hash].revokedAt == tokens[root].revokedAt
    && (tokens[hash].revokedAt.Some? ==> IsSet(tokens[hash].revokedAt))
  }

  /** Each token was rotated from the one before it, and only the newest is still unused. */
  ghost predicate Linked(tokens: Tokens, chain: seq<string>)
    requires forall i | 0 <= i < |chain| :: chain[i] in tokens
  {
    && (forall i, j | 0 <= i < j < |chain| ::
          chain[i] != chain[j] && (j == i + 1 ==> tokens[chain[j]].rotatedFromHash == Some(chain[i])))
    && (forall i | 0 <= i < |chain| :: tokens[chain[i]].lastUsedAt.Some? <==> i < |chain| - 1)
  }

  ghost predicate IsChain(tokens: Tokens, familyId: string, chain: seq<string>) {
    && |chain| > 0
    && (forall i | 0 <= i < |chain| :: Member(tokens, familyId, chain[0], chain[i]))
    && tokens[chain[0]].rotatedFromHash == None
    && Linked(tokens, chain)
  }

  ghost predicate AllChains(tokens: Tokens, chains: Chains) {
    forall f | f in chains :: IsChain(tokens, f, chains[f])
  }

  ghost predicate Covered(tokens: Tokens, chains: Chains) {
    forall h | h in tokens ::
      && tokens[h].tokenHash == h
      && tokens[h].familyId in chains
      && h in chains[tokens[h].familyId]
  }

  /** The chains cover the tokens exactly. */
  ghost predicate Chained(tokens: Tokens, chains: Chains) {
    AllChains(tokens, chains) && Covered(tokens, chains)
  }

  function Leaf(chain: seq<string>): string
    requires |chain| > 0
  {
    chain[|chain| - 1]
  }

  function ChainsAfter(tokens: Tokens, chains: Chains, op: Operation): Chains {
    match op
    case CreateOp(hash, familyId, _, _, _) => chains[familyId := [hash]]
    case RotateOp(request, now, newHash) =>
      if Rotate(tokens, request, now, newHash).1.Rotated? && tokens[request.hash].familyId in chains then
        var f := tokens[request.hash].familyId;
        chains[f := chains[f] + [newHash]]
      else
        chains
  }

  /** A token has a child exactly when it is not the newest of its family. */
  lemma ChildlessIsLeaf(tokens: Tokens, chains: Chains, hash: string)
    requires Chained(tokens, chains) && hash in tokens
    ensures HasChild(tokens, hash) <==> hash != Leaf(chains[tokens[hash].familyId])
  {
    var chain := chains[tokens[hash].familyId];
    var i :| 0 <= i < |chain| && chain[i] == hash;
    if i < |chain| - 1 {
      assert tokens[chain[i + 1]].rotatedFromHash == Some(hash);
    }
    if HasChild(tokens, hash) {
      var k :| k in tokens && tokens[k].rotatedFromHash == Some(hash);
      ChildFollowsParent(tokens, chains, k, hash);
    }
  }

  /** The child of a token is the next one in the same chain. */
  lemma ChildFollowsParent(tokens: Tokens, chains: Chains, child: string, parent: string)
    requires Chained(tokens, chains) && child in tokens && tokens[child].rotatedFromHash == Some(parent)
    ensures parent in tokens && tokens[parent].familyId == tokens[child].familyId
    ensures var chain := chains[tokens[child].familyId];
            exists i, j :: 0 <= i < j < |chain| && j == i + 1 && chain[j] == child && chain[i] == parent
  {
    var chain := chains[tokens[child].familyId];
    var j :| 0 <= j < |chain| && chain[j] == child;
    var i := j - 1;
    if j > 0 {
      assert chain[i] != chain[j] && Member(tokens, tokens[child].familyId, chain[0], chain[i]);
    }
  }

  /** A chain only depends on the tokens of its own family. */
  lemma OtherFamilyKept(tokens: Tokens, after: Tokens, familyId: string, chain: seq<string>)
    requires IsChain(tokens, familyId, chain)
    requires forall h | h in tokens && tokens[h].familyId == familyId :: h in after && after[h] == tokens[h]
    ensures IsChain(after, familyId, chain)
  {
  }

  ghost predicate SameElsewhere(tokens: Tokens, after: Tokens, familyId: string) {
    forall h | h in tokens && tokens[h].familyId != familyId :: h in after && after[h] == tokens[h]
  }

  /** An operation on one family leaves the chains of the others as they were. */
  lemma OneChainChanges(tokens: Tokens, after: Tokens, chains: Chains, familyId: string,
      chain: seq<string>)
    requires AllChains(tokens, chains) && IsChain(after, familyId, chain)
    requires SameElsewhere(tokens, after, familyId)
    ensures AllChains(after, chains[familyId := chain])
  {
  }

  lemma CreateKeepsChains(tokens: Tokens, chains: Chains, op: Operation)
    requires Chained(tokens, chains) && op.CreateOp? && Fresh(tokens, op)
    ensures Chained(Apply(tokens, op).0, ChainsAfter(tokens, chains, op))
  {
    OneChainChanges(tokens, Apply(tokens, op).0, chains, op.familyId, [op.hash]);
  }

  lemma RevokedChain(tokens: Tokens, familyId: string, now: int, chain: seq<string>)
    requires IsChain(tokens, familyId, chain) && now > 0
    ensures IsChain(RevokeFamily(tokens, familyId, now), familyId, chain)
  {
  }

  lemma ReuseKeepsChains(tokens: Tokens, chains: Chains, familyId: string, now: int)
    requires Chained(tokens, chains) && now > 0
    ensures Chained(RevokeFamily(tokens, familyId, now), chains)
  {
    var after := RevokeFamily(tokens, familyId, now);
    forall f | f in chains ensures IsChain(after, f, chains[f]) {
      if f == familyId {
        RevokedChain(tokens, familyId, now, chains[f]);
      } else {
        OtherFamilyKept(tokens, after, f, chains[f]);
      }
    }
  }

  /** Rotating the newest token of a chain makes its successor the newest. */
  lemma ExtendChain(tokens: Tokens, familyId: string, chain: seq<string>, op: Operation)
    requires op.RotateOp? && IsChain(tokens, familyId, chain) && op.newHash !in tokens
    requires Apply(tokens, op).1.Rotated? && op.request.hash == Leaf(chain)
    ensures IsChain(Apply(tokens, op).0, familyId, chain + [op.newHash])
  {
    var after := Apply(tokens, op).0;
    var longer := chain + [op.newHash];
    forall i | 0 <= i < |longer| ensures Member(after, familyId, longer[0], longer[i]) {
      assert Member(tokens, familyId, chain[0], chain[0]);
      assert i < |chain| ==> Member(tokens, familyId, chain[0], chain[i]);
      assert Member(tokens, familyId, chain[0], op.request.hash);
    }
    forall i, j | 0 <= i < j < |longer|
      ensures longer[i] != longer[j] && (j == i + 1 ==> after[longer[j]].rotatedFromHash == Some(longer[i]))
    {
      assert Member(tokens, familyId, chain[0], chain[i]);
      if j < |chain| {
        assert chain[i] != chain[j];
      }
    }
    forall i | 0 <= i < |longer| ensures after[longer[i]].lastUsedAt.Some? <==> i < |longer| - 1 {
      if i < |chain| - 1 {
        assert chain[i] != Leaf(chain);
      }
    }
  }

  lemma RotationKeepsCover(tokens: Tokens, chains: Chains, op: Operation)
    requires Covered(tokens, chains) && op.RotateOp? && Fresh(tokens, op) && Apply(tokens, op).1.Rotated?
    ensures Covered(Apply(tokens, op).0, ChainsAfter(tokens, chains, op))
  {
  }

  lemma RotationElsewhere(tokens: Tokens, op: Operation)
    requires op.RotateOp? && Fresh(tokens, op) && Apply(tokens, op).1.Rotated?
    ensures SameElsewhere(tokens, Apply(tokens, op).0, tokens[op.request.hash].familyId)
  {
  }

  lemma RotationKeepsAll(tokens: Tokens, chains: Chains, op: Operation, familyId: string)
    requires AllChains(tokens, chains) && op.RotateOp? && Fresh(tokens, op) && Apply(tokens, op).1.Rotated?
    requires familyId == tokens[op.request.hash].familyId && familyId in chains
        && op.request.hash == Leaf(chains[familyId])
    ensures AllChains(Apply(tokens, op).0, chains[familyId := chains[familyId] + [op.newHash]])
  {
    ExtendChain(tokens, familyId, chains[familyId], op);
    RotationElsewhere(tokens, op);
    OneChainChanges(tokens, Apply(tokens, op).0, chains, familyId, chains[familyId] + [op.newHash]);
  }

  lemma RotationKeepsChains(tokens: Tokens, chains: Chains, op: Operation)
    requires Chained(tokens, chains) && op.RotateOp? && Fresh(tokens, op) && Apply(tokens, op).1.Rotated?
    ensures Chained(Apply(tokens, op).0, ChainsAfter(tokens, chains, op))
  {
    RotationKeepsCover(tokens, chains, op);
    ChildlessIsLeaf(tokens, chains, op.request.hash);
    RotationKeepsAll(tokens, chains, op, tokens[op.request.hash].familyId);
  }

  lemma ReuseRevokes(tokens: Tokens, chains: Chains, op: Operation)
    requires Apply(tokens, op).1.Reused?
    ensures op.RotateOp? && op.request.hash in tokens
    ensures Apply(tokens, op).0 == RevokeFamily(tokens, tokens[op.request.hash].familyId, op.now)
    ensures ChainsAfter(tokens, chains, op) == chains
  {
  }

  lemma ReusedKeepsChains(tokens: Tokens, chains: Chains, after: Tokens, familyId: string, now: int)
    requires Chained(tokens, chains) && now > 0 && after == RevokeFamily(tokens, familyId, now)
    ensures Chained(after, chains)
  {
    ReuseKeepsChains(tokens, chains, familyId, now);
  }

  /** Every operation keeps the store a set of chains. */
  lemma StepKeepsChains(tokens: Tokens, chains: Chains, op: Operation)
    requires Chained(tokens, chains) && Fresh(tokens, op)
    ensures Chained(Apply(tokens, op).0, ChainsAfter(tokens, chains, op))
  {
    match Apply(tokens, op).1 {
      case Created => CreateKeepsChains(tokens, chains, op);
      case Rotated(_) => RotationKeepsChains(tokens, chains, op);
      case Reused =>
        ReuseRevokes(tokens, chains, op);
        ReusedKeepsChains(tokens, chains, Apply(tokens, op).0, tokens[op.request.hash].familyId, op.now);
      case Rejected =>
    }
  }
}
