/** What every sequence of operations on an empty disk store keeps, when random values never collide
    and the clock reads more than zero. */
module StoreHistory {
  import opened Wrappers
  import opened StoreRecords
  import opened StoreOperations
  import RefreshTokens
  import FamilyHistory

  /** The hash under which a request may put a new refresh token. */
  function NewToken(request: Request): Option<string> {
    match request
    case CreateToken(hash, _, _, _, _) => Some(hash)
    case RotateToken(_, _, newHash) => Some(newHash)
    case _ => None
  }

  function NewFamily(request: Request): Option<string> {
    if request.CreateToken? then Some(request.familyId) else None
  }

  function NewCode(request: Request): Option<string> {
    if request.CreateCode? then Some(request.hash) else None
  }

  /** No random value of one request is a random value of the other. */
  predicate DrawnApart(a: Request, b: Request) {
    && (NewToken(a).Some? ==> NewToken(a) != NewToken(b))
    && (NewFamily(a).Some? ==> NewFamily(a) != NewFamily(b))
    && (NewCode(a).Some? ==> NewCode(a) != NewCode(b))
  }

  /** Rotations and consumptions leave the time they happened, which must not read as missing. */
  predicate Timely(request: Request) {
    (request.ConsumeCode? || request.RotateToken?) ==> request.now > 0
  }

  ghost predicate IsHistory(requests: seq<Request>) {
    && AllCallable(requests)
    && (forall i | 0 <= i < |requests| :: Timely(requests[i]))
    && forall i, j | 0 <= i < j < |requests| :: DrawnApart(requests[i], requests[j])
  }

  function Before(digest: string -> string, requests: seq<Request>, k: nat): StoreState
    requires AllCallable(requests) && k <= |requests|
  {
    Run(digest, EMPTY_STORE, requests[..k])
  }

  function ReplyAt(digest: string -> string, requests: seq<Request>, k: nat): Reply
    requires AllCallable(requests) && k < |requests|
  {
    Perform(digest, Before(digest, requests, k), requests[k]).1
  }

  lemma RunStep(digest: string -> string, requests: seq<Request>, k: nat)
    requires AllCallable(requests) && k < |requests|
    ensures Before(digest, requests, k + 1) == Perform(digest, Before(digest, requests, k), requests[k]).0
  {
    RunOneMore(digest, EMPTY_STORE, requests[..k], requests[k]);
    assert requests[..k + 1] == requests[..k] + [requests[k]];
  }

  // ----- codes -----

  /** Only creation adds a code, and only creation can make a spent one unspent. */
  lemma CodesStep(digest: string -> string, state: StoreState, request: Request, hash: string)
    requires Callable(request)
    ensures var after := Perform(digest, state, request).0;
            && (hash in after.authorizationCodes ==> hash in state.authorizationCodes || NewCode(request) == Some(hash))
            && (Spent(state, hash) && NewCode(request) != Some(hash) ==> Spent(after, hash))
  {
  }

  predicate CodeDrawn(requests: seq<Request>, k: nat, hash: string) {
    exists i | 0 <= i < k && i < |requests| :: NewCode(requests[i]) == Some(hash)
  }

  lemma {:induction false} CodesAreDrawn(digest: string -> string, requests: seq<Request>, k: nat, hash: string)
    requires AllCallable(requests) && k <= |requests| && hash in Before(digest, requests, k).authorizationCodes
    ensures CodeDrawn(requests, k, hash)
  {
    if k > 0 {
      RunStep(digest, requests, k - 1);
      CodesStep(digest, Before(digest, requests, k - 1), requests[k - 1], hash);
      if hash in Before(digest, requests, k - 1).authorizationCodes {
        CodesAreDrawn(digest, requests, k - 1, hash);
      }
    }
  }

  predicate Spent(state: StoreState, hash: string) {
    hash in state.authorizationCodes && IsSet(state.authorizationCodes[hash].consumedAt)
  }

  lemma {:induction false} SpentStaysSpent(digest: string -> string, requests: seq<Request>, k: nat, l: nat,
      hash: string)
    requires IsHistory(requests) && k <= l <= |requests| && Spent(Before(digest, requests, k), hash)
    ensures Spent(Before(digest, requests, l), hash)
    decreases l
  {
    if k < l {
      SpentStaysSpent(digest, requests, k, l - 1, hash);
      RunStep(digest, requests, l - 1);
      CodesAreDrawn(digest, requests, l - 1, hash);
      CodesStep(digest, Before(digest, requests, l - 1), requests[l - 1], hash);
    }
  }

  ghost predicate ConsumesAt(digest: string -> string, requests: seq<Request>, k: nat, hash: string)
    requires AllCallable(requests)
  {
    k < |requests| && requests[k].ConsumeCode? && requests[k].hash == hash && ReplyAt(digest, requests, k).Code?
  }

  lemma ConsumptionSpends(digest: string -> string, requests: seq<Request>, k: nat, hash: string)
    requires IsHistory(requests) && ConsumesAt(digest, requests, k, hash)
    ensures !Spent(Before(digest, requests, k), hash) && Spent(Before(digest, requests, k + 1), hash)
  {
    RunStep(digest, requests, k);
    assert Timely(requests[k]);
  }

  /** No authorization code is consumed twice. */
  lemma CodeConsumedAtMostOnce(digest: string -> string, requests: seq<Request>, k: nat, l: nat, hash: string)
    requires IsHistory(requests) && ConsumesAt(digest, requests, k, hash) && ConsumesAt(digest, requests, l, hash)
    ensures k == l
  {
    var first, second := if k <= l then k else l, if k <= l then l else k;
    if first < second {
      ConsumptionSpends(digest, requests, first, hash);
      ConsumptionSpends(digest, requests, second, hash);
      SpentStaysSpent(digest, requests, first + 1, second, hash);
    }
  }

  // ----- refresh tokens -----

  function TokenOp(request: Request): seq<RefreshTokens.Operation> {
    if request.CreateToken? then
      [RefreshTokens.CreateOp(request.hash, request.familyId, request.grant, request.ttlSeconds, request.createdAt)]
    else if request.RotateToken? then [RefreshTokens.RotateOp(request.rotation, request.now, request.newHash)]
    else []
  }

  /** The operations of the first `k` requests on refresh tokens. */
  function TokenOps(requests: seq<Request>, k: nat): seq<RefreshTokens.Operation>
    requires k <= |requests|
  {
    if k == 0 then [] else TokenOps(requests, k - 1) + TokenOp(requests[k - 1])
  }

  lemma LastTokenOp(requests: seq<Request>, k: nat)
    requires 0 < k <= |requests|
    ensures var ops, before := TokenOps(requests, k), TokenOps(requests, k - 1);
            if TokenOp(requests[k - 1]) == [] then ops == before
            else |ops| == |before| + 1 && ops[..|before|] == before && ops[|before|] == TokenOp(requests[k - 1])[0]
  {
  }

  function TokensAfter(tokens: RefreshTokens.Tokens, request: Request): RefreshTokens.Tokens {
    if TokenOp(request) == [] then tokens else RefreshTokens.Apply(tokens, TokenOp(request)[0]).0
  }

  lemma TokensStep(digest: string -> string, state: StoreState, request: Request)
    requires Callable(request)
    ensures Perform(digest, state, request).0.refreshTokens == TokensAfter(state.refreshTokens, request)
  {
  }

  lemma TokensRunStep(digest: string -> string, requests: seq<Request>, k: nat)
    requires AllCallable(requests) && k < |requests|
    ensures Before(digest, requests, k + 1).refreshTokens ==
            TokensAfter(Before(digest, requests, k).refreshTokens, requests[k])
  {
    RunStep(digest, requests, k);
    TokensStep(digest, Before(digest, requests, k), requests[k]);
  }

  lemma ReplayStep(requests: seq<Request>, k: nat)
    requires k < |requests|
    ensures RefreshTokens.Replay(map[], TokenOps(requests, k + 1)) ==
            TokensAfter(RefreshTokens.Replay(map[], TokenOps(requests, k)), requests[k])
  {
    LastTokenOp(requests, k + 1);
    var ops := TokenOps(requests, k + 1);
    if TokenOp(requests[k]) != [] {
      assert ops[..|ops| - 1] == TokenOps(requests, k);
    }
  }

  lemma NothingReplayed(requests: seq<Request>)
    ensures RefreshTokens.Replay(map[], TokenOps(requests, 0)) == map[]
  {
  }

  /** The refresh tokens in the store before each request and after the last one. */
  function StoredTables(digest: string -> string, requests: seq<Request>): (tables: seq<RefreshTokens.Tokens>)
    requires AllCallable(requests)
    ensures |tables| == |requests| + 1
  {
    seq(|requests| + 1, i requires 0 <= i <= |requests| => Before(digest, requests, i).refreshTokens)
  }

  /** The same, by the token operations alone. */
  function ReplayedTables(requests: seq<Request>): (tables: seq<RefreshTokens.Tokens>)
    ensures |tables| == |requests| + 1
  {
    seq(|requests| + 1, i requires 0 <= i <= |requests| => RefreshTokens.Replay(map[], TokenOps(requests, i)))
  }

  lemma StoredTablesStep(digest: string -> string, requests: seq<Request>, i: nat)
    requires AllCallable(requests) && i < |requests|
    ensures StoredTables(digest, requests)[i + 1] == TokensAfter(StoredTables(digest, requests)[i], requests[i])
  {
    TokensRunStep(digest, requests, i);
  }

  /** Stated for any type, so that no table has to be looked into. */
  lemma StepCarriesOver<T>(before: T, after: T, x: T, y: T, step: T -> T)
    requires x == before && y == after && after == step(before)
    ensures y == step(x)
  {
  }

  lemma ReplayedTablesStep(requests: seq<Request>, i: nat)
    requires i < |requests|
    ensures ReplayedTables(requests)[i + 1] == TokensAfter(ReplayedTables(requests)[i], requests[i])
  {
    ReplayStep(requests, i);
    StepCarriesOver(RefreshTokens.Replay(map[], TokenOps(requests, i)),
        RefreshTokens.Replay(map[], TokenOps(requests, i + 1)),
        ReplayedTables(requests)[i], ReplayedTables(requests)[i + 1], tokens => TokensAfter(tokens, requests[i]));
  }

  ghost predicate StepByStep(tables: seq<RefreshTokens.Tokens>, requests: seq<Request>) {
    && |tables| == |requests| + 1 && tables[0] == map[]
    && forall i | 0 <= i < |requests| :: tables[i + 1] == TokensAfter(tables[i], requests[i])
  }

  lemma TablesStepByStep(digest: string -> string, requests: seq<Request>)
    requires AllCallable(requests)
    ensures StepByStep(StoredTables(digest, requests), requests) && StepByStep(ReplayedTables(requests), requests)
  {
    NothingReplayed(requests);
    forall i | 0 <= i < |requests|
      ensures StoredTables(digest, requests)[i + 1] == TokensAfter(StoredTables(digest, requests)[i], requests[i])
      ensures ReplayedTables(requests)[i + 1] == TokensAfter(ReplayedTables(requests)[i], requests[i])
    {
      StoredTablesStep(digest, requests, i);
      ReplayedTablesStep(requests, i);
    }
  }

  /** Tables that start empty and take the same steps stay equal. */
  lemma {:induction false} SameTables(a: seq<RefreshTokens.Tokens>, b: seq<RefreshTokens.Tokens>,
      requests: seq<Request>, k: nat)
    requires StepByStep(a, requests) && StepByStep(b, requests) && k <= |requests|
    ensures a[k] == b[k]
  {
    if k > 0 {
      SameTables(a, b, requests, k - 1);
      assert a[k - 1 + 1] == TokensAfter(a[k - 1], requests[k - 1]);
      assert b[k - 1 + 1] == TokensAfter(b[k - 1], requests[k - 1]);
    }
  }

  /** The refresh tokens are those of the token operations alone. */
  lemma TokensFollow(digest: string -> string, requests: seq<Request>, k: nat)
    requires AllCallable(requests) && k <= |requests|
    ensures Before(digest, requests, k).refreshTokens == RefreshTokens.Replay(map[], TokenOps(requests, k))
  {
    TablesStepByStep(digest, requests);
    SameTables(StoredTables(digest, requests), ReplayedTables(requests), requests, k);
  }

  predicate TokenDrawn(requests: seq<Request>, k: nat, hash: string) {
    exists i | 0 <= i < k && i < |requests| :: NewToken(requests[i]) == Some(hash)
  }

  predicate FamilyDrawn(requests: seq<Request>, k: nat, familyId: string) {
    exists i | 0 <= i < k && i < |requests| :: NewFamily(requests[i]) == Some(familyId)
  }

  /** An operation adds at most the token it drew, in the family it drew or in an existing one. */
  lemma OneTokenAdded(tokens: RefreshTokens.Tokens, request: Request, hash: string)
    requires TokenOp(request) != [] && hash in RefreshTokens.Apply(tokens, TokenOp(request)[0]).0
    ensures hash in tokens || NewToken(request) == Some(hash)
    ensures var after := RefreshTokens.Apply(tokens, TokenOp(request)[0]).0;
            || NewFamily(request) == Some(after[hash].familyId)
            || exists h | h in tokens :: tokens[h].familyId == after[hash].familyId
  {
    if request.RotateToken? && request.rotation.hash in tokens {
      assert tokens[request.rotation.hash].familyId == tokens[request.rotation.hash].familyId;
    }
  }

  lemma {:induction false} TokensAreDrawn(digest: string -> string, requests: seq<Request>, k: nat, hash: string)
    requires AllCallable(requests) && k <= |requests| && hash in Before(digest, requests, k).refreshTokens
    ensures TokenDrawn(requests, k, hash)
    ensures FamilyDrawn(requests, k, Before(digest, requests, k).refreshTokens[hash].familyId)
  {
    if k > 0 {
      TokensRunStep(digest, requests, k - 1);
      var tokens, request := Before(digest, requests, k - 1).refreshTokens, requests[k - 1];
      forall h | h in tokens
        ensures TokenDrawn(requests, k, h) && FamilyDrawn(requests, k, tokens[h].familyId)
      {
        TokensAreDrawn(digest, requests, k - 1, h);
      }
      if TokenOp(request) != [] {
        OneTokenAdded(tokens, request, hash);
      }
    }
  }

  /** Distinct random values are fresh when they are used. */
  lemma DrawnIsFresh(digest: string -> string, requests: seq<Request>, k: nat)
    requires IsHistory(requests) && k < |requests| && TokenOp(requests[k]) != []
    ensures RefreshTokens.Fresh(Before(digest, requests, k).refreshTokens, TokenOp(requests[k])[0])
  {
    assert Timely(requests[k]);
    forall h | h in Before(digest, requests, k).refreshTokens
      ensures NewToken(requests[k]) != Some(h)
      ensures NewFamily(requests[k]) != Some(Before(digest, requests, k).refreshTokens[h].familyId)
    {
      TokensAreDrawn(digest, requests, k, h);
    }
  }

  lemma FreshRunExtends(ops: seq<RefreshTokens.Operation>, longer: seq<RefreshTokens.Operation>)
    requires RefreshTokens.FreshRun(ops) && |longer| == |ops| + 1 && longer[..|ops|] == ops
    requires RefreshTokens.Fresh(RefreshTokens.Replay(map[], ops), longer[|ops|])
    ensures RefreshTokens.FreshRun(longer)
  {
    forall i | 0 <= i < |longer| ensures RefreshTokens.Fresh(RefreshTokens.Replay(map[], longer[..i]), longer[i]) {
      if i < |ops| {
        assert longer[..i] == ops[..i] && longer[i] == ops[i];
      }
    }
  }

  lemma {:induction false} TokenOpsAreFresh(digest: string -> string, requests: seq<Request>, k: nat)
    requires IsHistory(requests) && k <= |requests|
    ensures RefreshTokens.FreshRun(TokenOps(requests, k))
  {
    if k > 0 {
      TokenOpsAreFresh(digest, requests, k - 1);
      LastTokenOp(requests, k);
      if TokenOp(requests[k - 1]) != [] {
        DrawnIsFresh(digest, requests, k - 1);
        TokensFollow(digest, requests, k - 1);
        FreshRunExtends(TokenOps(requests, k - 1), TokenOps(requests, k));
      }
    }
  }

  lemma {:induction false} TokenOpsGrow(requests: seq<Request>, k: nat, l: nat)
    requires k <= l <= |requests|
    ensures TokenOps(requests, k) <= TokenOps(requests, l)
    decreases l
  {
    if k < l {
      TokenOpsGrow(requests, k, l - 1);
    }
  }

  lemma PrefixOfPrefix<T>(a: seq<T>, b: seq<T>, n: nat)
    requires a <= b && n < |a|
    ensures b[n] == a[n] && b[..n] == a[..n]
  {
  }

  /** The place of a request among the token operations. */
  lemma TokenOpAt(digest: string -> string, requests: seq<Request>, k: nat)
    requires IsHistory(requests) && k < |requests| && TokenOp(requests[k]) != []
    ensures var ops, n := TokenOps(requests, |requests|), |TokenOps(requests, k)|;
            && n < |ops| && ops[n] == TokenOp(requests[k])[0]
            && RefreshTokens.Replay(map[], ops[..n]) == Before(digest, requests, k).refreshTokens
  {
    LastTokenOp(requests, k + 1);
    TokenOpsGrow(requests, k + 1, |requests|);
    TokensFollow(digest, requests, k);
    PrefixOfPrefix(TokenOps(requests, k + 1), TokenOps(requests, |requests|), |TokenOps(requests, k)|);
  }

  ghost predicate RotatesAt(digest: string -> string, requests: seq<Request>, k: nat, hash: string)
    requires AllCallable(requests)
  {
    && k < |requests| && requests[k].RotateToken? && requests[k].rotation.hash == hash
    && ReplyAt(digest, requests, k).Token?
  }

  lemma RotatesAmongOps(digest: string -> string, requests: seq<Request>, k: nat, hash: string)
    requires IsHistory(requests) && RotatesAt(digest, requests, k, hash)
    ensures var ops, n := TokenOps(requests, |requests|), |TokenOps(requests, k)|;
            && n < |ops| && ops[n].RotateOp? && ops[n].request.hash == hash && RefreshTokens.OutcomeAt(ops, n).Rotated?
            && RefreshTokens.Replay(map[], ops[..n]) == Before(digest, requests, k).refreshTokens
  {
    TokenOpAt(digest, requests, k);
  }

  lemma LaterAmongOps(requests: seq<Request>, k: nat, l: nat)
    requires k < l <= |requests| && TokenOp(requests[k]) != []
    ensures |TokenOps(requests, k)| < |TokenOps(requests, l)|
  {
    TokenOpsGrow(requests, k + 1, l);
  }

  /** No refresh token is rotated twice. */
  lemma TokenRotatedAtMostOnce(digest: string -> string, requests: seq<Request>, k: nat, l: nat, hash: string)
    requires IsHistory(requests) && RotatesAt(digest, requests, k, hash) && RotatesAt(digest, requests, l, hash)
    ensures k == l
  {
    TokenOpsAreFresh(digest, requests, |requests|);
    RotatesAmongOps(digest, requests, k, hash);
    RotatesAmongOps(digest, requests, l, hash);
    FamilyHistory.TokenRotatesAtMostOnce(TokenOps(requests, |requests|), |TokenOps(requests, k)|,
        |TokenOps(requests, l)|);
    if k < l {
      LaterAmongOps(requests, k, l);
    } else if l < k {
      LaterAmongOps(requests, l, k);
    }
  }

  /** After the reuse of a token no token of its family is rotated. */
  lemma ReuseEndsFamily(digest: string -> string, requests: seq<Request>, k: nat, l: nat, hash: string)
    requires IsHistory(requests) && k < l && RotatesAt(digest, requests, l, hash)
    requires IsReuse(Before(digest, requests, k), requests[k])
    ensures Before(digest, requests, l).refreshTokens[hash].familyId !=
            Before(digest, requests, k).refreshTokens[requests[k].rotation.hash].familyId
  {
    TokenOpsAreFresh(digest, requests, |requests|);
    RotatesAmongOps(digest, requests, l, hash);
    TokenOpAt(digest, requests, k);
    LaterAmongOps(requests, k, l);
    FamilyHistory.ReplayEndsFamily(TokenOps(requests, |requests|), |TokenOps(requests, k)|, |TokenOps(requests, l)|);
  }
}
