/** MCP sessions as atomic steps on one session record: the meaning of the disk store's operations. */
module McpSessions {
  import opened Wrappers
  import opened StoreRecords

  const MAX_REQUEST_IDS := 4096

  predicate SessionLive(record: Option<McpSessionRecord>, now: int) {
    record.Some? && !IsSet(record.value.terminatedAt) && record.value.expiresAt > now
  }

  /** The updated record and whether the session is initialized. */
  function Touch(record: Option<McpSessionRecord>, protocolVersion: Option<string>, markInitialized: bool,
      now: int): Result<(McpSessionRecord, bool), ServiceError> {
    if !SessionLive(record, now) then Err(NotFound)
    else if protocolVersion.Some? && record.value.protocolVersion != protocolVersion.value then Err(BadRequest)
    else
      var seen := record.value.(lastSeenAt := now);
      var touched := if markInitialized && !IsSet(seen.initializedAt) then seen.(initializedAt := Some(now)) else seen;
      Ok((touched, touched.initializedAt.Some?))
  }

  /** The updated record and whether the id was granted. */
  function Reserve(record: Option<McpSessionRecord>, idHash: string,
      now: int): Result<(McpSessionRecord, bool), ServiceError> {
    if !SessionLive(record, now) then Err(NotFound)
    else
      var seen := record.value.(lastSeenAt := now);
      if idHash in seen.requestIdHashes then Ok((seen, false))
      else if |seen.requestIdHashes| >= MAX_REQUEST_IDS then Err(RateLimited)
      else Ok((seen.(requestIdHashes := seen.requestIdHashes + [idHash]), true))
  }

  function Terminate(record: Option<McpSessionRecord>, now: int): Result<McpSessionRecord, ServiceError> {
    if !SessionLive(record, now) then Err(NotFound)
    else Ok(record.value.(terminatedAt := Some(now), lastSeenAt := now))
  }

  // ----- what the operations mean, on the fields of the record -----

  /** A session answers exactly when it is stored, not terminated and unexpired; every operation says
      not found otherwise. */
  lemma AnswersIff(record: Option<McpSessionRecord>, protocolVersion: Option<string>, mark: bool, idHash: string,
      now: int)
    ensures var live :=
              && record.Some? && (record.value.terminatedAt == None || record.value.terminatedAt == Some(0))
              && record.value.expiresAt > now;
            && (Touch(record, protocolVersion, mark, now) == Err(NotFound) <==> !live)
            && (Reserve(record, idHash, now) == Err(NotFound) <==> !live)
            && (Terminate(record, now) == Err(NotFound) <==> !live)
  {
  }

  /** A live session is touched exactly when the protocol version, if given, is its own. The report says
      whether it was or is now initialized. */
  lemma TouchesIff(record: McpSessionRecord, protocolVersion: Option<string>, mark: bool, now: int)
    requires (record.terminatedAt == None || record.terminatedAt == Some(0)) && record.expiresAt > now
    ensures var result := Touch(Some(record), protocolVersion, mark, now);
            && (result.Ok? <==> protocolVersion == None || protocolVersion == Some(record.protocolVersion))
            && (result.Err? ==> result.error == BadRequest)
            && (result.Ok? ==>
                  && (result.value.1 <==> record.initializedAt.Some? || mark)
                  && result.value.0.lastSeenAt == now
                  && result.value.0.initializedAt ==
                     (if mark && (record.initializedAt == None || record.initializedAt == Some(0)) then Some(now)
                      else record.initializedAt)
                  && result.value.0.(lastSeenAt := record.lastSeenAt, initializedAt := record.initializedAt) == record)
  {
  }

  /** A live session with fewer than 4096 request ids grants every new one, reports a known one as a
      repetition, and turns a new one away when it has 4096. */
  lemma ReservesIff(record: McpSessionRecord, idHash: string, now: int)
    requires (record.terminatedAt == None || record.terminatedAt == Some(0)) && record.expiresAt > now
    ensures var result := Reserve(Some(record), idHash, now);
            && (result.Ok? && result.value.1 <==> idHash !in record.requestIdHashes && |record.requestIdHashes| < 4096)
            && (result.Ok? && !result.value.1 <==> idHash in record.requestIdHashes)
            && (result.Err? ==> result.error == RateLimited)
            && (result.Ok? ==>
                  result.value.0 == record.(lastSeenAt := now, requestIdHashes :=
                      if result.value.1 then record.requestIdHashes + [idHash] else record.requestIdHashes))
  {
  }

  /** Reservations one after the other; None when one of them is not granted. */
  function ReserveAll(record: McpSessionRecord, ids: seq<string>, now: int): Option<McpSessionRecord> {
    if ids == [] then Some(record)
    else
      match ReserveAll(record, ids[..|ids| - 1], now)
      case None => None
      case Some(earlier) =>
        match Reserve(Some(earlier), ids[|ids| - 1], now)
        case Ok((after, true)) => Some(after)
        case _ => None
  }

  /** A new session grants any list of distinct ids exactly if there are no more than 4096. */
  lemma {:induction false} NewSessionGrantsIff(record: McpSessionRecord, ids: seq<string>, now: int)
    requires record.requestIdHashes == [] && record.terminatedAt == None && record.expiresAt > now
    requires forall i, j | 0 <= i < j < |ids| :: ids[i] != ids[j]
    ensures var after := ReserveAll(record, ids, now);
            && (after.Some? <==> |ids| <= 4096)
            && (after.Some? ==>
                  && after.value.requestIdHashes == ids && after.value.terminatedAt == None
                  && after.value.expiresAt == record.expiresAt)
    decreases |ids|
  {
    if ids != [] {
      var n := |ids| - 1;
      NewSessionGrantsIff(record, ids[..n], now);
      if n <= 4096 {
        ReservesIff(ReserveAll(record, ids[..n], now).value, ids[n], now);
      }
    }
  }

  /** A live session is terminated, and then answers no more. */
  lemma TerminatesForGood(record: McpSessionRecord, now: int, later: int)
    requires (record.terminatedAt == None || record.terminatedAt == Some(0)) && record.expiresAt > now > 0
    ensures var result := Terminate(Some(record), now);
            && result == Ok(record.(terminatedAt := Some(now), lastSeenAt := now))
            && Terminate(Some(result.value), later) == Err(NotFound)
            && forall id :: Reserve(Some(result.value), id, later) == Err(NotFound)
  {
  }
}
