// What each ledger operation does to the two maps, as functions of the old state.

module LedgerSpec {
  import opened Common
  import opened Timing
  import opened Protocol

  const MAX_LEDGER_ENTRIES: nat := 4_096
  const MAX_LEDGER_ENTRIES_PER_CLIENT: nat := 256

  datatype OperationKey = OperationKey(clientKey: nat, operationId: nat)

  /** The part of a wake request that a repetition has to reproduce. */
  datatype WakeRequest = WakeRequest(digest: Text, catalogVersion: nat, hostIds: seq<Text>, bootNonce: nat)

  datatype WakeMeta = WakeMeta(
    catalogVersion: nat, hostIds: seq<Text>, bootNonce: nat,
    ticket: nat, ticketExpires: int, ticketUsed: bool, attempt: nat)

  datatype Entry = Entry(
    digest: Text, wake: Option<WakeMeta>, response: Option<ServerEnvelope>, pending: bool, expires: int)

  datatype State = State(entries: map<OperationKey, Entry>, tickets: map<nat, OperationKey>)

  datatype BeginResult = New | Cached(response: ServerEnvelope) | Busy | Conflict

  datatype WakeBeginResult =
    | WakeNew(ticket: nat)
    | WakeCached(receipt: ServerEnvelope)
    | WakeBusy
    | WakeConflict
    | WakeReplay

  predicate OwnsOpenLease(entry: Entry, ticket: nat, now: int) {
    entry.wake.Some? && entry.wake.value.ticket == ticket && entry.wake.value.ticketExpires > now
  }

  function Prune(s: State, now: int): State {
    var live := map k | k in s.entries && s.entries[k].expires > now :: s.entries[k];
    State(live,
          map t | t in s.tickets && s.tickets[t] in live && OwnsOpenLease(live[s.tickets[t]], t, now)
            :: s.tickets[t])
  }

  function ClientKeys(entries: map<OperationKey, Entry>, client: nat): set<OperationKey> {
    set k | k in entries && k.clientKey == client
  }

  predicate HasCapacity(s: State, client: nat) {
    && |s.entries| < MAX_LEDGER_ENTRIES
    && |ClientKeys(s.entries, client)| < MAX_LEDGER_ENTRIES_PER_CLIENT
  }

  function BeginRequest(s: State, key: OperationKey, digest: Text, now: int): (State, BeginResult) {
    var p := Prune(s, now);
    if key in p.entries then
      var entry := p.entries[key];
      (p, if entry.digest != digest then Conflict
          else if entry.pending || entry.response.None? then Busy
          else Cached(entry.response.value))
    else if !HasCapacity(p, key.clientKey) then (p, Busy)
    else (p.(entries := p.entries[key := Entry(digest, None, None, true, now + PENDING_LEDGER_TTL)]), New)
  }

  /** `renew_cached_wake`: the entry and the receipt after a renewal, or None when the answer must be Replay.
      `wall` is the wall clock, which only reaches the observation deadline of the receipt. */
  function Renewed(entry: Entry, now: int, wall: nat): Option<(Entry, ServerEnvelope)> {
    if entry.expires < now + RETRY_TTL || entry.wake.None? || entry.response.None? then None
    else if !entry.response.value.event.CommandExecuted? then Some((entry, entry.response.value))
    else
      var response := entry.response.value;
      Some((entry.(wake := Some(entry.wake.value.(ticketExpires := now + RETRY_TTL))),
            response.(event := response.event.(deadlineMs := SaturatingAdd(wall, MONITOR_TIMEOUT)))))
  }

  function FirstReservation(request: WakeRequest, ticket: nat, now: int): Entry {
    Entry(request.digest,
          Some(WakeMeta(request.catalogVersion, request.hostIds, request.bootNonce, ticket, now + RETRY_TTL, false, 1)),
          None, true, now + PENDING_LEDGER_TTL)
  }

  /** `draw` is the random ticket drawn if the request is new. */
  function BeginWake1(s: State, key: OperationKey, request: WakeRequest, draw: nat, now: int, wall: nat)
    : (State, WakeBeginResult)
  {
    var p := Prune(s, now);
    if key in p.entries then
      var entry := p.entries[key];
      if entry.digest != request.digest then (p, WakeConflict)
      else if entry.pending then (p, WakeBusy)
      else if entry.wake.Some? && entry.wake.value.attempt != 1 then (p, WakeReplay)
      else
        match Renewed(entry, now, wall)
        case None => (p, WakeReplay)
        case Some((renewed, receipt)) =>
          (State(p.entries[key := renewed], p.tickets[renewed.wake.value.ticket := key]), WakeCached(receipt))
    else if !HasCapacity(p, key.clientKey) then (p, WakeBusy)
    else
      (State(p.entries[key := FirstReservation(request, draw, now)], p.tickets[draw := key]), WakeNew(draw))
  }

  predicate Redeemable(wake: WakeMeta, request: WakeRequest, ticket: nat, now: int) {
    && wake.catalogVersion == request.catalogVersion
    && wake.hostIds == request.hostIds
    && wake.bootNonce == request.bootNonce
    && wake.attempt == 1
    && wake.ticket == ticket
    && !wake.ticketUsed
    && wake.ticketExpires > now
  }

  function SecondReservation(entry: Entry, now: int): Entry
    requires entry.wake.Some?
  {
    entry.(wake := Some(entry.wake.value.(ticketUsed := true, attempt := 2)),
           pending := true, response := None, expires := now + PENDING_LEDGER_TTL)
  }

  function BeginWake2(s: State, key: OperationKey, request: WakeRequest, ticket: nat, now: int, wall: nat)
    : (State, WakeBeginResult)
  {
    var p := Prune(s, now);
    if key !in p.entries then (p, WakeReplay)
    else
      var entry := p.entries[key];
      if entry.digest != request.digest then (p, WakeConflict)
      else if entry.pending then (p, WakeBusy)
      else if entry.wake.Some? && entry.wake.value.attempt == 2 && entry.wake.value.ticket == ticket then
        match Renewed(entry, now, wall)
        case None => (p, WakeReplay)
        case Some((renewed, receipt)) => (p.(entries := p.entries[key := renewed]), WakeCached(receipt))
      else if ticket !in p.tickets || p.tickets[ticket] != key then (p, WakeReplay)
      else if entry.wake.None? || !Redeemable(entry.wake.value, request, ticket, now) then (p, WakeReplay)
      else (p.(entries := p.entries[key := SecondReservation(entry, now)]), WakeNew(ticket))
  }

  function Completed(entry: Entry, response: ServerEnvelope, now: int): Entry {
    var wake := if entry.wake.Some? && entry.wake.value.attempt == 1 && !entry.wake.value.ticketUsed
                then Some(entry.wake.value.(ticketExpires := now + RETRY_TTL)) else entry.wake;
    entry.(wake := wake, pending := false, response := Some(response), expires := now + LEDGER_TTL)
  }

  function Complete(s: State, key: OperationKey, response: ServerEnvelope, now: int): State {
    if key in s.entries then s.(entries := s.entries[key := Completed(s.entries[key], response, now)]) else s
  }
}
