// The ledger object: two maps updated in place, each method against its specification function.

module LedgerObject {
  import opened Common
  import opened Timing
  import opened Protocol
  import opened LedgerSpec

  class Ledger {
    var entries: map<OperationKey, Entry>
    var tickets: map<nat, OperationKey>

    ghost function Model(): State
      reads this
    {
      State(entries, tickets)
    }

    constructor ()
      ensures Model() == State(map[], map[])
    {
      entries, tickets := map[], map[];
    }

    method Prune(now: int)
      modifies this
      ensures Model() == LedgerSpec.Prune(old(Model()), now)
    {
      entries := map k | k in entries && entries[k].expires > now :: entries[k];
      tickets := map t | t in tickets && tickets[t] in entries && OwnsOpenLease(entries[tickets[t]], t, now)
                   :: tickets[t];
    }

    method HasCapacityFor(client: nat) returns (capacity: bool)
      ensures capacity == HasCapacity(Model(), client)
    {
      var used := set k | k in entries && k.clientKey == client;
      capacity := |entries| < MAX_LEDGER_ENTRIES && |used| < MAX_LEDGER_ENTRIES_PER_CLIENT;
    }

    method BeginRequest(key: OperationKey, digest: Text, now: int) returns (result: BeginResult)
      modifies this
      ensures (Model(), result) == LedgerSpec.BeginRequest(old(Model()), key, digest, now)
    {
      Prune(now);
      if key in entries {
        var entry := entries[key];
        if entry.digest != digest { return Conflict; }
        if entry.pending { return Busy; }
        if entry.response.Some? { return Cached(entry.response.value); }
        return Busy;
      }
      var capacity := HasCapacityFor(key.clientKey);
      if !capacity { return Busy; }
      entries := entries[key := Entry(digest, None, None, true, now + PENDING_LEDGER_TTL)];
      return New;
    }

    /** Renews the retry lease of `entries[key]` and returns the receipt to send again. */
    method RenewCachedWake(key: OperationKey, now: int, wall: nat) returns (receipt: Option<ServerEnvelope>)
      requires key in entries
      modifies this`entries
      ensures var renewal := Renewed(old(entries[key]), now, wall);
              if renewal.None? then receipt == None && entries == old(entries)
              else receipt == Some(renewal.value.1) && entries == old(entries)[key := renewal.value.0]
    {
      var entry := entries[key];
      if entry.expires < now + RETRY_TTL { return None; }
      if entry.wake.None? || entry.response.None? { return None; }
      var response := entry.response.value;
      if !response.event.CommandExecuted? {
        assert entries[key := entry] == entries;
        return Some(response);
      }
      entries := entries[key := entry.(wake := Some(entry.wake.value.(ticketExpires := now + RETRY_TTL)))];
      return Some(response.(event := response.event.(deadlineMs := SaturatingAdd(wall, MONITOR_TIMEOUT))));
    }

    method BeginWakeAttempt1(key: OperationKey, request: WakeRequest, draw: nat, now: int, wall: nat)
      returns (result: WakeBeginResult)
      modifies this
      ensures (Model(), result) == BeginWake1(old(Model()), key, request, draw, now, wall)
    {
      Prune(now);
      if key in entries {
        var entry := entries[key];
        if entry.digest != request.digest { return WakeConflict; }
        if entry.pending { return WakeBusy; }
        if entry.wake.Some? && entry.wake.value.attempt != 1 { return WakeReplay; }
        var receipt := RenewCachedWake(key, now, wall);
        if receipt.Some? {
          if entries[key].wake.Some? { tickets := tickets[entries[key].wake.value.ticket := key]; }
          return WakeCached(receipt.value);
        }
        return WakeReplay;
      }
      var capacity := HasCapacityFor(key.clientKey);
      if !capacity { return WakeBusy; }
      var wake := WakeMeta(request.catalogVersion, request.hostIds, request.bootNonce,
                           draw, now + RETRY_TTL, false, 1);
      entries := entries[key := Entry(request.digest, Some(wake), None, true, now + PENDING_LEDGER_TTL)];
      tickets := tickets[draw := key];
      return WakeNew(draw);
    }

    method BeginWakeAttempt2(key: OperationKey, request: WakeRequest, ticket: nat, now: int, wall: nat)
      returns (result: WakeBeginResult)
      modifies this
      ensures (Model(), result) == BeginWake2(old(Model()), key, request, ticket, now, wall)
    {
      Prune(now);
      if key !in entries { return WakeReplay; }
      var entry := entries[key];
      if entry.digest != request.digest { return WakeConflict; }
      if entry.pending { return WakeBusy; }
      if entry.wake.Some? && entry.wake.value.attempt == 2 && entry.wake.value.ticket == ticket {
        var receipt := RenewCachedWake(key, now, wall);
        return if receipt.None? then WakeReplay else WakeCached(receipt.value);
      }
      if ticket !in tickets || tickets[ticket] != key { return WakeReplay; }
      if entry.wake.None? { return WakeReplay; }
      var wake := entry.wake.value;
      if wake.catalogVersion != request.catalogVersion || wake.hostIds != request.hostIds
         || wake.bootNonce != request.bootNonce || wake.attempt != 1 || wake.ticket != ticket
         || wake.ticketUsed || wake.ticketExpires <= now
      {
        return WakeReplay;
      }
      wake := wake.(ticketUsed := true, attempt := 2);
      entry := entry.(wake := Some(wake), pending := true, response := None, expires := now + PENDING_LEDGER_TTL);
      entries := entries[key := entry];
      return WakeNew(ticket);
    }

    method Complete(key: OperationKey, response: ServerEnvelope, now: int)
      modifies this`entries
      ensures Model() == LedgerSpec.Complete(old(Model()), key, response, now)
    {
      if key in entries {
        var entry := entries[key];
        if entry.wake.Some? && entry.wake.value.attempt == 1 && !entry.wake.value.ticketUsed {
          entry := entry.(wake := Some(entry.wake.value.(ticketExpires := now + RETRY_TTL)));
        }
        entries := entries[key := entry.(pending := false, response := Some(response), expires := now + LEDGER_TTL)];
      }
    }
  }
}
