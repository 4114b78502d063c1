// The server's handling of one wake request around the ledger: authorization, cooldown, dispatch, receipt.

module WakeServer {
  import opened Common
  import opened Timing
  import opened Protocol
  import opened Ordering
  import opened LedgerSpec
  import opened LedgerObject
  import opened LedgerAnswers

  datatype ErrorCode = BadRequest | Unauthorized

  datatype SendOutcome = Delivered | BadTarget | SenderFailed

  /** A host of the catalog; `config` stands for its addresses. */
  datatype HostEntry = HostEntry(id: Text, config: nat)

  predicate Distinct(ids: seq<Text>) {
    forall i, j :: 0 <= i < j < |ids| ==> ids[i] != ids[j]
  }

  predicate Acceptable(ids: seq<Text>, allowed: set<Text>, catalog: map<Text, HostEntry>) {
    Distinct(ids) && forall id :: id in ids ==> id in allowed && id in catalog
  }

  predicate KeyedById(catalog: map<Text, HostEntry>) {
    forall id :: id in catalog ==> catalog[id].id == id
  }

  function Ids(hosts: seq<HostEntry>): (ids: seq<Text>)
    ensures |ids| == |hosts| && forall k :: 0 <= k < |ids| ==> ids[k] == hosts[k].id
  {
    seq(|hosts|, k requires 0 <= k < |hosts| => hosts[k].id)
  }

  /** `authorized_hosts`: the request names at most eight different hosts that the client may wake and that the
      catalog knows; otherwise the first offending host decides the error. */
  method AuthorizedHosts(ids: seq<Text>, allowed: set<Text>, catalog: map<Text, HostEntry>)
    returns (error: Option<ErrorCode>, hosts: seq<HostEntry>)
    requires KeyedById(catalog)
    ensures error == None <==>
            && 0 < |ids| <= 8
            && (forall i, j :: 0 <= i < j < |ids| ==> ids[i] != ids[j])
            && (forall id :: id in ids ==> id in allowed && id in catalog)
    ensures error == None ==> Ids(hosts) == ids && forall h :: h in hosts ==> h.id in catalog && catalog[h.id] == h
    ensures ids == [] || |ids| > 8 ==> error == Some(BadRequest)
    ensures error == Some(Unauthorized) ==>
              exists k :: 0 <= k < |ids| && Acceptable(ids[..k], allowed, catalog) &&
                          (ids[k] in ids[..k] || ids[k] !in allowed)
    ensures error == Some(BadRequest) && 0 < |ids| <= MAX_WAKE_TARGETS ==>
              exists k :: 0 <= k < |ids| && Acceptable(ids[..k], allowed, catalog) &&
                          ids[k] !in ids[..k] && ids[k] in allowed && ids[k] !in catalog
  {
    hosts := [];
    if ids == [] || |ids| > MAX_WAKE_TARGETS {
      return Some(BadRequest), [];
    }
    var seen: set<Text> := {};
    for k := 0 to |ids|
      invariant seen == Elements(ids[..k])
      invariant Acceptable(ids[..k], allowed, catalog)
      invariant |hosts| == k && forall i :: 0 <= i < k ==> ids[i] in catalog && hosts[i] == catalog[ids[i]]
    {
      if ids[k] in seen || ids[k] !in allowed {
        return Some(Unauthorized), [];
      }
      if ids[k] !in catalog {
        return Some(BadRequest), [];
      }
      assert ids[..k + 1] == ids[..k] + [ids[k]];
      seen := seen + {ids[k]};
      hosts := hosts + [catalog[ids[k]]];
    }
    assert ids[..|ids|] == ids;
    return None, hosts;
  }

  // ----- Dispatch -----

  /** The live access policy: what may change while a dispatch is under way. */
  datatype Policy = Policy(
    stopping: bool, sourceHealthy: bool, hosts: map<Text, HostEntry>, access: map<nat, set<Text>>)

  /** The server runs, its policy source is healthy, the host is unchanged and the client may still wake it. */
  predicate Permits(policy: Policy, client: nat, host: HostEntry) {
    && !policy.stopping && policy.sourceHealthy
    && host.id in policy.hosts && policy.hosts[host.id] == host
    && client in policy.access && host.id in policy.access[client]
  }

  function ResultOf(host: Text, outcome: SendOutcome): WakeResult {
    match outcome
    case Delivered => WakeResult(host, true, None)
    case BadTarget => WakeResult(host, false, Some(InvalidTarget))
    case SenderFailed => WakeResult(host, false, Some(SenderUnavailable))
  }

  function Results(ids: seq<Text>, outcomes: seq<SendOutcome>): seq<WakeResult>
    requires |outcomes| == |ids|
  {
    seq(|ids|, k requires 0 <= k < |ids| => ResultOf(ids[k], outcomes[k]))
  }

  function Refusals(ids: seq<Text>): seq<WakeResult> {
    seq(|ids|, k requires 0 <= k < |ids| => WakeResult(ids[k], false, Some(RateLimited)))
  }

  /** The dispatch loop. `policies` are the policies that it finds when each host's turn comes, `calls` the hosts
      for which the wake sender ran. A policy change cancels the rest and leaves the reservation to expire. */
  method Dispatch(client: nat, hosts: seq<HostEntry>, policies: seq<Policy>, outcomes: seq<SendOutcome>)
    returns (results: Option<seq<WakeResult>>, calls: seq<Text>)
    requires |policies| == |outcomes| == |hosts|
    ensures calls <= Ids(hosts)
    ensures results.Some? ==> calls == Ids(hosts) && results.value == Results(Ids(hosts), outcomes)
    // the sender ran for a host only while the server ran, its policy source was healthy, the host was unchanged and
    // the client was still allowed to wake it
    ensures forall k :: 0 <= k < |calls| ==>
              var policy, host := policies[k], hosts[k];
              && !policy.stopping && policy.sourceHealthy && host.id in policy.hosts && policy.hosts[host.id] == host
              && client in policy.access && host.id in policy.access[client]
    // and it stopped early only where one of these failed
    ensures results.None? ==>
              && |calls| < |hosts|
              && var policy, host := policies[|calls|], hosts[|calls|];
                 || policy.stopping || !policy.sourceHealthy
                 || host.id !in policy.hosts || policy.hosts[host.id] != host
                 || client !in policy.access || host.id !in policy.access[client]
    ensures Distinct(Ids(hosts)) ==> forall h :: multiset(calls)[h] <= 1
  {
    hide ResultOf, Distinct;
    var done := [];
    calls := [];
    for k := 0 to |hosts|
      invariant calls == Ids(hosts)[..k] && |done| == k
      invariant forall i :: 0 <= i < k ==> Permits(policies[i], client, hosts[i])
      invariant forall i :: 0 <= i < k ==> done[i] == ResultOf(hosts[i].id, outcomes[i])
    {
      var entry, policy := hosts[k], policies[k];
      if policy.stopping || !policy.sourceHealthy ||
         (entry.id !in policy.hosts || policy.hosts[entry.id] != entry) ||
         (client !in policy.access || entry.id !in policy.access[client])
      {
        results := None;
        PrefixOccursOnce(Ids(hosts), k);
        return;
      }
      calls := calls + [entry.id];
      done := done + [ResultOf(entry.id, outcomes[k])];
    }
    results := Some(done);
    PrefixOccursOnce(Ids(hosts), |hosts|);
  }

  lemma {:induction false} DistinctCounts(ids: seq<Text>)
    ensures Distinct(ids) ==> forall h :: multiset(ids)[h] <= 1
  {
    if ids != [] && Distinct(ids) {
      var rest, last := ids[..|ids| - 1], ids[|ids| - 1];
      DistinctCounts(rest);
      assert ids == rest + [last];
      assert last !in rest;
    }
  }

  lemma PrefixOccursOnce(ids: seq<Text>, k: nat)
    requires k <= |ids|
    ensures Distinct(ids) ==> forall h :: multiset(ids[..k])[h] <= 1
  {
    DistinctCounts(ids[..k]);
  }

  /** The receipt of a dispatch, or of a dispatch refused by the cooldown. */
  function ReceiptEvent(operationId: nat, attempt: nat, ticket: nat, wall: nat, results: seq<WakeResult>): ServerEvent {
    CommandExecuted(operationId, attempt, ticket, SaturatingAdd(wall, MONITOR_TIMEOUT), results)
  }

  /** The results that the server can put into the receipt for a request of `ids`: those of a completed dispatch,
      in the order of the request, or the refusals of the cooldown, in sorted order. */
  ghost predicate BuiltFor(results: seq<WakeResult>, ids: seq<Text>) {
    || results == Refusals(Sorted(ids, Itself))
    || exists outcomes :: |outcomes| == |ids| && results == Results(ids, outcomes)
  }

  /** Every receipt names exactly the requested hosts, whether they were dispatched or refused. */
  lemma ReceiptNamesTheHosts(results: seq<WakeResult>, ids: seq<Text>)
    requires BuiltFor(results, ids)
    ensures HostsOf(results) == Elements(ids)
  {
    if results == Refusals(Sorted(ids, Itself)) {
      SortedIsAnAscendingPermutation(ids, Itself);
      ResultsNameTheirHosts(results, Sorted(ids, Itself));
      forall id
        ensures id in Elements(ids) <==> id in Elements(Sorted(ids, Itself))
      {
        SameElements(ids, Sorted(ids, Itself), id);
      }
    } else {
      ResultsNameTheirHosts(results, ids);
    }
  }

  lemma ResultsNameTheirHosts(results: seq<WakeResult>, ids: seq<Text>)
    requires |results| == |ids| && forall k :: 0 <= k < |ids| ==> results[k].hostId == ids[k]
    ensures HostsOf(results) == Elements(ids)
  {
    forall id
      ensures id in HostsOf(results) <==> id in Elements(ids)
    {
      if id in Elements(ids) {
        var k :| 0 <= k < |ids| && ids[k] == id;
        assert results[k] in results;
      }
    }
  }

  /** A result says that its host was woken exactly if the sender delivered, and otherwise what went wrong. */
  lemma ResultsTellTheOutcomes(ids: seq<Text>, outcomes: seq<SendOutcome>, k: nat)
    requires |outcomes| == |ids| && k < |ids|
    ensures var result := Results(ids, outcomes)[k];
            && result.hostId == ids[k]
            && (result.accepted <==> outcomes[k] == Delivered)
            && (result.errorCode == None <==> outcomes[k] == Delivered)
            && (result.errorCode == Some(InvalidTarget) <==> outcomes[k] == BadTarget)
            && (result.errorCode == Some(SenderUnavailable) <==> outcomes[k] == SenderFailed)
  {
  }

  /** The accepted hosts of a receipt are those that the sender delivered to. */
  lemma AcceptedHostsWereWoken(ids: seq<Text>, outcomes: seq<SendOutcome>, id: Text)
    requires |outcomes| == |ids|
    ensures id in AcceptedOf(Results(ids, outcomes)) <==>
            exists k :: 0 <= k < |ids| && ids[k] == id && outcomes[k] == Delivered
  {
    var results := Results(ids, outcomes);
    if id in AcceptedOf(results) {
      var result :| result in results && result.accepted && result.hostId == id;
      var k :| 0 <= k < |results| && results[k] == result;
      ResultsTellTheOutcomes(ids, outcomes, k);
    }
    if k :| 0 <= k < |ids| && ids[k] == id && outcomes[k] == Delivered {
      ResultsTellTheOutcomes(ids, outcomes, k);
      assert results[k] in results;
    }
  }

  /** A refusal by the cooldown accepts nobody. */
  lemma RefusalsAcceptNobody(ids: seq<Text>)
    ensures AcceptedOf(Refusals(ids)) == {}
    ensures forall result :: result in Refusals(ids) ==> result.errorCode == Some(RateLimited)
  {
  }

  /** Which ledger operation a wake request starts; a ticket on attempt 1, or none on attempt 2, is a Replay. */
  function Begun(s: State, key: OperationKey, request: WakeRequest, attempt: nat, retryTicket: Option<nat>,
                 draw: nat, now: int, wall: nat): (State, WakeBeginResult)
  {
    if (attempt == 1) == retryTicket.Some? then (s, WakeReplay)
    else if attempt == 1 then BeginWake1(s, key, request, draw, now, wall)
    else BeginWake2(s, key, request, retryTicket.value, now, wall)
  }

  /** A new operation is granted: attempt 1 without a ticket, for an id with no living entry, while there is room. */
  lemma NewOperationIsGranted(s: State, key: OperationKey, request: WakeRequest, draw: nat, now: int, wall: nat)
    requires !Alive(s, key, now) && Room(s, key.clientKey, now)
    ensures var (t, result) := Begun(s, key, request, 1, None, draw, now, wall);
            && result == WakeNew(draw) && key in t.entries && IsFirstReservation(t.entries[key], request, draw, now)
            && draw in t.tickets && t.tickets[draw] == key
  {
    hide Alive, Room;
    NewWakeIsReserved(s, key, request, draw, now, wall);
  }

  method BeginWake(ledger: Ledger, key: OperationKey, request: WakeRequest, attempt: nat, retryTicket: Option<nat>,
                   draw: nat, now: int, wall: nat) returns (result: WakeBeginResult)
    modifies ledger
    ensures (ledger.Model(), result) == Begun(old(ledger.Model()), key, request, attempt, retryTicket, draw, now, wall)
    // a ticket on attempt 1, or none on attempt 2, is a replay and touches nothing
    ensures attempt == 1 && retryTicket.Some? ==> result == WakeReplay && ledger.Model() == old(ledger.Model())
    ensures attempt != 1 && retryTicket.None? ==> result == WakeReplay && ledger.Model() == old(ledger.Model())
    // a new operation is granted while there is room, and reserved
    ensures attempt == 1 && retryTicket.None? && !old(Alive(ledger.Model(), key, now)) &&
            old(Room(ledger.Model(), key.clientKey, now)) ==>
              && result == WakeNew(draw) && key in ledger.entries
              && IsFirstReservation(ledger.entries[key], request, draw, now)
  {
    hide Alive, Room;
    if !Alive(ledger.Model(), key, now) && Room(ledger.Model(), key.clientKey, now) {
      NewOperationIsGranted(ledger.Model(), key, request, draw, now, wall);
    }
    if attempt == 1 {
      if retryTicket.Some? { return WakeReplay; }
      result := ledger.BeginWakeAttempt1(key, request, draw, now, wall);
    } else {
      match retryTicket
      case Some(ticket) => result := ledger.BeginWakeAttempt2(key, request, ticket, now, wall);
      case None => result := WakeReplay;
    }
  }
}

module Cooldowns {
  import opened Common
  import opened Timing

  type Stamps = map<nat, map<Text, int>>

  function Kept(targets: map<Text, int>, now: int): map<Text, int> {
    map h | h in targets && now - targets[h] < WAKE_COOLDOWN :: targets[h]
  }

  function Retained(last: Stamps, now: int): Stamps {
    map c | c in last && Kept(last[c], now) != map[] :: Kept(last[c], now)
  }

  predicate Recent(last: Stamps, client: nat, host: Text, now: int) {
    client in last && host in last[client] && now - last[client][host] < WAKE_COOLDOWN
  }

  function Stamped(targets: map<Text, int>, hosts: seq<Text>, now: int): map<Text, int> {
    map h | h in targets.Keys + (set x | x in hosts) :: if h in hosts then now else targets[h]
  }

  /** `reserve_wake_targets_for_client` */
  function Reserve(last: Stamps, client: nat, hosts: seq<Text>, now: int): (Stamps, bool) {
    var live := Retained(last, now);
    if exists h :: h in hosts && Recent(live, client, h, now) then (live, false)
    else
      var targets := if client in live then live[client] else map[];
      (live[client := Stamped(targets, hosts, now)], true)
  }

  lemma StampNone(targets: map<Text, int>, hosts: seq<Text>, now: int)
    ensures Stamped(targets, hosts[..0], now) == targets
  {
  }

  lemma StampOneMore(targets: map<Text, int>, hosts: seq<Text>, k: nat, now: int)
    requires k < |hosts|
    ensures Stamped(targets, hosts[..k + 1], now) == Stamped(targets, hosts[..k], now)[hosts[k] := now]
  {
    assert hosts[..k + 1] == hosts[..k] + [hosts[k]];
  }

  class WakeCooldowns {
    var lastWake: Stamps

    constructor ()
      ensures lastWake == map[]
    {
      lastWake := map[];
    }

    method ReserveWakeTargets(client: nat, hosts: seq<Text>, now: int) returns (reserved: bool)
      modifies this
      ensures (lastWake, reserved) == Reserve(old(lastWake), client, hosts, now)
    {
      hide Retained, Stamped;
      lastWake := Retained(lastWake, now);
      if exists h :: h in hosts && Recent(lastWake, client, h, now) {
        return false;
      }
      var targets := if client in lastWake then lastWake[client] else map[];
      ghost var before := targets;
      StampNone(before, hosts, now);
      for k := 0 to |hosts|
        invariant lastWake == Retained(old(lastWake), now)
        invariant targets == Stamped(before, hosts[..k], now)
      {
        StampOneMore(before, hosts, k, now);
        targets := targets[hosts[k] := now];
      }
      assert hosts[..|hosts|] == hosts;
      lastWake := lastWake[client := targets];
      return true;
    }
  }

  // ----- Runs -----

  datatype Call = Call(client: nat, hosts: seq<Text>, now: int, before: Stamps, after: Stamps, reserved: bool)

  predicate CallAt(calls: seq<Call>, i: nat)
    requires i < |calls|
  {
    var c := calls[i];
    && c.before == (if i == 0 then map[] else calls[i - 1].after)
    && (c.after, c.reserved) == Reserve(c.before, c.client, c.hosts, c.now)
  }

  ghost predicate Valid(calls: seq<Call>) {
    && (forall i: nat :: i < |calls| ==> CallAt(calls, i))
    && (forall i, j :: 0 <= i < j < |calls| ==> calls[i].now <= calls[j].now)
  }

  /** Call `i` reserved the host for the client less than the cooldown before `now`. */
  predicate ReservedAt(calls: seq<Call>, i: nat, client: nat, host: Text, now: int) {
    && i < |calls| && calls[i].reserved && calls[i].client == client && host in calls[i].hosts
    && now - calls[i].now < 10_000
  }

  lemma ReserveRemembers(c: Call, client: nat, host: Text, now: int)
    requires (c.after, c.reserved) == Reserve(c.before, c.client, c.hosts, c.now) && c.now <= now
    requires Recent(c.before, client, host, now) ==> c.before[client][host] <= c.now
    ensures Recent(c.after, client, host, now) <==>
              || Recent(c.before, client, host, now)
              || (c.reserved && c.client == client && host in c.hosts && now - c.now < WAKE_COOLDOWN)
  {
    if client in c.before && host in c.before[client] && c.now - c.before[client][host] < WAKE_COOLDOWN {
      assert host in Kept(c.before[client], c.now);
    }
  }

  /** The stamps are exactly the reservations of the last ten seconds. */
  lemma {:induction false} StampsAreHistory(calls: seq<Call>, j: nat, client: nat, host: Text, now: int)
    requires Valid(calls) && j < |calls| && calls[j].now <= now
    ensures Recent(calls[j].after, client, host, now) <==>
              exists i: nat :: i <= j && ReservedAt(calls, i, client, host, now)
    ensures client in calls[j].after && host in calls[j].after[client] ==> calls[j].after[client][host] <= calls[j].now
  {
    assert CallAt(calls, j);
    if j == 0 {
    } else {
      StampsAreHistory(calls, j - 1, client, host, now);
    }
    ReserveRemembers(calls[j], client, host, now);
    assert ReservedAt(calls, j, client, host, now) <==>
      calls[j].reserved && calls[j].client == client && host in calls[j].hosts && now - calls[j].now < WAKE_COOLDOWN;
  }

  /** A reservation is refused exactly when an earlier one of the same client, less than ten seconds ago, took one
      of its hosts. So one client's host is dispatched at most once in ten seconds, and clients never block
      each other. */
  lemma RefusedExactlyInCooldown(calls: seq<Call>, j: nat)
    requires Valid(calls) && j < |calls|
    ensures !calls[j].reserved <==>
              exists i: nat, h :: i < j && h in calls[j].hosts && ReservedAt(calls, i, calls[j].client, h, calls[j].now)
  {
    var c := calls[j];
    assert CallAt(calls, j);
    forall h | h in c.hosts
      ensures Recent(Retained(c.before, c.now), c.client, h, c.now) <==>
                exists i: nat :: i < j && ReservedAt(calls, i, c.client, h, c.now)
    {
      if j > 0 { StampsAreHistory(calls, j - 1, c.client, h, c.now); }
      RetainedKeepsRecent(c.before, c.client, h, c.now);
    }
  }

  lemma RetainedKeepsRecent(last: Stamps, client: nat, host: Text, now: int)
    ensures Recent(Retained(last, now), client, host, now) <==> Recent(last, client, host, now)
  {
    if Recent(last, client, host, now) { assert host in Kept(last[client], now); }
  }
}
