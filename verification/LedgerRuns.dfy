// Runs of the ledger: any interleaving of its operations under a clock that does not go back.

module LedgerInvariant {
  import opened Common
  import opened Timing
  import opened Protocol
  import opened LedgerSpec

  datatype Op =
    | Request(key: OperationKey, digest: Text)
    | Wake1(key: OperationKey, request: WakeRequest, draw: nat, wall: nat)
    | Wake2(key: OperationKey, request: WakeRequest, ticket: nat, wall: nat)
    | Complete(key: OperationKey, response: ServerEnvelope)
    | Cancel(key: OperationKey)  // a status job that could not be started gives its reservation back

  datatype Step = Step(now: int, op: Op)

  datatype Answer = Answered(result: BeginResult) | Woken(wake: WakeBeginResult) | Done

  function Apply(s: State, step: Step): State {
    match step.op
    case Request(key, digest) => BeginRequest(s, key, digest, step.now).0
    case Wake1(key, request, draw, wall) => BeginWake1(s, key, request, draw, step.now, wall).0
    case Wake2(key, request, ticket, wall) => BeginWake2(s, key, request, ticket, step.now, wall).0
    case Complete(key, response) => LedgerSpec.Complete(s, key, response, step.now)
    case Cancel(key) => s.(entries := s.entries - {key})
  }

  function AnswerTo(s: State, step: Step): Answer {
    match step.op
    case Request(key, digest) => Answered(BeginRequest(s, key, digest, step.now).1)
    case Wake1(key, request, draw, wall) => Woken(BeginWake1(s, key, request, draw, step.now, wall).1)
    case Wake2(key, request, ticket, wall) => Woken(BeginWake2(s, key, request, ticket, step.now, wall).1)
    case Complete(_, _) => Done
    case Cancel(_) => Done
  }

  /** A status reservation is given back by the call that made it, so the entry is not a wake entry. */
  predicate Allowed(s: State, op: Op) {
    op.Cancel? && op.key in s.entries ==> s.entries[op.key].wake.None?
  }

  predicate Grants(answer: Answer) {
    answer.Woken? && answer.wake.WakeNew?
  }

  predicate Sound(entry: Entry, now: int) {
    && entry.expires <= now + LEDGER_TTL
    && (entry.pending <==> entry.response.None?)
    && (entry.wake.Some? ==>
          var wake := entry.wake.value;
          && wake.ticketExpires <= entry.expires
          && wake.ticketExpires <= now + RETRY_TTL
          && wake.attempt == (if wake.ticketUsed then 2 else 1))
  }

  predicate Indexed(s: State, ticket: nat)
    requires ticket in s.tickets
  {
    && s.tickets[ticket] in s.entries
    && s.entries[s.tickets[ticket]].wake.Some?
    && s.entries[s.tickets[ticket]].wake.value.ticket == ticket
  }

  ghost predicate Invariant(s: State, now: int) {
    && (forall t :: t in s.tickets ==> Indexed(s, t))
    && (forall k :: k in s.entries ==> Sound(s.entries[k], now))
    && |s.entries| <= MAX_LEDGER_ENTRIES
    && (forall c :: |ClientKeys(s.entries, c)| <= MAX_LEDGER_ENTRIES_PER_CLIENT)
  }

  lemma FewerEntries(small: map<OperationKey, Entry>, large: map<OperationKey, Entry>)
    requires small.Keys <= large.Keys
    ensures |small| <= |large|
    ensures forall c :: |ClientKeys(small, c)| <= |ClientKeys(large, c)|
  {
    SubsetCardinality(small.Keys, large.Keys);
    forall c ensures |ClientKeys(small, c)| <= |ClientKeys(large, c)| {
      SubsetCardinality(ClientKeys(small, c), ClientKeys(large, c));
    }
  }

  lemma SameKeys(before: map<OperationKey, Entry>, after: map<OperationKey, Entry>)
    requires before.Keys == after.Keys
    ensures |before| == |after|
    ensures forall c :: ClientKeys(before, c) == ClientKeys(after, c)
  {
  }

  lemma PruneKeepsInvariant(s: State, before: int, now: int)
    requires Invariant(s, before) && before <= now
    ensures Invariant(Prune(s, now), now)
  {
    FewerEntries(Prune(s, now).entries, s.entries);
  }

  lemma InsertKeepsBounds(s: State, key: OperationKey, entry: Entry)
    requires key !in s.entries && HasCapacity(s, key.clientKey)
    requires |s.entries| <= MAX_LEDGER_ENTRIES
    requires forall c :: |ClientKeys(s.entries, c)| <= MAX_LEDGER_ENTRIES_PER_CLIENT
    ensures |s.entries[key := entry]| <= MAX_LEDGER_ENTRIES
    ensures var after := s.entries[key := entry];
            forall c :: |ClientKeys(after, c)| <= MAX_LEDGER_ENTRIES_PER_CLIENT
  {
    var after := s.entries[key := entry];
    forall c ensures |ClientKeys(after, c)| <= MAX_LEDGER_ENTRIES_PER_CLIENT {
      if c == key.clientKey {
        assert ClientKeys(after, c) == ClientKeys(s.entries, c) + {key};
      } else {
        assert ClientKeys(after, c) == ClientKeys(s.entries, c);
      }
    }
  }

  /** Rewriting an entry in place keeps the invariant when the entry stays sound and keeps its ticket. */
  lemma RewriteKeepsInvariant(s: State, key: OperationKey, entry: Entry, now: int)
    requires Invariant(s, now) && key in s.entries && Sound(entry, now)
    requires s.entries[key].wake.Some? ==>
              entry.wake.Some? && entry.wake.value.ticket == s.entries[key].wake.value.ticket
    ensures Invariant(s.(entries := s.entries[key := entry]), now)
  {
    var after := s.(entries := s.entries[key := entry]);
    SameKeys(s.entries, after.entries);
    assert after.entries.Keys == s.entries.Keys;
    forall t | t in after.tickets ensures Indexed(after, t) { assert Indexed(s, t); }
  }

  lemma ReserveKeepsInvariant(s: State, key: OperationKey, entry: Entry, now: int)
    requires Invariant(s, now) && key !in s.entries && HasCapacity(s, key.clientKey) && Sound(entry, now)
    ensures Invariant(s.(entries := s.entries[key := entry]), now)
  {
    InsertKeepsBounds(s, key, entry);
    var after := s.(entries := s.entries[key := entry]);
    forall t | t in after.tickets ensures Indexed(after, t) { assert Indexed(s, t); }
  }

  lemma IndexKeepsInvariant(s: State, key: OperationKey, now: int)
    requires Invariant(s, now) && key in s.entries && s.entries[key].wake.Some?
    ensures Invariant(s.(tickets := s.tickets[s.entries[key].wake.value.ticket := key]), now)
  {
  }

  lemma Wake1KeepsInvariant(s: State, step: Step, before: int)
    requires Invariant(s, before) && before <= step.now && step.op.Wake1?
    ensures Invariant(Apply(s, step), step.now)
  {
    var p := Prune(s, step.now);
    var key := step.op.key;
    PruneKeepsInvariant(s, before, step.now);
    var after := Apply(s, step);
    if key in p.entries && after != p {
      RewriteKeepsInvariant(p, key, after.entries[key], step.now);
      IndexKeepsInvariant(p.(entries := after.entries), key, step.now);
    } else if key !in p.entries && HasCapacity(p, key.clientKey) {
      ReserveKeepsInvariant(p, key, after.entries[key], step.now);
      IndexKeepsInvariant(p.(entries := after.entries), key, step.now);
    }
  }

  lemma Wake2KeepsInvariant(s: State, step: Step, before: int)
    requires Invariant(s, before) && before <= step.now && step.op.Wake2?
    ensures Invariant(Apply(s, step), step.now)
  {
    var p := Prune(s, step.now);
    PruneKeepsInvariant(s, before, step.now);
    var after := Apply(s, step);
    if after != p {
      RewriteKeepsInvariant(p, step.op.key, after.entries[step.op.key], step.now);
    }
  }

  /** Every operation keeps the ledger invariant. */
  lemma StepKeepsInvariant(s: State, step: Step, before: int)
    requires Invariant(s, before) && before <= step.now && Allowed(s, step.op)
    ensures Invariant(Apply(s, step), step.now)
  {
    match step.op
    case Request(key, digest) =>
      var p := Prune(s, step.now);
      PruneKeepsInvariant(s, before, step.now);
      if key !in p.entries && HasCapacity(p, key.clientKey) {
        ReserveKeepsInvariant(p, key, Apply(s, step).entries[key], step.now);
      }
    case Wake1(_, _, _, _) => Wake1KeepsInvariant(s, step, before);
    case Wake2(_, _, _, _) => Wake2KeepsInvariant(s, step, before);
    case Complete(key, response) =>
      assert Invariant(s, step.now);
      if key in s.entries {
        RewriteKeepsInvariant(s, key, Completed(s.entries[key], response, step.now), step.now);
      }
    case Cancel(key) =>
      FewerEntries(Apply(s, step).entries, s.entries);
      forall t | t in s.tickets ensures Indexed(Apply(s, step), t) { assert Indexed(s, t); }
  }

  /** The ticket index is never larger than the table it points into. */
  lemma TicketsFewerThanEntries(s: State, now: int)
    requires Invariant(s, now)
    ensures |s.tickets| <= |s.entries| <= MAX_LEDGER_ENTRIES
  {
    forall t | t in s.tickets ensures s.tickets[t] in s.entries.Keys { assert Indexed(s, t); }
    forall t, u | t in s.tickets && u in s.tickets && s.tickets[t] == s.tickets[u] ensures t == u {
      assert Indexed(s, t) && Indexed(s, u);
    }
    InjectionCardinality(s.tickets, s.entries.Keys);
  }

  /** No ledger operation evicts an unexpired entry; only the owner of a status reservation gives it back. */
  lemma LiveEntriesStay(s: State, step: Step, key: OperationKey)
    requires key in s.entries && s.entries[key].expires > step.now
    requires step.op != Cancel(key)
    ensures key in Apply(s, step).entries
    ensures step.op.key != key ==> Apply(s, step).entries[key] == s.entries[key]
  {
  }

  predicate IsCached(answer: Answer) {
    (answer.Answered? && answer.result.Cached?) || (answer.Woken? && answer.wake.WakeCached?)
  }

  function EqualButLease(e: Entry, f: Entry): bool {
    e.wake.Some? == f.wake.Some? &&
    (if e.wake.None? then e == f
     else e == f.(wake := Some(f.wake.value.(ticketExpires := e.wake.value.ticketExpires))))
  }

  /** A Cached answer leaves the tombstone, the response and the reservation alone: only the retry lease
      moves, and it never moves back. */
  lemma CachedOnlyMovesTheLease(s: State, step: Step, before: int)
    requires Invariant(s, before) && before <= step.now && IsCached(AnswerTo(s, step))
    ensures step.op.key in s.entries && step.op.key in Apply(s, step).entries
    ensures var e, f := s.entries[step.op.key], Apply(s, step).entries[step.op.key];
            EqualButLease(e, f) && (e.wake.Some? ==> e.wake.value.ticketExpires <= f.wake.value.ticketExpires)
  {
  }
}

module LedgerRuns {
  import opened Timing
  import opened LedgerSpec
  import opened LedgerInvariant

  /** One operation of a run with the states around it and the answer it gave. */
  datatype Event = Event(step: Step, before: State, after: State, answer: Answer)

  predicate Linked(run: seq<Event>, i: nat)
    requires i < |run|
  {
    && run[i].before == (if i == 0 then State(map[], map[]) else run[i - 1].after)
    && run[i].after == Apply(run[i].before, run[i].step)
    && run[i].answer == AnswerTo(run[i].before, run[i].step)
    && Allowed(run[i].before, run[i].step.op)
  }

  /** A run from the empty ledger: time does not go back and random tickets do not repeat.
      (A ticket is drawn only by a request that is new; the draw of any other request is never looked at.) */
  ghost predicate Valid(run: seq<Event>) {
    && (forall i: nat :: i < |run| ==> Linked(run, i))
    && (forall i, j :: 0 <= i < j < |run| ==> run[i].step.now <= run[j].step.now)
    && (forall i, j :: 0 <= i < j < |run| && run[i].step.op.Wake1? && run[j].step.op.Wake1?
          ==> run[i].step.op.draw != run[j].step.op.draw)
  }

  /** Event `i` reserves attempt 1 of `key`. */
  predicate Granted1(run: seq<Event>, i: nat, key: OperationKey) {
    i < |run| && run[i].step.op.Wake1? && run[i].step.op.key == key && Grants(run[i].answer)
  }

  /** Event `i` reserves attempt 2 of `key`. */
  predicate Granted2(run: seq<Event>, i: nat, key: OperationKey) {
    i < |run| && run[i].step.op.Wake2? && run[i].step.op.key == key && Grants(run[i].answer)
  }

  /** The ledger invariant holds in every reachable state. */
  lemma {:induction false} InvariantHolds(run: seq<Event>, i: nat)
    requires Valid(run) && i < |run|
    ensures Invariant(run[i].before, run[i].step.now) && Invariant(run[i].after, run[i].step.now)
  {
    hide Apply, AnswerTo;
    assert Linked(run, i);
    if i > 0 {
      InvariantHolds(run, i - 1);
      LaterInvariant(run[i].before, run[i - 1].step.now, run[i].step.now);
    } else {
      assert forall c :: ClientKeys(map[], c) == {};
    }
    StepKeepsInvariant(run[i].before, run[i].step, run[i].step.now);
  }

  lemma LaterInvariant(s: State, before: int, now: int)
    requires Invariant(s, before) && before <= now
    ensures Invariant(s, now)
  {
  }

  // ----- Separation of reservations -----

  /** The wake entry of `key` cannot be pruned before `until`. */
  predicate Held(s: State, key: OperationKey, until: int, now: int) {
    now >= until || (key in s.entries && s.entries[key].wake.Some? && s.entries[key].expires >= until)
  }

  lemma HeldStep(s: State, step: Step, key: OperationKey, until: int, now: int)
    requires Held(s, key, until, now) && now <= step.now && Allowed(s, step.op)
    requires until <= step.now + LEDGER_TTL
    requires step.op.Wake2? && step.op.key == key && Grants(AnswerTo(s, step)) ==>
              until <= step.now + PENDING_LEDGER_TTL
    ensures Held(Apply(s, step), key, until, step.now)
    ensures step.op.Wake1? && step.op.key == key && Grants(AnswerTo(s, step)) ==> step.now >= until
  {
  }

  lemma GrantHolds(s: State, step: Step)
    requires Grants(AnswerTo(s, step))
    ensures Held(Apply(s, step), step.op.key, step.now + PENDING_LEDGER_TTL, step.now)
  {
  }

  lemma {:induction false} HeldAlong(run: seq<Event>, i: nat, j: nat, key: OperationKey, until: int)
    requires Valid(run) && i < j < |run|
    requires Held(run[i].after, key, until, run[i].step.now)
    requires until <= run[i].step.now + LEDGER_TTL
    requires forall m: nat :: i < m <= j && Granted2(run, m, key) ==> until <= run[m].step.now + PENDING_LEDGER_TTL
    ensures Held(run[j].after, key, until, run[j].step.now)
    ensures Granted1(run, j, key) ==> run[j].step.now >= until
  {
    hide Apply, AnswerTo, Held;
    if j == i + 1 {
    } else {
      HeldAlong(run, i, j - 1, key, until);
    }
    assert Linked(run, j) && (Granted2(run, j, key) ==> until <= run[j].step.now + PENDING_LEDGER_TTL);
    HeldStep(run[j].before, run[j].step, key, until, run[j - 1].step.now);
  }

  /** Attempt 1 of a key is never reserved again within PENDING_LEDGER_TTL of any earlier reservation of it. */
  lemma ReservationsAreSeparated(run: seq<Event>, i: nat, j: nat, key: OperationKey)
    requires Valid(run) && i < j
    requires Granted1(run, i, key) || Granted2(run, i, key)
    requires Granted1(run, j, key)
    ensures run[j].step.now >= run[i].step.now + PENDING_LEDGER_TTL
  {
    hide Apply, AnswerTo, Held;
    assert Linked(run, i);
    GrantHolds(run[i].before, run[i].step);
    HeldAlong(run, i, j, key, run[i].step.now + PENDING_LEDGER_TTL);
  }

  /** A completed wake keeps its key for LEDGER_TTL unless attempt 2 starts in between. */
  lemma CompletionHoldsTheKey(run: seq<Event>, i: nat, j: nat, key: OperationKey)
    requires Valid(run) && i < j < |run|
    requires run[i].step.op.Complete? && run[i].step.op.key == key
    requires key in run[i].before.entries && run[i].before.entries[key].wake.Some?
    requires forall m: nat :: i < m < j ==> !Granted2(run, m, key)
    requires Granted1(run, j, key)
    ensures run[j].step.now >= run[i].step.now + LEDGER_TTL
  {
    assert Linked(run, i);
    HeldAlong(run, i, j, key, run[i].step.now + LEDGER_TTL);
  }

  // ----- Where tickets come from -----

  predicate SameRequest(entry: Entry, request: WakeRequest) {
    && entry.digest == request.digest
    && entry.wake.Some?
    && entry.wake.value.catalogVersion == request.catalogVersion
    && entry.wake.value.hostIds == request.hostIds
    && entry.wake.value.bootNonce == request.bootNonce
  }

  /** `s` holds, for `key`, the entry that event `i` reserved. */
  predicate MintedBy(run: seq<Event>, i: nat, s: State, key: OperationKey) {
    && Granted1(run, i, key)
    && key in s.entries
    && SameRequest(s.entries[key], run[i].step.op.request)
    && s.entries[key].wake.value.ticket == run[i].step.op.draw
  }

  /** A wake entry after a step is a new reservation or the old entry, advanced by an event of its own key. */
  lemma EntryStep(s: State, step: Step, key: OperationKey)
    requires Allowed(s, step.op)
    requires key in Apply(s, step).entries && Apply(s, step).entries[key].wake.Some?
    ensures var after := Apply(s, step).entries[key];
            if step.op.Wake1? && step.op.key == key && Grants(AnswerTo(s, step))
            then after == FirstReservation(step.op.request, step.op.draw, step.now)
            else
              && key in s.entries && s.entries[key].wake.Some?
              && (var before := s.entries[key];
                  && after.digest == before.digest
                  && after.wake.value == before.wake.value.(
                       ticketExpires := after.wake.value.ticketExpires,
                       ticketUsed := after.wake.value.ticketUsed,
                       attempt := after.wake.value.attempt)
                  && (after.wake.value.attempt == before.wake.value.attempt || after.wake.value.attempt == 2)
                  && (step.op.Wake2? && step.op.key == key && Grants(AnswerTo(s, step)) ==>
                    after.wake.value.attempt == 2)
                  && (before.pending && !after.pending ==> step.op.Complete? && step.op.key == key))
  {
  }

  /** Every wake entry of a reachable state was reserved by a first attempt that drew its ticket; no second
      attempt was granted since if the entry still is at attempt 1, and it was completed if it is not pending. */
  lemma {:induction false} Origin(run: seq<Event>, j: nat, key: OperationKey) returns (i: nat, m: nat)
    requires Valid(run) && j < |run|
    requires key in run[j].after.entries && run[j].after.entries[key].wake.Some?
    ensures i <= j && MintedBy(run, i, run[j].after, key)
    ensures run[j].after.entries[key].wake.value.attempt == 1 ==>
              && (forall n: nat :: i <= n <= j ==> !Granted2(run, n, key))
              && (!run[j].after.entries[key].pending ==>
                    i < m <= j && run[m].step.op.Complete? && run[m].step.op.key == key)
  {
    hide Apply, AnswerTo;
    assert Linked(run, j);
    EntryStep(run[j].before, run[j].step, key);
    if Granted1(run, j, key) {
      i, m := j, j;
    } else {
      i, m := Origin(run, j - 1, key);
      if run[j].step.op.Complete? && run[j].step.op.key == key {
        m := j;
      }
    }
  }

  /** A grant of attempt 2 redeems the entry it finds. */
  lemma GrantRedeems(s: State, step: Step)
    requires step.op.Wake2? && Grants(AnswerTo(s, step))
    ensures step.op.key in s.entries
    ensures var entry := s.entries[step.op.key];
            && SameRequest(entry, step.op.request)
            && !entry.pending && entry.wake.value.attempt == 1
            && OwnsOpenLease(entry, step.op.ticket, step.now)
  {
  }

  /** Attempt 2 is granted only for the ticket that attempt 1 of the same key drew, for the same request,
      after that attempt completed and while its retry lease is open. */
  lemma SecondAttemptNeedsItsOwnTicket(run: seq<Event>, j: nat, key: OperationKey) returns (i: nat, m: nat)
    requires Valid(run) && Granted2(run, j, key)
    ensures i < m < j && Granted1(run, i, key)
    ensures run[m].step.op.Complete? && run[m].step.op.key == key
    ensures run[j].step.op.ticket == run[i].step.op.draw && run[j].step.op.request == run[i].step.op.request
    ensures key in run[j].before.entries
    ensures OwnsOpenLease(run[j].before.entries[key], run[j].step.op.ticket, run[j].step.now)
    ensures forall n: nat :: i <= n < j ==> !Granted2(run, n, key)
  {
    hide Apply, AnswerTo;
    assert Linked(run, j);
    GrantRedeems(run[j].before, run[j].step);
    i, m := Origin(run, j - 1, key);
  }

  /** Over a whole run a ticket is redeemed at most once, by whichever key. */
  lemma TicketRedeemedOnce(run: seq<Event>, i: nat, j: nat, key: OperationKey, other: OperationKey)
    requires Valid(run) && Granted2(run, i, key) && Granted2(run, j, other)
    requires run[i].step.op.ticket == run[j].step.op.ticket
    ensures i == j && key == other
  {
    var minted, _ := SecondAttemptNeedsItsOwnTicket(run, i, key);
    var again, _ := SecondAttemptNeedsItsOwnTicket(run, j, other);
    assert minted == again;
  }

  // ----- Availability of the second attempt -----

  /** Until `lease` the entry waits, at attempt 1, with its ticket indexed. */
  predicate LeaseHeld(s: State, key: OperationKey, request: WakeRequest, ticket: nat, lease: int, settled: bool,
                      now: int)
  {
    now < lease ==>
      && key in s.entries
      && SameRequest(s.entries[key], request)
      && s.entries[key].wake.value.ticket == ticket
      && s.entries[key].wake.value.attempt == 1
      && s.entries[key].wake.value.ticketExpires >= lease
      && (settled ==> !s.entries[key].pending)
      && ticket in s.tickets && s.tickets[ticket] == key
  }

  predicate OwnTicket(s: State, key: OperationKey, ticket: nat) {
    forall k :: k in s.entries && s.entries[k].wake.Some? && s.entries[k].wake.value.ticket == ticket ==> k == key
  }

  lemma LeaseStep(s: State, step: Step, key: OperationKey, request: WakeRequest, ticket: nat, lease: int,
                  settled: bool, now: int)
    requires Invariant(s, now) && now <= step.now && Allowed(s, step.op)
    requires LeaseHeld(s, key, request, ticket, lease, settled, now)
    requires lease <= step.now + RETRY_TTL
    requires OwnTicket(s, key, ticket)
    requires step.op.Wake1? ==> step.op.draw != ticket
    requires !(step.op.Wake2? && step.op.key == key && Grants(AnswerTo(s, step)))
    ensures LeaseHeld(Apply(s, step), key, request, ticket, lease, settled, step.now)
  {
    if step.now < lease {
      hide Apply, AnswerTo, OwnTicket;
      assert Sound(s.entries[key], now);
      hide Invariant;
      if step.op.key == key {
        OwnLeaseStep(s, step, key, request, ticket, lease, settled, now);
      } else {
        ForeignLeaseStep(s, step, key, request, ticket, lease, settled);
      }
    }
  }

  lemma ForeignLeaseStep(s: State, step: Step, key: OperationKey, request: WakeRequest, ticket: nat, lease: int,
                         settled: bool)
    requires step.now < lease && step.op.key != key && Allowed(s, step.op)
    requires key in s.entries && s.entries[key].expires > step.now
    requires LeaseHeld(s, key, request, ticket, lease, settled, step.now)
    requires OwnTicket(s, key, ticket) && (step.op.Wake1? ==> step.op.draw != ticket)
    ensures LeaseHeld(Apply(s, step), key, request, ticket, lease, settled, step.now)
  {
    var p := Prune(s, step.now);
    assert key in p.entries && p.entries[key] == s.entries[key] && ticket in p.tickets && p.tickets[ticket] == key;
  }

  lemma OwnLeaseStep(s: State, step: Step, key: OperationKey, request: WakeRequest, ticket: nat, lease: int,
                     settled: bool, now: int)
    requires step.now < lease <= step.now + RETRY_TTL && step.op.key == key && !step.op.Cancel?
    requires key in s.entries && Sound(s.entries[key], now) && s.entries[key].expires > step.now
    requires LeaseHeld(s, key, request, ticket, lease, settled, step.now)
    requires !(step.op.Wake2? && Grants(AnswerTo(s, step)))
    ensures LeaseHeld(Apply(s, step), key, request, ticket, lease, settled, step.now)
  {
    var p := Prune(s, step.now);
    assert key in p.entries && p.entries[key] == s.entries[key] && ticket in p.tickets && p.tickets[ticket] == key;
  }

  /** An open lease survives any interleaving that does not redeem the ticket. */
  lemma {:induction false} LeaseAlong(run: seq<Event>, o: nat, i: nat, j: nat, key: OperationKey, lease: int,
                                      settled: bool)
    requires Valid(run) && o <= i <= j < |run| && Granted1(run, o, key)
    requires LeaseHeld(run[i].after, key, run[o].step.op.request, run[o].step.op.draw, lease, settled, run[i].step.now)
    requires lease <= run[i].step.now + RETRY_TTL
    requires forall m: nat :: i < m <= j ==> !Granted2(run, m, key)
    ensures LeaseHeld(run[j].after, key, run[o].step.op.request, run[o].step.op.draw, lease, settled, run[j].step.now)
  {
    hide Apply, AnswerTo;
    if i == j {
    } else {
      LeaseAlong(run, o, i, j - 1, key, lease, settled);
      InvariantHolds(run, j - 1);
      var s := run[j].before;
      assert Linked(run, j) && !Granted2(run, j, key) && run[i].step.now <= run[j].step.now;
      forall k | k in s.entries && s.entries[k].wake.Some? && s.entries[k].wake.value.ticket == run[o].step.op.draw
        ensures k == key
      {
        var n, _ := Origin(run, j - 1, k);
        assert n == o;
      }
      LeaseStep(s, run[j].step, key, run[o].step.op.request, run[o].step.op.draw, lease, settled, run[j - 1].step.now);
    }
  }

  lemma ReservationOpensLease(s: State, step: Step)
    requires step.op.Wake1? && Grants(AnswerTo(s, step))
    ensures LeaseHeld(Apply(s, step), step.op.key, step.op.request, step.op.draw, step.now + RETRY_TTL, false, step.now)
  {
  }

  lemma CompletionOpensLease(s: State, step: Step, request: WakeRequest, ticket: nat, lease: int, now: int)
    requires Invariant(s, now) && now <= step.now < lease && step.op.Complete?
    requires LeaseHeld(s, step.op.key, request, ticket, lease, false, now)
    ensures LeaseHeld(Apply(s, step), step.op.key, request, ticket, step.now + RETRY_TTL, true, step.now)
  {
    assert Sound(s.entries[step.op.key], now);
  }

  /** The step answers a repeated first attempt with the cached receipt and so renews its lease. */
  predicate Renews(step: Step, answer: Answer) {
    step.op.Wake1? && answer.Woken? && answer.wake.WakeCached? && answer.wake.receipt.event.CommandExecuted?
  }

  lemma RenewalOpensLease(s: State, step: Step, request: WakeRequest, ticket: nat)
    requires Renews(step, AnswerTo(s, step))
    requires step.op.key in s.entries && SameRequest(s.entries[step.op.key], request)
    requires s.entries[step.op.key].wake.value.ticket == ticket
    ensures LeaseHeld(Apply(s, step), step.op.key, request, ticket, step.now + RETRY_TTL, true, step.now)
  {
  }

  lemma OpenLeaseIsRedeemed(s: State, step: Step, ticket: nat, lease: int, now: int)
    requires Invariant(s, now) && now <= step.now < lease && step.op.Wake2? && step.op.ticket == ticket
    requires LeaseHeld(s, step.op.key, step.op.request, ticket, lease, true, now)
    ensures Grants(AnswerTo(s, step))
  {
    assert Sound(s.entries[step.op.key], now);
  }

  /** Retry availability after completion: attempt 1 was reserved by event `o` and completed by event `i` within
      RETRY_TTL. Then the first matching second attempt that arrives within RETRY_TTL of the completion is
      granted, whatever happened in between. */
  lemma RetryAvailableAfterCompletion(run: seq<Event>, o: nat, i: nat, j: nat, key: OperationKey)
    requires Valid(run) && o < i < j < |run|
    requires Granted1(run, o, key)
    requires run[i].step.op.Complete? && run[i].step.op.key == key
    requires run[i].step.now < run[o].step.now + RETRY_TTL
    requires run[j].step.op.Wake2? && run[j].step.op.key == key
    requires run[j].step.op.request == run[o].step.op.request && run[j].step.op.ticket == run[o].step.op.draw
    requires run[j].step.now < run[i].step.now + RETRY_TTL
    requires forall m: nat :: o < m < j ==> !Granted2(run, m, key)
    ensures Granted2(run, j, key)
  {
    hide Apply, AnswerTo, LeaseHeld;
    var request, ticket := run[o].step.op.request, run[o].step.op.draw;
    assert Linked(run, o) && Linked(run, i) && Linked(run, j);
    ReservationOpensLease(run[o].before, run[o].step);
    LeaseAlong(run, o, o, i - 1, key, run[o].step.now + RETRY_TTL, false);
    InvariantHolds(run, i - 1);
    CompletionOpensLease(run[i].before, run[i].step, request, ticket, run[o].step.now + RETRY_TTL, run[i - 1].step.now);
    LeaseAlong(run, o, i, j - 1, key, run[i].step.now + RETRY_TTL, true);
    InvariantHolds(run, j - 1);
    OpenLeaseIsRedeemed(run[j].before, run[j].step, ticket, run[i].step.now + RETRY_TTL, run[j - 1].step.now);
  }

  /** Retry availability after a renewal: a cached receipt opens the lease again, even for a ticket that had
      already been pruned from the index. */
  lemma RetryAvailableAfterRenewal(run: seq<Event>, o: nat, i: nat, j: nat, key: OperationKey)
    requires Valid(run) && o <= i < j < |run|
    requires MintedBy(run, o, run[i].before, key)
    requires run[i].step.op.key == key && Renews(run[i].step, run[i].answer)
    requires run[j].step.op.Wake2? && run[j].step.op.key == key
    requires run[j].step.op.request == run[o].step.op.request && run[j].step.op.ticket == run[o].step.op.draw
    requires run[j].step.now < run[i].step.now + RETRY_TTL
    requires forall m: nat :: i < m < j ==> !Granted2(run, m, key)
    ensures Granted2(run, j, key)
  {
    hide Apply, AnswerTo, LeaseHeld;
    var request, ticket := run[o].step.op.request, run[o].step.op.draw;
    assert Linked(run, i) && Linked(run, j);
    RenewalOpensLease(run[i].before, run[i].step, request, ticket);
    LeaseAlong(run, o, i, j - 1, key, run[i].step.now + RETRY_TTL, true);
    InvariantHolds(run, j - 1);
    OpenLeaseIsRedeemed(run[j].before, run[j].step, ticket, run[i].step.now + RETRY_TTL, run[j - 1].step.now);
  }
}
