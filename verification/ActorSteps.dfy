// What one input does to the client actor (src/client.rs).

module ActorSteps {
  import opened Common
  import opened Protocol
  import opened ActorSpec
  import ActorRuns

  /** A wake request goes out exactly when it names 1 to 8 hosts and an operation, at most 31 other operations are
      pending, and it neither goes back to an earlier attempt nor repeats one whose receipt was seen. It then starts
      over what is known of the operation, for 3 minutes. A refused request leaves the connection alone. */
  lemma SubmissionExactly(a: Actor, c: WakeCommand, now: int, sends: bool)
    requires a.open
    ensures var b, id := Submit(a, c, now, sends, true), c.operationId;
            if && 1 <= |c.hostIds| <= 8 && id != 0 && (id in a.pending || |a.pending| < 32)
               && (id in a.pending ==> || c.attempt > a.pending[id].attempt
                                       || (c.attempt == a.pending[id].attempt && !a.pending[id].receiptSeen))
            then if sends
              then && b == a.(pending := b.pending, log := a.log + [Sent(id, c.attempt)])
                   && b.pending.Keys == a.pending.Keys + {id} && b.pending - {id} == a.pending - {id}
                   && b.pending[id] == PendingOperation(Elements(c.hostIds), None, c.attempt, c.retryTicket, false, {},
                                                        None, now + 180_000)
              else !b.open && b.log == a.log && b.pending == a.pending
            else b == a.(log := a.log + [Notice])
  {
  }

  /** A receipt is believed exactly when its headers are the configured ones, the clocks are within the skew, it
      answers the attempt that is pending (attempt 2 with the right ticket), its deadline lies at most a minute
      ahead or just past, and it names exactly the requested hosts. Any other receipt closes the connection. The first
      receipt of a submission is shown; a later one only moves the deadline. */
  lemma ReceiptExactly(cfg: Config, a: Actor, e: ServerEnvelope, nowMs: nat, io: Surroundings)
    requires a.open && io.room > 0 && e.event.CommandExecuted? && e.event.deadlineMs <= U64_MAX
    ensures var r, b := e.event, Handle(cfg, a, e, nowMs, io);
            var id := r.operationId;
            && (b.open <==>
                  && e.headers == cfg.headers && -(cfg.skewMs as int) <= nowMs - e.issuedAtMs <= cfg.skewMs
                  && id in a.pending && e.requestId == id && r.attempt == a.pending[id].attempt
                  && (r.attempt == 2 ==> a.pending[id].ticket == Some(r.retryTicket))
                  && nowMs - cfg.skewMs <= r.deadlineMs <= nowMs + 60_000 + cfg.skewMs
                  && (forall x :: x in r.results ==> x.hostId in a.pending[id].targets)
                  && (forall h :: h in a.pending[id].targets ==> exists x :: x in r.results && x.hostId == h))
            && (!b.open ==> b.pending == a.pending)
            && (b.open ==>
                  var op := a.pending[id];
                  && b == a.(pending := a.pending[id := b.pending[id]], log := b.log)
                  && if op.receiptSeen
                     then b.log == a.log && b.pending[id] == op.(deadlineMs := Some(r.deadlineMs))
                     else && b.log == a.log + [Receipt(id, r.attempt, r.retryTicket, AcceptedOf(r.results))]
                          && b.pending[id] == op.(acceptedTargets := Some(AcceptedOf(r.results)), receiptSeen := true,
                                                  deadlineMs := Some(r.deadlineMs),
                                                  ticket := if r.attempt == 1 then Some(r.retryTicket) else op.ticket))
  {
    hide AcceptedOf;
    var hosts := HostsOf(e.event.results);
    assert forall x :: x in e.event.results ==> x.hostId in hosts;
    assert forall h :: h in hosts ==> exists x :: x in e.event.results && x.hostId == h;
    if e.event.operationId in a.pending {
      var targets := a.pending[e.event.operationId].targets;
      assert hosts == targets <==> hosts <= targets && targets <= hosts;
    }
  }

  /** An online report is believed exactly when it answers the attempt that is pending, whose receipt was seen and
      accepts the host, and was observed within the last minute and before the deadline of the receipt, up to the
      skew of the clocks. Any other report closes the connection. A host is shown the first time only. */
  lemma OnlineExactly(cfg: Config, a: Actor, e: ServerEnvelope, nowMs: nat, io: Surroundings)
    requires a.open && io.room > 0 && e.event.TargetOnline? && e.event.observedAtMs <= U64_MAX && nowMs <= U64_MAX
    ensures var t, b := e.event, Handle(cfg, a, e, nowMs, io);
            var id := t.onlineOperation;
            && (b.open <==>
                  && e.headers == cfg.headers && -(cfg.skewMs as int) <= nowMs - e.issuedAtMs <= cfg.skewMs
                  && id in a.pending && e.requestId == id && t.onlineAttempt == a.pending[id].attempt
                  && a.pending[id].receiptSeen && a.pending[id].acceptedTargets.Some?
                  && t.hostId in a.pending[id].acceptedTargets.value && a.pending[id].deadlineMs.Some?
                  && t.observedAtMs > 0
                  && nowMs - 60_000 - cfg.skewMs <= t.observedAtMs <= nowMs + cfg.skewMs
                  && t.observedAtMs <= a.pending[id].deadlineMs.value
                  && nowMs <= a.pending[id].deadlineMs.value + cfg.skewMs)
            && (!b.open ==> b.pending == a.pending)
            && (b.open ==>
                  var op := a.pending[id];
                  && b.requests == a.requests
                  && b.log == a.log + (if t.hostId in op.online then [] else [Online(id, t.onlineAttempt, t.hostId)])
                  && b.pending == a.pending[id := op.(online := op.online + {t.hostId})])
  {
    var id := e.event.onlineOperation;
    assert a.log + [] == a.log;
    if id in a.pending && e.event.hostId in a.pending[id].online {
      assert a.pending[id].online + {e.event.hostId} == a.pending[id].online;
      assert a.pending[id := a.pending[id]] == a.pending;
    }
  }

  /** Only operations whose 3 minutes are over are dropped. */
  lemma ExpiryExactly(a: Actor, now: int, id: nat)
    ensures var b := Expire(a, now);
            && (id in b.pending <==> id in a.pending && a.pending[id].expiresAt > now)
            && (id in b.pending ==> b.pending[id] == a.pending[id])
            && b == a.(pending := b.pending)
  {
  }

  // ----- Host lists and their states -----

  function Joined(batches: seq<seq<Text>>): seq<Text> {
    if batches == [] then [] else batches[0] + Joined(batches[1..])
  }

  /** The batches are the hosts in order, at most eight in each, and none is empty unless there are no hosts. */
  lemma {:induction false} ChunksKeepEveryHost(ids: seq<Text>)
    ensures Joined(Chunks(ids)) == ids
    ensures forall batch :: batch in Chunks(ids) ==> |batch| <= 8 && (ids != [] ==> batch != [])
    decreases |ids|
  {
    if |ids| <= 8 {
      assert Joined(Chunks(ids)) == ids + Joined([]) == ids;
    } else {
      ChunksKeepEveryHost(ids[8..]);
      assert Chunks(ids)[1..] == Chunks(ids[8..]);
    }
  }

  lemma WithoutRequest(a: Actor, id: nat)
    requires id in a.requests && |a.requests| <= 16
    ensures |a.requests - {id}| < 16
  {
    var rest := a.requests - {id};
    assert rest.Keys == a.requests.Keys - {id};
    assert |rest| == |rest.Keys| && |a.requests| == |a.requests.Keys|;
  }

  /** An expected host list is shown, and the state of every host on it is asked for, eight at a time; a list that
      was not asked for closes the connection. */
  lemma HostListExactly(cfg: Config, a: Actor, e: ServerEnvelope, nowMs: nat, io: Surroundings)
    requires a.open && ActorRuns.Bounded(a) && io.room > 1 && io.sends && e.event.Hosts? && EnvelopeFits(cfg, e, nowMs)
    ensures var b, id, ids := Handle(cfg, a, e, nowMs, io), e.requestId, e.event.hostIds;
            && (b.open <==> id in a.requests && a.requests[id].List?)
            && (b.open && ids == [] ==> b == a.(requests := a.requests - {id}, log := a.log + [Notice, Notice]))
            && (b.open && ids != [] ==>
                  && b == a.(requests := b.requests, log := a.log + [Notice]) && io.draw in b.requests
                  && b.requests - {io.draw} == a.requests - {id, io.draw}
                  && var asked := b.requests[io.draw];
                     && asked.Status? && asked.version == e.event.hostsVersion
                     && exists first: seq<Text> :: 0 < |first| <= 8 && asked.hosts == Elements(first)
                                                   && first + Joined(asked.remaining) == ids)
  {
    var id, ids := e.requestId, e.event.hostIds;
    hide ActorRuns.Bounded, EnvelopeFits, Chunks, Elements;
    ChunksKeepEveryHost(ids);
    assert a.log + [Notice] + [Notice] == a.log + [Notice, Notice];
    if id in a.requests && a.requests[id].List? {
      BoundedRequests(a);
      WithoutRequest(a, id);
      var batches := Chunks(ids);
      assert batches[0] in batches && batches[0] + Joined(batches[1..]) == ids;
    }
  }

  lemma BoundedRequests(a: Actor)
    requires ActorRuns.Bounded(a)
    ensures |a.requests| <= 16
  {
  }

  /** The expected states of a batch are shown, and the next batch is asked for; states for another version or another
      set of hosts close the connection. */
  lemma StatusesExactly(cfg: Config, a: Actor, e: ServerEnvelope, nowMs: nat, io: Surroundings)
    requires a.open && ActorRuns.Bounded(a) && io.room > 0 && io.sends
    requires e.event.Statuses? && EnvelopeFits(cfg, e, nowMs)
    requires e.requestId in a.requests && a.requests[e.requestId].Status? ==>
               forall batch :: batch in a.requests[e.requestId].remaining ==> batch != []
    ensures var b, id := Handle(cfg, a, e, nowMs, io), e.requestId;
            && (b.open <==>
                  && id in a.requests && a.requests[id].Status? && a.requests[id].version == e.event.statusVersion
                  && a.requests[id].hosts == Elements(e.event.statusIds))
            && (b.open ==>
                  var left, rest := a.requests[id].remaining, a.requests - {id};
                  && b == a.(log := a.log + [Notice], requests := b.requests)
                  && b.requests == if left == [] then rest
                                   else rest[io.draw := Status(e.event.statusVersion, Elements(left[0]), left[1..])])
  {
    hide ActorRuns.Bounded, EnvelopeFits, Elements;
    if e.requestId in a.requests {
      BoundedRequests(a);
      WithoutRequest(a, e.requestId);
      var asked := a.requests[e.requestId];
      if asked.Status? && asked.remaining != [] {
        assert asked.remaining[0] in asked.remaining;
      }
    }
  }

  /** An error is shown if it answers anything outstanding, and answers it; any other error closes the connection. */
  lemma ErrorExactly(cfg: Config, a: Actor, e: ServerEnvelope, nowMs: nat, io: Surroundings)
    requires a.open && io.room > 0 && e.event.Error? && EnvelopeFits(cfg, e, nowMs)
    ensures var b, id := Handle(cfg, a, e, nowMs, io), e.requestId;
            if id in a.requests || id in a.pending
            then b == a.(requests := a.requests - {id}, log := a.log + [Notice])
            else !b.open
  {
  }

  /** A refresh asks for the host list exactly when no list request is outstanding. */
  lemma RefreshExactly(a: Actor, draw: nat, room: bool)
    requires a.open && |a.requests| < 16
    ensures var b := Refresh(a, draw, true, room);
            b == if exists id :: id in a.requests && a.requests[id].List? then a
                 else a.(requests := a.requests[draw := List])
  {
  }
}
