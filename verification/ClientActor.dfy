// The connection actor of the client: which server events it believes (src/client.rs).

module ActorSpec {
  import opened Common
  import opened Timing
  import opened Protocol

  const MAX_PENDING_OPERATIONS: nat := 32
  const MAX_PENDING_REQUESTS: nat := 16
  const MAX_STATUS_TARGETS: nat := 8

  datatype PendingOperation = PendingOperation(
    targets: set<Text>, acceptedTargets: Option<set<Text>>, attempt: nat, ticket: Option<nat>,
    receiptSeen: bool, online: set<Text>, deadlineMs: Option<nat>, expiresAt: int)

  /** A list or status request that is not answered yet; `remaining` are the status batches still to ask for. */
  datatype Asked = List | Status(version: nat, hosts: set<Text>, remaining: seq<seq<Text>>)

  /** What happened on a connection, in order: wake requests put on the wire and events shown to the front end
      (`Notice` for those that do not concern a wake operation). */
  datatype Entry =
    | Sent(operationId: nat, attempt: nat)
    | Receipt(receiptOperation: nat, receiptAttempt: nat, ticket: nat, accepted: set<Text>)
    | Online(onlineOperation: nat, onlineAttempt: nat, host: Text)
    | Notice

  datatype Actor = Actor(pending: map<nat, PendingOperation>, requests: map<nat, Asked>, log: seq<Entry>, open: bool)

  /** The surroundings of one server event: how many events the front end still takes, whether the channel takes a
      follow-up request, and the random id of that request. */
  datatype Surroundings = Surroundings(room: nat, sends: bool, draw: nat)

  /** Headers and clock skew that the client was configured with. */
  datatype Config = Config(headers: seq<Header>, skewMs: nat)

  function Expire(a: Actor, now: int): Actor {
    a.(pending := map id | id in a.pending && a.pending[id].expiresAt > now :: a.pending[id])
  }

  predicate Refused(a: Actor, c: WakeCommand) {
    || c.hostIds == [] || |c.hostIds| > MAX_WAKE_TARGETS || c.operationId == 0
    || (|a.pending| >= MAX_PENDING_OPERATIONS && c.operationId !in a.pending)
    || (c.operationId in a.pending &&
          (c.attempt < a.pending[c.operationId].attempt
           || (c.attempt == a.pending[c.operationId].attempt && a.pending[c.operationId].receiptSeen)))
  }

  function NewOperation(c: WakeCommand, now: int): PendingOperation {
    PendingOperation(Elements(c.hostIds), None, c.attempt, c.retryTicket, false, {}, None, now + PENDING_OPERATION_TTL)
  }

  /** The Wake branch of the command loop. `sends` says whether the secure channel took the request, `room`
      whether the front end still takes events. */
  function Submit(a: Actor, c: WakeCommand, now: int, sends: bool, room: bool): Actor {
    if Refused(a, c) then (if room then a.(log := a.log + [Notice]) else a.(open := false))
    else if !sends then a.(open := false)
    else a.(pending := a.pending[c.operationId := NewOperation(c, now)],
            log := a.log + [Sent(c.operationId, c.attempt)])
  }

  predicate EnvelopeFits(cfg: Config, e: ServerEnvelope, nowMs: nat) {
    e.headers == cfg.headers && AbsDiff(e.issuedAtMs, nowMs) <= cfg.skewMs
  }

  predicate ReceiptFits(cfg: Config, op: PendingOperation, e: ServerEnvelope, nowMs: nat)
    requires e.event.CommandExecuted?
  {
    var r := e.event;
    && e.requestId == r.operationId && r.attempt == op.attempt
    && (r.attempt == 2 ==> op.ticket == Some(r.retryTicket))
    && r.deadlineMs >= SaturatingSub(nowMs, cfg.skewMs)
    && r.deadlineMs <= SaturatingAdd(SaturatingAdd(nowMs, WAKE_WAIT_TIMEOUT), cfg.skewMs)
    && HostsOf(r.results) == op.targets
  }

  /** `observation_time_valid` */
  predicate ObservationTimeValid(observed: nat, deadline: Option<nat>, nowMs: nat, skewMs: nat) {
    && observed != 0
    && observed <= SaturatingAdd(nowMs, skewMs)
    && observed >= SaturatingSub(nowMs, SaturatingAdd(WAKE_WAIT_TIMEOUT, skewMs))
    && deadline.Some? && observed <= deadline.value && nowMs <= SaturatingAdd(deadline.value, skewMs)
  }

  predicate OnlineFits(cfg: Config, op: PendingOperation, e: ServerEnvelope, nowMs: nat)
    requires e.event.TargetOnline?
  {
    var t := e.event;
    && e.requestId == t.onlineOperation && t.onlineAttempt == op.attempt
    && op.acceptedTargets.Some? && t.hostId in op.acceptedTargets.value && op.receiptSeen
    && ObservationTimeValid(t.observedAtMs, op.deadlineMs, nowMs, cfg.skewMs)
  }

  /** Closes the connection, with a notice if the front end still takes one. */
  function Reject(a: Actor, room: bool): Actor {
    a.(open := false, log := if room then a.log + [Notice] else a.log)
  }

  function Emit(a: Actor, entry: Entry, room: bool): Actor {
    if room then a.(log := a.log + [entry]) else a.(open := false)
  }

  function Ask(a: Actor, id: nat, asked: Asked, sends: bool): Actor {
    if sends then a.(requests := a.requests[id := asked]) else a.(requests := a.requests - {id}, open := false)
  }

  /** `send_status_batch` */
  function AskStatus(a: Actor, version: nat, batch: seq<Text>, remaining: seq<seq<Text>>, io: Surroundings): Actor {
    if |a.requests| >= MAX_PENDING_REQUESTS || batch == [] then a.(open := false)
    else Ask(a, io.draw, Status(version, Elements(batch), remaining), io.sends)
  }

  predicate Listing(a: Actor) {
    exists id :: id in a.requests && a.requests[id].List?
  }

  /** The list request of a refresh: at most one is outstanding. */
  function Refresh(a: Actor, draw: nat, sends: bool, room: bool): Actor {
    if Listing(a) then a
    else if |a.requests| >= MAX_PENDING_REQUESTS then Reject(a, room)
    else Ask(a, draw, List, sends)
  }

  function Chunks(ids: seq<Text>): (batches: seq<seq<Text>>)
    ensures batches != []
  {
    if |ids| <= MAX_STATUS_TARGETS then [ids] else [ids[..MAX_STATUS_TARGETS]] + Chunks(ids[MAX_STATUS_TARGETS..])
  }

  /** The answer to a list request: shown, and followed by the status requests for its hosts. */
  function ShowHosts(a: Actor, version: nat, ids: seq<Text>, io: Surroundings): Actor {
    var b := Emit(a, Notice, io.room > 0);
    if !b.open then b
    else if ids == [] then Emit(b, Notice, io.room > 1)
    else
      var c := AskStatus(b, version, Chunks(ids)[0], Chunks(ids)[1..], io);
      if c.open then c else Reject(c, io.room > 1)
  }

  /** The answer to a status request: shown, and followed by the request for the next batch. */
  function ShowStatuses(a: Actor, asked: Asked, io: Surroundings): Actor
    requires asked.Status?
  {
    var b := Emit(a, Notice, io.room > 0);
    if !b.open || asked.remaining == [] then b
    else AskStatus(b, asked.version, asked.remaining[0], asked.remaining[1..], io)
  }

  function HandleReply(a: Actor, e: ServerEnvelope, io: Surroundings): Actor
    requires e.event.Hosts? || e.event.Statuses? || e.event.Error?
  {
    var id := e.requestId;
    var b := a.(requests := a.requests - {id});
    match e.event
    case Hosts(version, ids) =>
      if id in a.requests && a.requests[id].List? then ShowHosts(b, version, ids, io) else Reject(b, io.room > 0)
    case Statuses(version, ids) =>
      if id in a.requests && a.requests[id].Status? && a.requests[id].version == version &&
         a.requests[id].hosts == Elements(ids)
      then ShowStatuses(b, a.requests[id], io)
      else Reject(b, io.room > 0)
    case Error(_) =>
      if id in a.requests || id in a.pending then Emit(b, Notice, io.room > 0) else Reject(b, io.room > 0)
  }

  /** `handle_server_event` */
  function Handle(cfg: Config, a: Actor, e: ServerEnvelope, nowMs: nat, io: Surroundings): Actor {
    if !EnvelopeFits(cfg, e, nowMs) then Reject(a, io.room > 0)
    else
      match e.event
      case CommandExecuted(id, attempt, ticket, deadline, results) =>
        if id !in a.pending || !ReceiptFits(cfg, a.pending[id], e, nowMs) then Reject(a, io.room > 0)
        else
          var op := a.pending[id];
          if op.receiptSeen then a.(pending := a.pending[id := op.(deadlineMs := Some(deadline))])
          else
            var seen := op.(ticket := if attempt == 1 then Some(ticket) else op.ticket,
                            acceptedTargets := Some(AcceptedOf(results)), receiptSeen := true,
                            deadlineMs := Some(deadline));
            Emit(a.(pending := a.pending[id := seen]), Receipt(id, attempt, ticket, AcceptedOf(results)), io.room > 0)
      case TargetOnline(id, attempt, host, observed) =>
        if id !in a.pending || !OnlineFits(cfg, a.pending[id], e, nowMs) then Reject(a, io.room > 0)
        else
          var op := a.pending[id];
          if host in op.online then a
          else Emit(a.(pending := a.pending[id := op.(online := op.online + {host})]), Online(id, attempt, host),
                    io.room > 0)
      case _ => HandleReply(a, e, io)
  }
}

module ActorObject {
  import opened Common
  import opened Timing
  import opened Protocol
  import opened ActorSpec

  class ConnectedClient {
    const config: Config
    var pending: map<nat, PendingOperation>
    var requests: map<nat, Asked>
    var log: seq<Entry>
    var open: bool

    function Now(): Actor
      reads this
    {
      Actor(pending, requests, log, open)
    }

    constructor (config: Config)
      ensures Now() == Actor(map[], map[], [], true) && this.config == config
    {
      this.config, pending, requests, log, open := config, map[], map[], [], true;
    }

    method ExpirePending(now: int)
      modifies this`pending
      ensures Now() == Expire(old(Now()), now)
    {
      pending := map id | id in pending && pending[id].expiresAt > now :: pending[id];
    }

    method SubmitWake(command: WakeCommand, now: int, sends: bool, room: bool)
      modifies this
      ensures Now() == Submit(old(Now()), command, now, sends, room)
    {
      var refused := command.hostIds == [] || |command.hostIds| > MAX_WAKE_TARGETS || command.operationId == 0;
      if !refused && |pending| >= MAX_PENDING_OPERATIONS && command.operationId !in pending { refused := true; }
      if !refused && command.operationId in pending {
        var existing := pending[command.operationId];
        if command.attempt < existing.attempt || (command.attempt == existing.attempt && existing.receiptSeen) {
          refused := true;
        }
      }
      if refused {
        EmitEvent(Notice, room);
        return;
      }
      if !sends {
        open := false;
        return;
      }
      var targets := Elements(command.hostIds);
      pending := pending[command.operationId := PendingOperation(targets, None, command.attempt, command.retryTicket,
                                                                 false, {}, None, now + PENDING_OPERATION_TTL)];
      log := log + [Sent(command.operationId, command.attempt)];
    }

    method EmitEvent(entry: Entry, room: bool)
      modifies this`log, this`open
      ensures Now() == Emit(old(Now()), entry, room)
    {
      if room { log := log + [entry]; } else { open := false; }
    }

    method RejectServerEvent(room: bool)
      modifies this`log, this`open
      ensures Now() == Reject(old(Now()), room)
    {
      open := false;
      if room { log := log + [Notice]; }
    }

    method SendList(draw: nat, sends: bool, room: bool)
      modifies this`requests, this`log, this`open
      ensures Now() == Refresh(old(Now()), draw, sends, room)
    {
      if exists id :: id in requests && requests[id].List? {
        return;
      }
      if |requests| >= MAX_PENDING_REQUESTS {
        RejectServerEvent(room);
        return;
      }
      requests := requests[draw := List];
      if !sends {
        assert requests - {draw} == old(requests) - {draw};
        requests := requests - {draw};
        open := false;
      }
    }

    method SendStatusBatch(version: nat, batch: seq<Text>, remaining: seq<seq<Text>>, io: Surroundings)
      modifies this`requests, this`open
      ensures Now() == AskStatus(old(Now()), version, batch, remaining, io)
    {
      if |requests| >= MAX_PENDING_REQUESTS || batch == [] {
        open := false;
        return;
      }
      requests := requests[io.draw := Status(version, Elements(batch), remaining)];
      if !io.sends {
        assert requests - {io.draw} == old(requests) - {io.draw};
        requests := requests - {io.draw};
        open := false;
      }
    }

    method HandleServerEvent(envelope: ServerEnvelope, nowMs: nat, io: Surroundings)
      requires open
      modifies this
      ensures Now() == Handle(config, old(Now()), envelope, nowMs, io)
    {
      if envelope.headers != config.headers || AbsDiff(envelope.issuedAtMs, nowMs) > config.skewMs {
        RejectServerEvent(io.room > 0);
        return;
      }
      match envelope.event
      case CommandExecuted(id, attempt, ticket, deadline, results) => HandleReceipt(envelope, nowMs, io);
      case TargetOnline(id, attempt, host, observed) => HandleOnline(envelope, nowMs, io);
      case Hosts(version, ids) => HandleHosts(envelope, io);
      case Statuses(version, ids) => HandleStatuses(envelope, io);
      case Error(_) =>
        var known := envelope.requestId in requests || envelope.requestId in pending;
        requests := requests - {envelope.requestId};
        if known {
          EmitEvent(Notice, io.room > 0);
        } else {
          RejectServerEvent(io.room > 0);
        }
    }

    method HandleHosts(envelope: ServerEnvelope, io: Surroundings)
      requires open && envelope.event.Hosts?
      modifies this
      ensures Now() == HandleReply(old(Now()), envelope, io)
    {
      var id := envelope.requestId;
      var expected := id in requests && requests[id].List?;
      requests := requests - {id};
      if !expected {
        RejectServerEvent(io.room > 0);
        return;
      }
      EmitEvent(Notice, io.room > 0);
      if !open {
        return;
      }
      if envelope.event.hostIds != [] {
        var batches := Chunks(envelope.event.hostIds);
        SendStatusBatch(envelope.event.hostsVersion, batches[0], batches[1..], io);
        if !open && io.room > 1 {
          log := log + [Notice];
        }
      } else {
        EmitEvent(Notice, io.room > 1);
      }
    }

    method HandleStatuses(envelope: ServerEnvelope, io: Surroundings)
      requires open && envelope.event.Statuses?
      modifies this
      ensures Now() == HandleReply(old(Now()), envelope, io)
    {
      var id := envelope.requestId;
      var asked := if id in requests then Some(requests[id]) else None;
      requests := requests - {id};
      if asked.None? || !asked.value.Status? {
        RejectServerEvent(io.room > 0);
        return;
      }
      if asked.value.version != envelope.event.statusVersion ||
         Elements(envelope.event.statusIds) != asked.value.hosts
      {
        RejectServerEvent(io.room > 0);
        return;
      }
      EmitEvent(Notice, io.room > 0);
      if open && asked.value.remaining != [] {
        SendStatusBatch(asked.value.version, asked.value.remaining[0], asked.value.remaining[1..], io);
      }
    }

    method HandleReceipt(envelope: ServerEnvelope, nowMs: nat, io: Surroundings)
      requires envelope.event.CommandExecuted? && EnvelopeFits(config, envelope, nowMs)
      modifies this
      ensures Now() == Handle(config, old(Now()), envelope, nowMs, io)
    {
      var event := envelope.event;
      var id := event.operationId;
      if id !in pending { RejectServerEvent(io.room > 0); return; }
      var op := pending[id];
      if envelope.requestId != id || event.attempt != op.attempt { RejectServerEvent(io.room > 0); return; }
      if event.attempt == 2 && op.ticket != Some(event.retryTicket) { RejectServerEvent(io.room > 0); return; }
      if event.deadlineMs < SaturatingSub(nowMs, config.skewMs)
         || event.deadlineMs > SaturatingAdd(SaturatingAdd(nowMs, WAKE_WAIT_TIMEOUT), config.skewMs)
      {
        RejectServerEvent(io.room > 0);
        return;
      }
      if HostsOf(event.results) != op.targets { RejectServerEvent(io.room > 0); return; }
      if op.receiptSeen {
        pending := pending[id := op.(deadlineMs := Some(event.deadlineMs))];
        return;
      }
      if event.attempt == 1 { op := op.(ticket := Some(event.retryTicket)); }
      op := op.(acceptedTargets := Some(AcceptedOf(event.results)), receiptSeen := true);
      op := op.(deadlineMs := Some(event.deadlineMs));
      pending := pending[id := op];
      EmitEvent(Receipt(id, event.attempt, event.retryTicket, AcceptedOf(event.results)), io.room > 0);
    }

    method HandleOnline(envelope: ServerEnvelope, nowMs: nat, io: Surroundings)
      requires envelope.event.TargetOnline? && EnvelopeFits(config, envelope, nowMs)
      modifies this
      ensures Now() == Handle(config, old(Now()), envelope, nowMs, io)
    {
      var event := envelope.event;
      var id := event.onlineOperation;
      if id !in pending { RejectServerEvent(io.room > 0); return; }
      var op := pending[id];
      if envelope.requestId != id || event.onlineAttempt != op.attempt || op.acceptedTargets.None?
         || event.hostId !in op.acceptedTargets.value || !op.receiptSeen
      {
        RejectServerEvent(io.room > 0);
        return;
      }
      if !ObservationTimeValid(event.observedAtMs, op.deadlineMs, nowMs, config.skewMs) {
        RejectServerEvent(io.room > 0);
        return;
      }
      if event.hostId in op.online { return; }
      pending := pending[id := op.(online := op.online + {event.hostId})];
      EmitEvent(Online(id, event.onlineAttempt, event.hostId), io.room > 0);
    }
  }
}

module ActorRuns {
  import opened Common
  import opened Protocol
  import opened ActorSpec

  datatype Input =
    | Command(command: WakeCommand, at: int, sends: bool, commandRoom: bool)
    | Expiry(now: int)
    | SendList(draw: nat, listSends: bool, listRoom: bool)
    | FromServer(envelope: ServerEnvelope, nowMs: nat, io: Surroundings)

  /** Nothing happens any more on a closed connection. */
  function Follow(cfg: Config, a: Actor, input: Input): Actor {
    if !a.open then a
    else
      match input
      case Command(c, at, sends, room) => Submit(a, c, at, sends, room)
      case Expiry(now) => Expire(a, now)
      case SendList(draw, sends, room) => Refresh(a, draw, sends, room)
      case FromServer(e, nowMs, io) => Handle(cfg, a, e, nowMs, io)
  }

  const CONNECTED: Actor := Actor(map[], map[], [], true)

  /** `states` are the actor's states around the inputs. */
  ghost predicate IsRun(cfg: Config, states: seq<Actor>, inputs: seq<Input>) {
    |states| == |inputs| + 1 && forall i: nat :: i < |inputs| ==> FollowsAt(cfg, states, inputs, i)
  }

  predicate FollowsAt(cfg: Config, states: seq<Actor>, inputs: seq<Input>, i: nat)
    requires i < |inputs| && |states| == |inputs| + 1
  {
    states[i + 1] == Follow(cfg, states[i], inputs[i])
  }

  /** What the log says about an operation since its last submission. */
  datatype Account = Account(attempt: nat, accepted: Option<set<Text>>, online: set<Text>)

  function AccountOf(log: seq<Entry>, id: nat): Account {
    if log == [] then Account(0, None, {})
    else
      var before, e := AccountOf(log[..|log| - 1], id), log[|log| - 1];
      match e
      case Sent(operation, attempt) => if operation == id then Account(attempt, None, {}) else before
      case Receipt(operation, _, _, accepted) => if operation == id then before.(accepted := Some(accepted)) else before
      case Online(operation, _, host) => if operation == id then before.(online := before.online + {host}) else before
      case Notice => before
  }

  /** Every shown receipt is the first one since the submission it answers, and every shown online host was
      accepted by a shown receipt of that submission and was not shown since. */
  predicate WellFormed(log: seq<Entry>) {
    log == [] ||
    var before, e := log[..|log| - 1], log[|log| - 1];
    WellFormed(before) &&
    match e
    case Receipt(id, attempt, _, _) => AccountOf(before, id).accepted.None? && AccountOf(before, id).attempt == attempt
    case Online(id, attempt, host) =>
      var account := AccountOf(before, id);
      account.attempt == attempt && account.accepted.Some? && host in account.accepted.value && host !in account.online
    case _ => true
  }

  predicate Agrees(op: PendingOperation, account: Account) {
    && op.attempt == account.attempt
    && op.receiptSeen == account.accepted.Some?
    && op.acceptedTargets == account.accepted
    && op.online == account.online
  }

  ghost predicate Ok(a: Actor) {
    WellFormed(a.log) && (a.open ==> forall id :: id in a.pending ==> Agrees(a.pending[id], AccountOf(a.log, id)))
  }

  lemma Appended(log: seq<Entry>, e: Entry)
    ensures (log + [e])[..|log|] == log && (log + [e])[|log|] == e
  {
  }

  lemma SubmitKeepsOk(a: Actor, c: WakeCommand, now: int, sends: bool, room: bool)
    requires Ok(a) && a.open
    ensures Ok(Submit(a, c, now, sends, room))
  {
    Appended(a.log, Notice);
    Appended(a.log, Sent(c.operationId, c.attempt));
  }

  lemma ReceiptKeepsOk(cfg: Config, a: Actor, e: ServerEnvelope, nowMs: nat, io: Surroundings)
    requires Ok(a) && a.open && e.event.CommandExecuted?
    ensures Ok(Handle(cfg, a, e, nowMs, io))
  {
    hide EnvelopeFits, AcceptedOf, HostsOf;
    Appended(a.log, Notice);
    Appended(a.log, Receipt(e.event.operationId, e.event.attempt, e.event.retryTicket, AcceptedOf(e.event.results)));
  }

  lemma OnlineKeepsOk(cfg: Config, a: Actor, e: ServerEnvelope, nowMs: nat, io: Surroundings)
    requires Ok(a) && a.open && e.event.TargetOnline?
    ensures Ok(Handle(cfg, a, e, nowMs, io))
  {
    hide EnvelopeFits, ObservationTimeValid;
    Appended(a.log, Notice);
    Appended(a.log, Online(e.event.onlineOperation, e.event.onlineAttempt, e.event.hostId));
  }

  /** `more` follows `log` with nothing but notices. */
  predicate OnlyNotices(log: seq<Entry>, more: seq<Entry>) {
    more in {log, log + [Notice], log + [Notice] + [Notice]}
  }

  lemma NoticesKeepOk(a: Actor, b: Actor)
    requires Ok(a) && b.pending == a.pending && (b.open ==> a.open) && OnlyNotices(a.log, b.log)
    ensures Ok(b)
  {
    Appended(a.log, Notice);
    Appended(a.log + [Notice], Notice);
  }

  lemma AskingIsSilent(a: Actor, version: nat, batch: seq<Text>, remaining: seq<seq<Text>>, io: Surroundings)
    ensures var b := AskStatus(a, version, batch, remaining, io);
            b.pending == a.pending && (b.open ==> a.open) && b.log == a.log
  {
  }

  lemma HostsShowNotices(a: Actor, version: nat, ids: seq<Text>, io: Surroundings)
    ensures var b := ShowHosts(a, version, ids, io);
            b.pending == a.pending && (b.open ==> a.open) && OnlyNotices(a.log, b.log)
  {
    hide AskStatus, Chunks;
    AskingIsSilent(Emit(a, Notice, io.room > 0), version, Chunks(ids)[0], Chunks(ids)[1..], io);
  }

  lemma StatusesShowNotices(a: Actor, asked: Asked, io: Surroundings)
    requires asked.Status?
    ensures var b := ShowStatuses(a, asked, io);
            b.pending == a.pending && (b.open ==> a.open) && OnlyNotices(a.log, b.log)
  {
    hide AskStatus;
    if asked.remaining != [] {
      AskingIsSilent(Emit(a, Notice, io.room > 0), asked.version, asked.remaining[0], asked.remaining[1..], io);
    }
  }

  /** An answer to a list or status request, or an error, is shown as notices and leaves the operations alone. */
  lemma ReplyShowsNotices(a: Actor, e: ServerEnvelope, io: Surroundings)
    requires e.event.Hosts? || e.event.Statuses? || e.event.Error?
    ensures var b := HandleReply(a, e, io);
            b.pending == a.pending && (b.open ==> a.open) && OnlyNotices(a.log, b.log)
  {
    hide ShowHosts, ShowStatuses;
    var b := a.(requests := a.requests - {e.requestId});
    if e.event.Hosts? {
      HostsShowNotices(b, e.event.hostsVersion, e.event.hostIds, io);
    } else if e.requestId in a.requests && a.requests[e.requestId].Status? {
      StatusesShowNotices(b, a.requests[e.requestId], io);
    }
  }

  lemma FollowKeepsOk(cfg: Config, a: Actor, input: Input)
    requires Ok(a)
    ensures Ok(Follow(cfg, a, input))
  {
    if a.open {
      match input
      case Command(c, at, sends, room) => SubmitKeepsOk(a, c, at, sends, room);
      case Expiry(now) =>
      case SendList(draw, sends, room) => NoticesKeepOk(a, Refresh(a, draw, sends, room));
      case FromServer(e, nowMs, io) =>
        if e.event.CommandExecuted? {
          ReceiptKeepsOk(cfg, a, e, nowMs, io);
        } else if e.event.TargetOnline? {
          OnlineKeepsOk(cfg, a, e, nowMs, io);
        } else {
          ReplyShowsNotices(a, e, io);
          NoticesKeepOk(a, Handle(cfg, a, e, nowMs, io));
        }
    }
  }

  /** Outstanding work on a connection is bounded, and no more than one list request is outstanding. */
  ghost predicate Bounded(a: Actor) {
    && |a.pending| <= MAX_PENDING_OPERATIONS && |a.requests| <= MAX_PENDING_REQUESTS
    && forall i, j :: i in a.requests && j in a.requests && a.requests[i].List? && a.requests[j].List? ==> i == j
  }

  lemma FewerRequests(a: Actor, id: nat)
    ensures |a.requests - {id}| <= |a.requests|
  {
    SubsetCardinality((a.requests - {id}).Keys, a.requests.Keys);
  }

  lemma FewerOperations(a: Actor, now: int)
    ensures |Expire(a, now).pending| <= |a.pending|
  {
    SubsetCardinality(Expire(a, now).pending.Keys, a.pending.Keys);
  }

  lemma AskKeepsBounds(a: Actor, id: nat, asked: Asked, sends: bool)
    requires Bounded(a) && |a.requests| < MAX_PENDING_REQUESTS && (asked.List? ==> !Listing(a))
    ensures Bounded(Ask(a, id, asked, sends))
  {
    FewerRequests(a, id);
  }

  lemma StatusKeepsBounds(a: Actor, version: nat, batch: seq<Text>, remaining: seq<seq<Text>>, io: Surroundings)
    requires Bounded(a)
    ensures Bounded(AskStatus(a, version, batch, remaining, io))
  {
    hide Bounded, Ask;
    if |a.requests| < MAX_PENDING_REQUESTS && batch != [] {
      AskKeepsBounds(a, io.draw, Status(version, Elements(batch), remaining), io.sends);
    } else {
      ClosingKeepsBounds(a, a.(open := false));
    }
  }

  lemma ClosingKeepsBounds(a: Actor, b: Actor)
    requires Bounded(a) && b.pending == a.pending && b.requests == a.requests
    ensures Bounded(b)
  {
  }

  lemma HostsKeepBounds(a: Actor, version: nat, ids: seq<Text>, io: Surroundings)
    requires Bounded(a)
    ensures Bounded(ShowHosts(a, version, ids, io))
  {
    hide Bounded, AskStatus, Chunks;
    var b := Emit(a, Notice, io.room > 0);
    ClosingKeepsBounds(a, b);
    ClosingKeepsBounds(b, Emit(b, Notice, io.room > 1));
    var c := AskStatus(b, version, Chunks(ids)[0], Chunks(ids)[1..], io);
    StatusKeepsBounds(b, version, Chunks(ids)[0], Chunks(ids)[1..], io);
    ClosingKeepsBounds(c, Reject(c, io.room > 1));
  }

  lemma StatusesKeepBounds(a: Actor, asked: Asked, io: Surroundings)
    requires Bounded(a) && asked.Status?
    ensures Bounded(ShowStatuses(a, asked, io))
  {
    hide Bounded, AskStatus;
    var b := Emit(a, Notice, io.room > 0);
    ClosingKeepsBounds(a, b);
    if asked.remaining != [] {
      StatusKeepsBounds(b, asked.version, asked.remaining[0], asked.remaining[1..], io);
    }
  }

  lemma WithoutRequestKeepsBounds(a: Actor, id: nat)
    requires Bounded(a)
    ensures Bounded(a.(requests := a.requests - {id}))
  {
    FewerRequests(a, id);
  }

  lemma ShowingKeepsBounds(a: Actor, room: bool)
    requires Bounded(a)
    ensures Bounded(Emit(a, Notice, room)) && Bounded(Reject(a, room))
  {
  }

  lemma ReplyKeepsBounds(a: Actor, e: ServerEnvelope, io: Surroundings)
    requires Bounded(a) && (e.event.Hosts? || e.event.Statuses? || e.event.Error?)
    ensures Bounded(HandleReply(a, e, io))
  {
    var id := e.requestId;
    var b := a.(requests := a.requests - {id});
    WithoutRequestKeepsBounds(a, id);
    hide Bounded, ShowHosts, ShowStatuses, Emit, Reject;
    ShowingKeepsBounds(b, io.room > 0);
    if e.event.Hosts? {
      HostsKeepBounds(b, e.event.hostsVersion, e.event.hostIds, io);
    } else if id in a.requests && a.requests[id].Status? {
      StatusesKeepBounds(b, a.requests[id], io);
    }
  }

  /** A submission adds at most one operation, and only when there is room for it. */
  lemma SubmitKeepsBounds(a: Actor, c: WakeCommand, now: int, sends: bool, room: bool)
    requires Bounded(a)
    ensures Bounded(Submit(a, c, now, sends, room))
  {
    hide NewOperation;
    var b := Submit(a, c, now, sends, room);
    assert b.pending.Keys == a.pending.Keys || b.pending.Keys == a.pending.Keys + {c.operationId};
    assert |b.pending| == |b.pending.Keys|;
  }

  /** A receipt or an online report changes an operation in place. */
  lemma ReportKeepsBounds(cfg: Config, a: Actor, e: ServerEnvelope, nowMs: nat, io: Surroundings)
    requires Bounded(a) && (e.event.CommandExecuted? || e.event.TargetOnline?)
    ensures Bounded(Handle(cfg, a, e, nowMs, io))
  {
    hide EnvelopeFits, ReceiptFits, OnlineFits, AcceptedOf, HandleReply;
    assert Handle(cfg, a, e, nowMs, io).pending.Keys == a.pending.Keys;
  }

  lemma FollowKeepsBounds(cfg: Config, a: Actor, input: Input)
    requires Bounded(a)
    ensures Bounded(Follow(cfg, a, input))
  {
    if a.open {
      match input
      case Command(c, at, sends, room) => SubmitKeepsBounds(a, c, at, sends, room);
      case Expiry(now) => FewerOperations(a, now);
      case SendList(draw, sends, room) =>
        if !Listing(a) && |a.requests| < MAX_PENDING_REQUESTS {
          AskKeepsBounds(a, draw, List, sends);
        }
      case FromServer(e, nowMs, io) =>
        if e.event.CommandExecuted? || e.event.TargetOnline? {
          ReportKeepsBounds(cfg, a, e, nowMs, io);
        } else {
          hide HandleReply;
          ShowingKeepsBounds(a, io.room > 0);
          ReplyKeepsBounds(a, e, io);
        }
    }
  }

  /** After any inputs at most 32 operations, 16 requests and one list request are outstanding. */
  lemma {:induction false} OutstandingWorkIsBounded(cfg: Config, states: seq<Actor>, inputs: seq<Input>, k: nat)
    requires IsRun(cfg, states, inputs) && states[0] == CONNECTED && k <= |inputs|
    ensures Bounded(states[k])
  {
    hide Follow, Bounded;
    if k == 0 {
      ConnectedIsBounded();
    } else {
      OutstandingWorkIsBounded(cfg, states, inputs, k - 1);
      assert FollowsAt(cfg, states, inputs, k - 1);
      FollowKeepsBounds(cfg, states[k - 1], inputs[k - 1]);
    }
  }

  lemma ConnectedIsBounded()
    ensures Bounded(CONNECTED)
  {
  }

  /** The input is the server envelope that a shown receipt or online host repeats. */
  predicate Repeats(entry: Entry, input: Input) {
    input.FromServer? &&
    match input.envelope.event
    case CommandExecuted(id, attempt, ticket, _, results) => entry == Receipt(id, attempt, ticket, AcceptedOf(results))
    case TargetOnline(id, attempt, host, _) => entry == Online(id, attempt, host)
    case _ => false
  }

  predicate Reports(entry: Entry) { entry.Receipt? || entry.Online? }

  lemma InputShows(cfg: Config, a: Actor, input: Input, i: nat)
    ensures var log := Follow(cfg, a, input).log;
            |a.log| <= i < |log| && Reports(log[i]) ==> Repeats(log[i], input)
  {
    if input.FromServer? && !input.envelope.event.CommandExecuted? && !input.envelope.event.TargetOnline? {
      ReplyShowsNotices(a, input.envelope, input.io);
    }
  }

  lemma InputExtendsLog(cfg: Config, a: Actor, input: Input)
    ensures a.log <= Follow(cfg, a, input).log
  {
    if input.FromServer? && !input.envelope.event.CommandExecuted? && !input.envelope.event.TargetOnline? {
      ReplyShowsNotices(a, input.envelope, input.io);
    }
  }

  /** The actor only filters: a receipt or an online host it shows is one that a server envelope carried. */
  lemma {:induction false} ShownEventWasReceived(cfg: Config, states: seq<Actor>, inputs: seq<Input>, k: nat, i: nat)
    returns (r: nat)
    requires IsRun(cfg, states, inputs) && states[0] == CONNECTED && k <= |inputs|
    requires i < |states[k].log| && Reports(states[k].log[i])
    ensures r < k && Repeats(states[k].log[i], inputs[r])
  {
    hide Follow;
    assert k > 0 && FollowsAt(cfg, states, inputs, k - 1);
    InputExtendsLog(cfg, states[k - 1], inputs[k - 1]);
    if i < |states[k - 1].log| {
      r := ShownEventWasReceived(cfg, states, inputs, k - 1, i);
    } else {
      InputShows(cfg, states[k - 1], inputs[k - 1], i);
      r := k - 1;
    }
  }

  /** What the front end is shown is well formed after any inputs. */
  lemma {:induction false} ShownEventsAreWellFormed(cfg: Config, states: seq<Actor>, inputs: seq<Input>, k: nat)
    requires IsRun(cfg, states, inputs) && states[0] == CONNECTED && k <= |inputs|
    ensures Ok(states[k])
  {
    if k == 0 {
    } else {
      hide Follow, Ok;
      ShownEventsAreWellFormed(cfg, states, inputs, k - 1);
      assert FollowsAt(cfg, states, inputs, k - 1);
      FollowKeepsOk(cfg, states[k - 1], inputs[k - 1]);
    }
  }

  /** The shown receipt that the account of an operation rests on. */
  lemma {:induction false} LastReceipt(log: seq<Entry>, id: nat) returns (j: nat)
    requires WellFormed(log) && AccountOf(log, id).accepted.Some?
    ensures j < |log| && log[j].Receipt? && log[j].receiptOperation == id
    ensures log[j].receiptAttempt == AccountOf(log, id).attempt && log[j].accepted == AccountOf(log, id).accepted.value
    ensures forall k :: j < k < |log| ==> !(log[k].Sent? && log[k].operationId == id)
    ensures forall k :: j < k < |log| && log[k].Online? && log[k].onlineOperation == id ==>
              log[k].host in AccountOf(log, id).online
  {
    var n := |log| - 1;
    var before, e := log[..n], log[n];
    if e.Receipt? && e.receiptOperation == id {
      j := n;
    } else {
      j := LastReceipt(before, id);
      assert forall k :: j < k < n ==> log[k] == before[k];
    }
  }

  lemma {:induction false} PrefixIsWellFormed(log: seq<Entry>, i: nat)
    requires WellFormed(log) && i <= |log|
    ensures WellFormed(log[..i])
  {
    if i < |log| {
      PrefixIsWellFormed(log[..|log| - 1], i);
      assert log[..|log| - 1][..i] == log[..i];
    } else {
      assert log[..i] == log;
    }
  }

  /** A host is shown online only after a receipt of the same attempt that accepts it was shown, with no
      submission in between, and at most once since that receipt. */
  lemma OnlineFollowsItsReceipt(cfg: Config, states: seq<Actor>, inputs: seq<Input>, k: nat, i: nat) returns (j: nat)
    requires IsRun(cfg, states, inputs) && states[0] == CONNECTED && k <= |inputs|
    requires i < |states[k].log| && states[k].log[i].Online?
    ensures var log := states[k].log;
            && j < i && log[j].Receipt?
            && log[j].receiptOperation == log[i].onlineOperation && log[j].receiptAttempt == log[i].onlineAttempt
            && log[i].host in log[j].accepted
            && forall m :: j < m < i ==>
                 && !(log[m].Sent? && log[m].operationId == log[i].onlineOperation)
                 && !(log[m].Online? && log[m].onlineOperation == log[i].onlineOperation && log[m].host == log[i].host)
  {
    hide Follow;
    ShownEventsAreWellFormed(cfg, states, inputs, k);
    var log := states[k].log;
    PrefixIsWellFormed(log, i + 1);
    assert log[..i + 1][..i] == log[..i];
    j := LastReceipt(log[..i], log[i].onlineOperation);
    assert forall m :: 0 <= m < i ==> log[..i][m] == log[m];
  }
}

/** What the server builds passes what the client checks. */
module Agreement {
  import opened Common
  import opened Timing
  import opened Protocol
  import opened ActorSpec
  import opened ActorRuns
  import WakeServer

  /** A receipt for the hosts of a request, built at wall time `built` and sent at wall time `sent`. */
  function Envelope(cfg: Config, operationId: nat, attempt: nat, ticket: nat, built: nat, sent: nat,
                    results: seq<WakeResult>)
    : ServerEnvelope
  {
    ServerEnvelope(operationId, sent, cfg.headers,
                   WakeServer.ReceiptEvent(operationId, attempt, ticket, built, results))
  }

  /** A submission of the operation, or the server's answer to one. */
  predicate Concerns(input: Input, id: nat) {
    match input
    case Command(c, _, _, _) => c.operationId == id
    case Expiry(_) => false
    case SendList(_, _, _) => false
    case FromServer(e, _, _) =>
      || (e.event.CommandExecuted? && e.event.operationId == id)
      || (e.event.TargetOnline? && e.event.onlineOperation == id)
  }

  /** Traffic of other operations, before `until`. */
  predicate Unrelated(inputs: seq<Input>, id: nat, until: int) {
    forall input :: input in inputs ==> !Concerns(input, id) && (input.Expiry? ==> input.now < until)
  }

  lemma {:induction false} UnrelatedTrafficKeepsTheOperation(cfg: Config, states: seq<Actor>, inputs: seq<Input>,
                                                             id: nat, k: nat)
    requires IsRun(cfg, states, inputs) && k <= |inputs|
    requires id in states[0].pending && Unrelated(inputs, id, states[0].pending[id].expiresAt)
    ensures states[k].open ==>
              states[0].open && id in states[k].pending && states[k].pending[id] == states[0].pending[id]
  {
    hide Follow, Concerns;
    if k == 0 {
    } else {
      UnrelatedTrafficKeepsTheOperation(cfg, states, inputs, id, k - 1);
      assert inputs[k - 1] in inputs && FollowsAt(cfg, states, inputs, k - 1);
      OneInputKeepsTheOperation(cfg, states[k - 1], inputs[k - 1], id);
    }
  }

  lemma OneInputKeepsTheOperation(cfg: Config, a: Actor, input: Input, id: nat)
    requires a.open ==> id in a.pending && (input.Expiry? ==> input.now < a.pending[id].expiresAt)
    requires !Concerns(input, id)
    ensures var b := Follow(cfg, a, input); b.open ==> a.open && id in b.pending && b.pending[id] == a.pending[id]
  {
    hide HandleReply;
    if input.FromServer? && !input.envelope.event.CommandExecuted? && !input.envelope.event.TargetOnline? {
      ReplyShowsNotices(a, input.envelope, input.io);
    }
  }

  /** Clocks and transit stay within the skew, and the receipt is not older than the observation window. */
  predicate ClocksAgree(cfg: Config, built: nat, sent: nat, nowMs: nat) {
    && AbsDiff(sent, nowMs) <= cfg.skewMs
    && built <= nowMs + cfg.skewMs && nowMs <= built + MONITOR_TIMEOUT + cfg.skewMs
  }

  /**
   * The first answer to a submission, however much traffic of other operations lies between, is shown
   * exactly when the clocks agree; otherwise it closes the connection. Of the results only the set of hosts
   * matters, not their order.
   */
  lemma ReceiptIsShownIffClocksAgree(cfg: Config, a: Actor, command: WakeCommand, submittedAt: int,
                                     states: seq<Actor>, between: seq<Input>,
                                     ticket: nat, built: nat, sent: nat, results: seq<WakeResult>, nowMs: nat,
                                     io: Surroundings)
    requires a.open && !Refused(a, command) && io.room > 0
    requires command.attempt == 2 ==> command.retryTicket == Some(ticket)
    requires HostsOf(results) == Elements(command.hostIds)
    requires Unrelated(between, command.operationId, submittedAt + PENDING_OPERATION_TTL)
    requires IsRun(cfg, states, between) && states[|between|].open
    requires states[0] == Submit(a, command, submittedAt, true, true)
    requires nowMs + WAKE_WAIT_TIMEOUT + cfg.skewMs <= U64_MAX && built + MONITOR_TIMEOUT <= U64_MAX
    ensures var b := states[|between|];
            var e := Envelope(cfg, command.operationId, command.attempt, ticket, built, sent, results);
            var c := Handle(cfg, b, e, nowMs, io);
            if ClocksAgree(cfg, built, sent, nowMs)
            then c.open && c.log == b.log + [Receipt(command.operationId, command.attempt, ticket, AcceptedOf(results))]
            else !c.open && c.log == b.log + [Notice]
  {
    hide Follow;
    UnrelatedTrafficKeepsTheOperation(cfg, states, between, command.operationId, |between|);
  }

  /** So every receipt that the server builds for the request, of a dispatch or of a refusal, passes all checks. */
  lemma ServerReceiptIsShown(cfg: Config, a: Actor, command: WakeCommand, submittedAt: int,
                             states: seq<Actor>, between: seq<Input>,
                             ticket: nat, built: nat, sent: nat, results: seq<WakeResult>, nowMs: nat, io: Surroundings)
    requires a.open && !Refused(a, command) && io.room > 0
    requires command.attempt == 2 ==> command.retryTicket == Some(ticket)
    requires WakeServer.BuiltFor(results, command.hostIds)
    requires Unrelated(between, command.operationId, submittedAt + PENDING_OPERATION_TTL)
    requires IsRun(cfg, states, between) && states[|between|].open
    requires states[0] == Submit(a, command, submittedAt, true, true)
    requires nowMs + WAKE_WAIT_TIMEOUT + cfg.skewMs <= U64_MAX && built + MONITOR_TIMEOUT <= U64_MAX
    requires ClocksAgree(cfg, built, sent, nowMs)
    ensures var b := states[|between|];
            var e := Envelope(cfg, command.operationId, command.attempt, ticket, built, sent, results);
            var c := Handle(cfg, b, e, nowMs, io);
            c.open && c.log == b.log + [Receipt(command.operationId, command.attempt, ticket, AcceptedOf(results))]
  {
    hide Handle, Submit, IsRun, Unrelated, Refused, ClocksAgree;
    WakeServer.ReceiptNamesTheHosts(results, command.hostIds);
    ReceiptIsShownIffClocksAgree(cfg, a, command, submittedAt, states, between,
                                 ticket, built, sent, results, nowMs, io);
  }

  /**
   * Between a submission and its receipt an online report of the operation, of whichever attempt, closes the
   * connection. So a report of attempt 1 that is under way when attempt 2 is submitted is lost.
   */
  lemma EarlyReportClosesTheConnection(cfg: Config, a: Actor, command: WakeCommand, submittedAt: int,
                                       states: seq<Actor>, between: seq<Input>,
                                       attempt: nat, host: Text, observed: nat, sent: nat, nowMs: nat, io: Surroundings)
    requires a.open && !Refused(a, command)
    requires Unrelated(between, command.operationId, submittedAt + PENDING_OPERATION_TTL)
    requires IsRun(cfg, states, between) && states[0] == Submit(a, command, submittedAt, true, true)
    ensures var b := states[|between|];
            var e := ServerEnvelope(command.operationId, sent, cfg.headers,
                                    TargetOnline(command.operationId, attempt, host, observed));
            b.open ==> !Handle(cfg, b, e, nowMs, io).open
  {
    hide Follow;
    UnrelatedTrafficKeepsTheOperation(cfg, states, between, command.operationId, |between|);
  }

  // ----- When a report is taken -----

  /** The input puts a submission of the operation on the wire. */
  predicate Submits(a: Actor, input: Input, id: nat) {
    input.Command? && input.command.operationId == id && input.sends && !Refused(a, input.command)
  }

  /** The input does not drop the operation for its age. */
  predicate Spares(a: Actor, input: Input, id: nat) {
    input.Expiry? && id in a.pending ==> input.now < a.pending[id].expiresAt
  }

  /** The receipt of the attempt was taken, with these accepted hosts. */
  predicate Reported(op: PendingOperation, attempt: nat, accepted: set<Text>) {
    op.attempt == attempt && op.receiptSeen && op.acceptedTargets == Some(accepted)
  }

  /** An input leaves the operation at its attempt, or a submission moves it to a later one for good. */
  lemma InputMovesAttempt(cfg: Config, a: Actor, input: Input, id: nat, attempt: nat, accepted: set<Text>)
    requires a.open && Follow(cfg, a, input).open && Spares(a, input, id) && id in a.pending
    requires Reported(a.pending[id], attempt, accepted) || a.pending[id].attempt > attempt
    ensures var b := Follow(cfg, a, input);
            && id in b.pending
            && if Reported(a.pending[id], attempt, accepted) && !Submits(a, input, id)
               then Reported(b.pending[id], attempt, accepted) else b.pending[id].attempt > attempt
  {
    hide HandleReply;
    if input.FromServer? && !input.envelope.event.CommandExecuted? && !input.envelope.event.TargetOnline? {
      ReplyShowsNotices(a, input.envelope, input.io);
    }
  }

  lemma ClosedStaysClosed(cfg: Config, a: Actor, input: Input)
    ensures Follow(cfg, a, input).open ==> a.open
  {
  }

  /** No submission of the operation was put on the wire by the first `k` inputs. */
  predicate Unsubmitted(states: seq<Actor>, inputs: seq<Input>, id: nat, k: nat)
    requires k <= |inputs| <= |states|
  {
    forall i: nat :: i < k ==> !Submits(states[i], inputs[i], id)
  }

  ghost predicate NeverLapses(states: seq<Actor>, inputs: seq<Input>, id: nat)
    requires |inputs| <= |states|
  {
    forall i: nat :: i < |inputs| ==> Spares(states[i], inputs[i], id)
  }

  lemma {:induction false} AttemptAlong(cfg: Config, states: seq<Actor>, inputs: seq<Input>, id: nat,
                                        attempt: nat, accepted: set<Text>, k: nat)
    requires IsRun(cfg, states, inputs) && NeverLapses(states, inputs, id) && k <= |inputs| && states[k].open
    requires id in states[0].pending && Reported(states[0].pending[id], attempt, accepted)
    ensures id in states[k].pending
    ensures if Unsubmitted(states, inputs, id, k) then Reported(states[k].pending[id], attempt, accepted)
            else states[k].pending[id].attempt > attempt
  {
    hide Follow, Submits, Spares, Reported;
    if k == 0 {
      assert Unsubmitted(states, inputs, id, 0);
    } else {
      assert FollowsAt(cfg, states, inputs, k - 1) && Spares(states[k - 1], inputs[k - 1], id);
      ClosedStaysClosed(cfg, states[k - 1], inputs[k - 1]);
      AttemptAlong(cfg, states, inputs, id, attempt, accepted, k - 1);
      LaterIsNotReported(states[k - 1].pending[id], attempt, accepted);
      InputMovesAttempt(cfg, states[k - 1], inputs[k - 1], id, attempt, accepted);
      assert Unsubmitted(states, inputs, id, k) <==>
             Unsubmitted(states, inputs, id, k - 1) && !Submits(states[k - 1], inputs[k - 1], id);
    }
  }

  lemma LaterIsNotReported(op: PendingOperation, attempt: nat, accepted: set<Text>)
    ensures op.attempt > attempt ==> !Reported(op, attempt, accepted)
  {
  }

  /** The report of an online host of one attempt. */
  function Report(cfg: Config, id: nat, attempt: nat, host: Text, observed: nat, sent: nat): ServerEnvelope {
    ServerEnvelope(id, sent, cfg.headers, TargetOnline(id, attempt, host, observed))
  }

  /** The observation time passes against the deadline that the client holds for the attempt. */
  predicate OnTime(cfg: Config, a: Actor, id: nat, attempt: nat, observed: nat, nowMs: nat) {
    id in a.pending && a.pending[id].attempt == attempt ==>
      ObservationTimeValid(observed, a.pending[id].deadlineMs, nowMs, cfg.skewMs)
  }

  lemma ReportOfAttempt(cfg: Config, a: Actor, id: nat, attempt: nat, accepted: set<Text>, host: Text,
                        observed: nat, sent: nat, nowMs: nat, io: Surroundings)
    requires a.open && id in a.pending && host in accepted && io.room > 0
    requires AbsDiff(sent, nowMs) <= cfg.skewMs && OnTime(cfg, a, id, attempt, observed, nowMs)
    requires Reported(a.pending[id], attempt, accepted) || a.pending[id].attempt > attempt
    ensures var b := Handle(cfg, a, Report(cfg, id, attempt, host, observed, sent), nowMs, io);
            if a.pending[id].attempt > attempt then !b.open
            else if host in a.pending[id].online then b == a
            else b.open && b.log == a.log + [Online(id, attempt, host)]
  {
  }

  /**
   * Which reports are taken, exactly. The client took the receipt of an attempt that accepts `host`; then any
   * inputs followed that kept the connection open and the operation alive. A report of that host for that
   * attempt, timely and under clocks that agree, is taken if and only if no submission of the operation was put
   * on the wire since; it then shows the host unless it is shown already. Otherwise it closes the connection:
   * so a report of attempt 1 is lost whenever it arrives after attempt 2 was submitted.
   */
  lemma ReportIsTakenExactly(cfg: Config, states: seq<Actor>, inputs: seq<Input>, id: nat, attempt: nat,
                             host: Text, observed: nat, sent: nat, nowMs: nat, io: Surroundings)
    requires IsRun(cfg, states, inputs) && NeverLapses(states, inputs, id) && states[|inputs|].open && io.room > 0
    requires id in states[0].pending && states[0].pending[id].acceptedTargets.Some?
    requires Reported(states[0].pending[id], attempt, states[0].pending[id].acceptedTargets.value)
    requires host in states[0].pending[id].acceptedTargets.value
    requires AbsDiff(sent, nowMs) <= cfg.skewMs && OnTime(cfg, states[|inputs|], id, attempt, observed, nowMs)
    ensures var a := states[|inputs|];
            var b := Handle(cfg, a, Report(cfg, id, attempt, host, observed, sent), nowMs, io);
            && id in a.pending
            && (b.open <==> forall i: nat :: i < |inputs| ==> !Submits(states[i], inputs[i], id))
            && (b.open ==> b.log == a.log + if host in a.pending[id].online then [] else [Online(id, attempt, host)])
  {
    hide Follow, Handle, Submits, Spares, Reported, OnTime;
    var a, accepted := states[|inputs|], states[0].pending[id].acceptedTargets.value;
    AttemptAlong(cfg, states, inputs, id, attempt, accepted, |inputs|);
    LaterIsNotReported(a.pending[id], attempt, accepted);
    ReportedAttempt(a.pending[id], attempt, accepted);
    ReportOfAttempt(cfg, a, id, attempt, accepted, host, observed, sent, nowMs, io);
    assert a.log + [] == a.log;
  }

  lemma ReportedAttempt(op: PendingOperation, attempt: nat, accepted: set<Text>)
    ensures Reported(op, attempt, accepted) ==> op.attempt == attempt
  {
  }

  /** While that operation waits for hosts, an accepted host that the server observed after it built the receipt and
      within its observation window is shown, if the clocks agree within the skew and the event does not outlive
      the deadline by more than the skew. */
  lemma AcceptedHostIsShown(cfg: Config, a: Actor, id: nat, host: Text, built: nat, observed: nat, sent: nat,
                            nowMs: nat, io: Surroundings)
    requires a.open && id in a.pending && io.room > 0
    requires var op := a.pending[id];
             && op.receiptSeen && op.acceptedTargets.Some? && host in op.acceptedTargets.value && host !in op.online
             && op.deadlineMs == Some(SaturatingAdd(built, MONITOR_TIMEOUT))
    requires 0 < built <= observed < built + MONITOR_TIMEOUT
    requires AbsDiff(sent, nowMs) <= cfg.skewMs && observed <= sent
    requires nowMs <= built + MONITOR_TIMEOUT + cfg.skewMs <= U64_MAX && nowMs + cfg.skewMs <= U64_MAX
    ensures var e := ServerEnvelope(id, sent, cfg.headers, TargetOnline(id, a.pending[id].attempt, host, observed));
            var b := Handle(cfg, a, e, nowMs, io);
            b.open && b.log == a.log + [Online(id, a.pending[id].attempt, host)]
  {
  }
}
