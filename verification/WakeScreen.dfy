// The wake state machine of the terminal client (src/tui.rs).

module ScreenSpec {
  import opened Common
  import opened Timing
  import opened Protocol
  import P = ProgressSpec

  datatype ActualWake = ActualWake(
    operationId: nat, bootNonce: nat, catalogVersion: nat, targets: seq<Text>,
    progress: P.View, attempt: nat, ticket: Option<nat>,
    receipt: bool, finished: bool, receiptDeadline: int, deadline: int)

  /** `client` says that the screen holds a client handle, `onWake` that the wake page is shown. */
  datatype Screen = Screen(wake: Option<ActualWake>, connected: bool, client: bool, onWake: bool)

  function CommandFor(w: ActualWake, attempt: nat, ticket: Option<nat>): WakeCommand {
    WakeCommand(w.targets, w.catalogVersion, w.operationId, w.bootNonce, attempt, ticket)
  }

  function FirstWake(operationId: nat, bootNonce: nat, catalogVersion: nat, targets: seq<Text>, now: int): ActualWake {
    ActualWake(operationId, bootNonce, catalogVersion, targets, P.Begin(now), 1, None,
               false, false, now + RECEIPT_TIMEOUT, now + WAKE_WAIT_TIMEOUT)
  }

  /** `start_wake`: `alive` says whether the client actor still takes commands. */
  function Start(s: Screen, targets: seq<Text>, catalogVersion: nat, operationId: nat, bootNonce: nat, now: int,
                 alive: bool)
    : (Screen, Option<WakeCommand>)
  {
    if !s.connected || !s.client || targets == [] || |targets| > MAX_WAKE_TARGETS || catalogVersion == 0 || !alive
    then (s, None)
    else
      var w := FirstWake(operationId, bootNonce, catalogVersion, targets, now);
      (s.(wake := Some(w), onWake := true), Some(CommandFor(w, 1, None)))
  }

  predicate Unfinished(s: Screen) {
    s.wake.Some? && !s.wake.value.finished
  }

  predicate RecoveryOver(s: Screen, now: int) {
    Unfinished(s) && !P.CanRecover(s.wake.value.progress, now)
  }

  function Finished(s: Screen): Screen
    requires s.wake.Some?
  {
    s.(wake := Some(s.wake.value.(finished := true)))
  }

  /** Leaves the wake page and forgets the operation. */
  function Dropped(s: Screen): Screen {
    s.(wake := None, onWake := false)
  }

  predicate AsksForSecondAttempt(s: Screen, now: int, alive: bool) {
    && Unfinished(s) && P.CanRecover(s.wake.value.progress, now)
    && s.onWake && s.connected && s.client && alive
    && s.wake.value.receipt && now >= s.wake.value.deadline
    && s.wake.value.attempt == 1 && s.wake.value.ticket.Some?
  }

  function SecondWake(w: ActualWake, now: int): ActualWake {
    w.(attempt := 2, receipt := false, progress := P.Begin(now),
       receiptDeadline := now + RECEIPT_TIMEOUT, deadline := now + WAKE_WAIT_TIMEOUT)
  }

  function Tick(s: Screen, now: int, alive: bool): (Screen, Option<WakeCommand>) {
    if RecoveryOver(s, now) then (Finished(s), None)
    else if !Unfinished(s) || !s.onWake || !s.connected then (s, None)
    else
      var w := s.wake.value;
      if !w.receipt then (if now >= w.receiptDeadline then Dropped(s) else s, None)
      else if now < w.deadline then (s, None)
      else if AsksForSecondAttempt(s, now, alive) then
        (s.(wake := Some(SecondWake(w, now))), Some(CommandFor(w, 2, w.ticket)))
      else (Dropped(s), None)
  }

  /** The `Connected` event: the attempt in progress is submitted again. */
  function Connected(s: Screen, now: int, alive: bool): (Screen, Option<WakeCommand>) {
    var c := s.(connected := true);
    if RecoveryOver(c, now) then (Finished(c), None)
    else if !Unfinished(c) then (c, None)
    else
      var w := c.wake.value;
      if (w.attempt == 2 && w.ticket.None?) || !c.client || !alive then (c, None)
      else
        (c.(wake := Some(w.(receipt := false, receiptDeadline := now + RECEIPT_TIMEOUT))),
         Some(CommandFor(w, w.attempt, if w.attempt == 2 then w.ticket else None)))
  }

  predicate TakesReceipt(s: Screen, operationId: nat, attempt: nat) {
    Unfinished(s) && s.wake.value.operationId == operationId && s.wake.value.attempt == attempt
  }

  function Receipt(s: Screen, operationId: nat, attempt: nat, ticket: nat, results: seq<WakeResult>, now: int): Screen {
    if !TakesReceipt(s, operationId, attempt) then s
    else
      var w := s.wake.value;
      var p := P.Receive(w.progress, results, now);
      s.(wake := Some(w.(receipt := true, ticket := Some(ticket), progress := p, deadline := p.deadline,
                         finished := p.accepted == {})))
  }

  function Online(s: Screen, operationId: nat, attempt: nat, host: Text): Screen {
    if s.wake.None? || s.wake.value.operationId != operationId || s.wake.value.attempt != attempt
       || !P.Observe(s.wake.value.progress, host).1
    then s
    else
      var w := s.wake.value;
      var p := P.Observe(w.progress, host).0;
      s.(wake := Some(w.(progress := p,
                         finished := w.finished || P.OutcomeOf(p, w.targets) in {P.Complete, P.Partial})))
  }

  function Disconnected(s: Screen): Screen {
    s.(client := false, connected := false)
  }
}

module ScreenObject {
  import opened Common
  import opened Timing
  import opened Protocol
  import opened ScreenSpec

  class WakeScreen {
    var wake: Option<ActualWake>
    var connected: bool
    var client: bool
    var onWake: bool
    var sent: seq<WakeCommand>  // everything handed to the client actor

    function Now(): Screen
      reads this
    {
      Screen(wake, connected, client, onWake)
    }

    function Sending(command: Option<WakeCommand>): seq<WakeCommand> {
      if command.Some? then [command.value] else []
    }

    method StartWake(targets: seq<Text>, catalogVersion: nat, operationId: nat, bootNonce: nat, now: int, alive: bool)
      modifies this
      ensures var (s, c) := Start(old(Now()), targets, catalogVersion, operationId, bootNonce, now, alive);
              Now() == s && sent == old(sent) + Sending(c)
    {
      if !connected || !client || targets == [] || |targets| > MAX_WAKE_TARGETS || catalogVersion == 0 || !alive {
        return;
      }
      sent := sent + [WakeCommand(targets, catalogVersion, operationId, bootNonce, 1, None)];
      onWake := true;
      wake := Some(ActualWake(operationId, bootNonce, catalogVersion, targets, P.Begin(now), 1, None,
                              false, false, now + RECEIPT_TIMEOUT, now + WAKE_WAIT_TIMEOUT));
    }

    method ExpireWakeRecovery(now: int) returns (expired: bool)
      modifies this`wake
      ensures expired == RecoveryOver(old(Now()), now)
      ensures Now() == if expired then Finished(old(Now())) else old(Now())
    {
      if wake.None? || wake.value.finished { return false; }
      if P.CanRecover(wake.value.progress, now) { return false; }
      wake := Some(wake.value.(finished := true));
      return true;
    }

    method TickWake(now: int, alive: bool)
      modifies this
      ensures var (s, c) := Tick(old(Now()), now, alive); Now() == s && sent == old(sent) + Sending(c)
    {
      var expired := ExpireWakeRecovery(now);
      if expired || wake.None? { return; }
      var w := wake.value;
      if w.finished || !onWake { return; }
      if !connected { return; }
      if !w.receipt && now >= w.receiptDeadline {
        onWake, wake := false, None;
        return;
      }
      if w.receipt && now >= w.deadline {
        if w.attempt == 1 {
          if w.ticket.None? || !client || !alive {
            onWake, wake := false, None;
            return;
          }
          sent := sent + [WakeCommand(w.targets, w.catalogVersion, w.operationId, w.bootNonce, 2, w.ticket)];
          w := w.(attempt := 2, receipt := false, progress := P.Begin(now));
          w := w.(receiptDeadline := now + RECEIPT_TIMEOUT, deadline := now + WAKE_WAIT_TIMEOUT);
          wake := Some(w);
        } else {
          onWake, wake := false, None;
        }
      }
    }

    method ResumeWakeAfterReconnect(now: int, alive: bool)
      modifies this
      ensures var (s, c) := Connected(old(Now()), now, alive);
              old(connected) ==> Now() == s && sent == old(sent) + Sending(c)
      ensures connected == old(connected)
    {
      var expired := ExpireWakeRecovery(now);
      if expired || wake.None? || wake.value.finished { return; }
      var w := wake.value;
      var retryTicket := None;
      if w.attempt == 2 {
        if w.ticket.None? { return; }
        retryTicket := w.ticket;
      }
      if !client || !alive { return; }
      sent := sent + [WakeCommand(w.targets, w.catalogVersion, w.operationId, w.bootNonce, w.attempt, retryTicket)];
      wake := Some(w.(receipt := false, receiptDeadline := now + RECEIPT_TIMEOUT));
    }

    method OnConnected(now: int, alive: bool)
      modifies this
      ensures var (s, c) := Connected(old(Now()), now, alive); Now() == s && sent == old(sent) + Sending(c)
    {
      connected := true;
      ResumeWakeAfterReconnect(now, alive);
    }

    method OnReceipt(operationId: nat, attempt: nat, ticket: nat, results: seq<WakeResult>, now: int)
      modifies this`wake
      ensures Now() == Receipt(old(Now()), operationId, attempt, ticket, results, now)
    {
      if wake.None? { return; }
      var w := wake.value;
      if w.operationId != operationId || w.attempt != attempt || w.finished { return; }
      w := w.(receipt := true, ticket := Some(ticket), progress := P.Receive(w.progress, results, now));
      w := w.(deadline := w.progress.deadline);
      if w.progress.accepted == {} { w := w.(finished := true); }
      wake := Some(w);
    }

    method OnOnline(operationId: nat, attempt: nat, host: Text)
      modifies this`wake
      ensures Now() == Online(old(Now()), operationId, attempt, host)
    {
      if wake.None? { return; }
      var w := wake.value;
      if w.operationId != operationId || w.attempt != attempt { return; }
      var (progress, added) := P.Observe(w.progress, host);
      if !added { return; }
      w := w.(progress := progress);
      match P.OutcomeOf(progress, w.targets)
      case Complete => wake := Some(w.(finished := true));
      case Partial => wake := Some(w.(finished := true));
      case Rejected => wake := Some(w);
      case Waiting => wake := Some(w);
    }
  }
}

/** What each event does to the operation on the screen. */
module ScreenSteps {
  import opened Common
  import opened Protocol
  import opened ScreenSpec
  import P = ProgressSpec

  /** A new operation is ordered exactly when the screen is connected, the client actor lives and 1 to 8 hosts of a
      known catalog are selected; the wake page then follows it from now on. */
  lemma StartExactly(s: Screen, targets: seq<Text>, version: nat, operation: nat, nonce: nat, now: int, alive: bool)
    ensures var (after, command) := Start(s, targets, version, operation, nonce, now, alive);
            if s.connected && s.client && alive && 1 <= |targets| <= 8 && version != 0 then
              && command == Some(WakeCommand(targets, version, operation, nonce, 1, None))
              && after.connected && after.client && after.onWake && after.wake.Some?
              && var w := after.wake.value;
                 && w.operationId == operation && w.bootNonce == nonce && w.catalogVersion == version
                 && w.targets == targets && w.attempt == 1 && !w.receipt && !w.finished
                 && w.receiptDeadline == now + 15_000
                 && w.progress == P.After(now, [])
            else after == s && command == None
  {
  }

  /** A tick ends an operation that is 13 minutes old. Otherwise, on the wake page of a connected screen, an operation
      that is not finished is forgotten when its receipt is 15 s late or its second wait is over, and the second
      attempt is ordered once the first wait is over. No other tick does anything. */
  lemma TickExactly(s: Screen, now: int, alive: bool)
    requires s.wake.Some?
    ensures var w, (after, command) := s.wake.value, Tick(s, now, alive);
            if w.finished then after == s && command == None
            else if now >= w.progress.createdAt + 780_000 then
              after == s.(wake := Some(w.(finished := true))) && command == None
            else if s.onWake && s.connected && w.receipt && now >= w.deadline && w.attempt == 1 && w.ticket.Some?
                    && s.client && alive then
              && command == Some(WakeCommand(w.targets, w.catalogVersion, w.operationId, w.bootNonce, 2, w.ticket))
              && after == s.(wake := after.wake) && after.wake.Some?
              && after.wake.value == w.(attempt := 2, receipt := false, progress := P.After(now, []),
                                        receiptDeadline := now + 15_000, deadline := now + 60_000)
            else if s.onWake && s.connected && now >= (if w.receipt then w.deadline else w.receiptDeadline) then
              after == s.(wake := None, onWake := false) && command == None
            else after == s && command == None
  {
  }

  /** A reconnection repeats the order of the attempt in progress, unless the operation is finished, too old, or waits
      for a ticket it never got, and then waits 15 s for a receipt again. */
  lemma ReconnectExactly(s: Screen, now: int, alive: bool)
    requires s.wake.Some?
    ensures var w, (after, command) := s.wake.value, Connected(s, now, alive);
            && after == s.(connected := true, wake := after.wake) && after.wake.Some?
            && if w.finished then after.wake == s.wake && command == None
               else if now >= w.progress.createdAt + 780_000 then
                 after.wake.value == w.(finished := true) && command == None
               else if s.client && alive && (w.attempt == 2 ==> w.ticket.Some?) then
                 && after.wake.value == w.(receipt := false, receiptDeadline := now + 15_000)
                 && command == Some(WakeCommand(w.targets, w.catalogVersion, w.operationId, w.bootNonce, w.attempt,
                                                if w.attempt == 2 then w.ticket else None))
               else after.wake == s.wake && command == None
  {
  }

  /** A receipt of the attempt in progress is taken with its ticket, and ends the operation exactly when it accepts
      no host; any other receipt, and one of a finished operation, changes nothing. */
  lemma ReceiptExactly(s: Screen, operation: nat, attempt: nat, ticket: nat, results: seq<WakeResult>, now: int)
    requires s.wake.Some?
    ensures var w, after := s.wake.value, Receipt(s, operation, attempt, ticket, results, now);
            if w.operationId == operation && w.attempt == attempt && !w.finished then
              && after == s.(wake := after.wake) && after.wake.Some?
              && var v := after.wake.value;
                 && v.receipt && v.ticket == Some(ticket) && v.progress == P.Receive(w.progress, results, now)
                 && v.deadline == (if w.progress.startedAt.Some? then w.progress.startedAt.value else now) + 60_000
                 && (v.finished <==> forall r :: r in results ==> !r.accepted)
                 && v == w.(receipt := v.receipt, ticket := v.ticket, progress := v.progress, deadline := v.deadline,
                            finished := v.finished)
            else after == s
  {
    var accepted := AcceptedOf(results);
    assert forall r :: r in results && r.accepted ==> r.hostId in accepted;
  }

  /** The first report that an accepted host is online is taken, and ends the operation exactly when every accepted
      host is online now. Any other report changes nothing. */
  lemma OnlineExactly(s: Screen, operation: nat, attempt: nat, host: Text)
    requires s.wake.Some? && (s.wake.value.progress.accepted != {} ==> s.wake.value.progress.startedAt.Some?)
    ensures var w, after := s.wake.value, Online(s, operation, attempt, host);
            var p := w.progress;
            if w.operationId == operation && w.attempt == attempt && host in p.accepted && host !in p.online then
              && after == s.(wake := after.wake) && after.wake.Some?
              && var v := after.wake.value;
                 && v == w.(progress := p.(online := p.online + {host}), finished := v.finished)
                 && (v.finished <==> w.finished || forall h :: h in p.accepted ==> h in p.online || h == host)
            else after == s
  {
    var p := P.Observe(s.wake.value.progress, host).0;
    assert host in s.wake.value.progress.accepted ==> host in p.accepted && p.accepted != {};
  }
}

/** What a screen ever orders, over any series of events. */
module ScreenRuns {
  import opened Common
  import opened Timing
  import opened Protocol
  import opened ScreenSpec
  import ScreenSteps

  datatype Input =
    | Begins(targets: seq<Text>, catalogVersion: nat, operationId: nat, bootNonce: nat, at: int, alive: bool)
    | Ticks(at: int, alive: bool)
    | Connects(at: int, alive: bool)
    | Loses
    | Disconnects
    | Reopens   // the user connects again: a new client handle, and no operation
    | Leaves
    | Gets(operation: nat, attempt: nat, ticket: nat, results: seq<WakeResult>, at: int)
    | Sees(operation: nat, attempt: nat, host: Text)

  datatype Order = Order(command: WakeCommand, at: int)

  datatype Client = Client(screen: Screen, orders: seq<Order>)

  /** A screen whose client is connecting. */
  const OPENED: Screen := Screen(None, false, true, false)

  function Placed(c: Client, screen: Screen, command: Option<WakeCommand>, at: int): Client {
    Client(screen, if command.Some? then c.orders + [Order(command.value, at)] else c.orders)
  }

  function Follow(c: Client, input: Input): Client {
    match input
    case Begins(targets, version, operation, nonce, at, alive) =>
      var (screen, command) := Start(c.screen, targets, version, operation, nonce, at, alive);
      Placed(c, screen, command, at)
    case Ticks(at, alive) =>
      var (screen, command) := Tick(c.screen, at, alive);
      Placed(c, screen, command, at)
    case Connects(at, alive) =>
      var (screen, command) := Connected(c.screen, at, alive);
      Placed(c, screen, command, at)
    case Loses => c.(screen := c.screen.(connected := false))
    case Disconnects => c.(screen := Disconnected(c.screen))
    case Reopens => c.(screen := OPENED)
    case Leaves => c.(screen := Dropped(c.screen))
    case Gets(operation, attempt, ticket, results, at) =>
      c.(screen := Receipt(c.screen, operation, attempt, ticket, results, at))
    case Sees(operation, attempt, host) => c.(screen := Online(c.screen, operation, attempt, host))
  }

  const IDLE: Client := Client(OPENED, [])

  function After(inputs: seq<Input>): Client {
    if inputs == [] then IDLE else Follow(After(inputs[..|inputs| - 1]), inputs[|inputs| - 1])
  }

  predicate HasTime(input: Input) { input.Begins? || input.Ticks? || input.Connects? || input.Gets? }

  /** The clock does not run backwards and random operation ids do not repeat. */
  ghost predicate Valid(inputs: seq<Input>) {
    && (forall i, j :: 0 <= i < j < |inputs| && HasTime(inputs[i]) && HasTime(inputs[j])
          ==> inputs[i].at <= inputs[j].at)
    && (forall i, j :: 0 <= i < j < |inputs| && inputs[i].Begins? && inputs[j].Begins?
          ==> inputs[i].operationId != inputs[j].operationId)
  }

  /** A receipt of the operation with this ticket arrived. */
  predicate Carried(inputs: seq<Input>, operation: nat, ticket: nat) {
    exists input :: input in inputs && input.Gets? && input.operation == operation && input.ticket == ticket
  }

  /** A receipt of attempt 1 arrived at this time. */
  predicate Arrived(inputs: seq<Input>, operation: nat, at: int) {
    exists input ::
      input in inputs && input.Gets? && input.operation == operation && input.attempt == 1 && input.at == at
  }

  /** The full local wait after a receipt of attempt 1 was over at this time. */
  ghost predicate Waited(inputs: seq<Input>, operation: nat, at: int) {
    exists first: int :: Arrived(inputs, operation, first) && first + WAKE_WAIT_TIMEOUT <= at
  }

  predicate SameContent(a: WakeCommand, b: WakeCommand) {
    a == b.(attempt := a.attempt, retryTicket := a.retryTicket)
  }

  /** An order of attempt 1 has no ticket; one of attempt 2 has the ticket of a receipt of its operation and comes
      after the full local wait. */
  ghost predicate Justified(inputs: seq<Input>, order: Order) {
    var c := order.command;
    || (c.attempt == 1 && c.retryTicket == None)
    || (c.attempt == 2 && c.retryTicket.Some? && Carried(inputs, c.operationId, c.retryTicket.value) &&
        Waited(inputs, c.operationId, order.at))
  }

  /** Orders of one operation ask for the same, their attempts do not go back, and those of one attempt lie within
      the recovery time. */
  predicate Consistent(a: Order, b: Order) {
    a.command.operationId == b.command.operationId ==>
      && SameContent(a.command, b.command) && a.command.attempt <= b.command.attempt
      && (a.command.attempt == b.command.attempt ==> b.at < a.at + RECOVERY_TIMEOUT)
  }

  ghost predicate WakeOk(inputs: seq<Input>, orders: seq<Order>, w: ActualWake) {
    && (w.attempt == 1 || w.attempt == 2)
    && (forall order :: order in orders && order.command.operationId == w.operationId ==>
          && SameContent(order.command, CommandFor(w, 1, None)) && order.command.attempt <= w.attempt
          && (order.command.attempt == w.attempt ==> order.at >= w.progress.createdAt))
    && (w.ticket.Some? ==> Carried(inputs, w.operationId, w.ticket.value))
    && (w.attempt == 1 && w.progress.startedAt.Some? ==> Arrived(inputs, w.operationId, w.progress.startedAt.value))
    && (w.attempt == 1 && w.receipt ==>
          w.progress.startedAt.Some? && w.deadline == w.progress.startedAt.value + WAKE_WAIT_TIMEOUT)
    && (w.attempt == 2 ==> Waited(inputs, w.operationId, w.progress.createdAt))
    && (exists input :: input in inputs && HasTime(input) && input.at == w.progress.createdAt)
    && (exists input :: input in inputs && input.Begins? && input.operationId == w.operationId)
  }

  ghost predicate Ok(inputs: seq<Input>, c: Client) {
    && (c.screen.wake.Some? ==> WakeOk(inputs, c.orders, c.screen.wake.value))
    && (forall k :: 0 <= k < |c.orders| ==> Justified(inputs, c.orders[k]))
    && (forall j, k :: 0 <= j < k < |c.orders| ==> Consistent(c.orders[j], c.orders[k]))
    && (forall order :: order in c.orders ==>
          exists input :: input in inputs && input.Begins? && input.operationId == order.command.operationId)
  }

  lemma WaitedLater(inputs: seq<Input>, input: Input, operation: nat, at: int)
    requires Waited(inputs, operation, at)
    ensures Waited(inputs + [input], operation, at)
  {
    var first: int :| Arrived(inputs, operation, first) && first + WAKE_WAIT_TIMEOUT <= at;
    assert Arrived(inputs + [input], operation, first);
  }

  lemma WakeOkLater(inputs: seq<Input>, input: Input, orders: seq<Order>, w: ActualWake)
    requires WakeOk(inputs, orders, w)
    ensures WakeOk(inputs + [input], orders, w)
  {
    if w.attempt == 2 {
      WaitedLater(inputs, input, w.operationId, w.progress.createdAt);
    }
  }

  lemma OkLater(inputs: seq<Input>, input: Input, c: Client)
    requires Ok(inputs, c)
    ensures Ok(inputs + [input], c)
  {
    hide WakeOk;
    if c.screen.wake.Some? {
      WakeOkLater(inputs, input, c.orders, c.screen.wake.value);
    }
    forall k | 0 <= k < |c.orders|
      ensures Justified(inputs + [input], c.orders[k])
    {
      assert Justified(inputs, c.orders[k]);
      var order := c.orders[k];
      if order.command.attempt == 2 {
        WaitedLater(inputs, input, order.command.operationId, order.at);
      }
    }
  }

  /** Steps that order nothing. */
  lemma QuietOk(inputs: seq<Input>, c: Client, d: Client)
    requires Ok(inputs, c) && d.orders == c.orders
    requires d.screen.wake.Some? ==> WakeOk(inputs, d.orders, d.screen.wake.value)
    ensures Ok(inputs, d)
  {
  }

  /** An order for the attempt in progress. */
  lemma OrderOk(inputs: seq<Input>, c: Client, d: Client, w: ActualWake, order: Order)
    requires Ok(inputs, c) && WakeOk(inputs, c.orders, w)
    requires d.screen.wake == Some(w) && d.orders == c.orders + [order]
    requires order.command == CommandFor(w, w.attempt, order.command.retryTicket)
    requires Justified(inputs, order) && w.progress.createdAt <= order.at < w.progress.createdAt + RECOVERY_TIMEOUT
    ensures Ok(inputs, d)
  {
    hide Carried, Arrived, Waited, Justified;
    assert WakeOk(inputs, d.orders, w);
  }

  lemma BeginsOk(inputs: seq<Input>, input: Input, c: Client)
    requires input.Begins? && Valid(inputs + [input]) && Ok(inputs, c)
    ensures Ok(inputs + [input], Follow(c, input))
  {
    var all, d := inputs + [input], Follow(c, input);
    OkLater(inputs, input, c);
    if d != c {
      assert all[|inputs|] == input && forall i :: 0 <= i < |inputs| ==> all[i] == inputs[i];
      forall order | order in c.orders
        ensures order.command.operationId != input.operationId
      {
        var earlier :| earlier in inputs && earlier.Begins? && earlier.operationId == order.command.operationId;
        var i :| 0 <= i < |inputs| && inputs[i] == earlier;
        assert all[i].Begins? && all[i].operationId != all[|inputs|].operationId;
      }
      assert input in all;
      OrderOk(all, c, d, d.screen.wake.value, d.orders[|c.orders|]);
    }
  }

  /** The attempt in progress began before the latest event. */
  lemma BeganBefore(inputs: seq<Input>, input: Input, c: Client)
    requires HasTime(input) && Valid(inputs + [input]) && Ok(inputs, c) && c.screen.wake.Some?
    ensures c.screen.wake.value.progress.createdAt <= input.at
  {
    var all, w := inputs + [input], c.screen.wake.value;
    var earlier :| earlier in inputs && HasTime(earlier) && earlier.at == w.progress.createdAt;
    var i :| 0 <= i < |inputs| && inputs[i] == earlier;
    assert all[i] == earlier && all[|inputs|] == input;
  }

  lemma TickOk(inputs: seq<Input>, input: Input, c: Client)
    requires input.Ticks? && Valid(inputs + [input]) && Ok(inputs, c)
    ensures Ok(inputs + [input], Follow(c, input))
  {
    var all, d := inputs + [input], Follow(c, input);
    OkLater(inputs, input, c);
    if AsksForSecondAttempt(c.screen, input.at, input.alive) {
      var w := d.screen.wake.value;
      assert input in all;
      assert Waited(all, w.operationId, input.at) by {
        assert Arrived(all, w.operationId, c.screen.wake.value.progress.startedAt.value);
      }
      OrderOk(all, c, d, w, d.orders[|c.orders|]);
    } else {
      QuietOk(all, c, d);
    }
  }

  lemma ConnectOk(inputs: seq<Input>, input: Input, c: Client)
    requires input.Connects? && Valid(inputs + [input]) && Ok(inputs, c)
    ensures Ok(inputs + [input], Follow(c, input))
  {
    var all, d := inputs + [input], Follow(c, input);
    OkLater(inputs, input, c);
    if d.orders == c.orders {
      QuietOk(all, c, d);
    } else {
      BeganBefore(inputs, input, c);
      OrderOk(all, c, d, d.screen.wake.value, d.orders[|c.orders|]);
    }
  }

  lemma OtherOk(inputs: seq<Input>, input: Input, c: Client)
    requires !input.Begins? && !input.Ticks? && !input.Connects? && Ok(inputs, c)
    ensures Ok(inputs + [input], Follow(c, input))
  {
    var all, d := inputs + [input], Follow(c, input);
    OkLater(inputs, input, c);
    assert input in all;
    QuietOk(all, c, d);
  }

  lemma {:induction false} RunOk(inputs: seq<Input>)
    requires Valid(inputs)
    ensures Ok(inputs, After(inputs))
  {
    hide Follow, Ok;
    if inputs == [] {
      IdleOk();
    } else {
      var n := |inputs| - 1;
      var before, input := inputs[..n], inputs[n];
      assert inputs == before + [input];
      RunOk(before);
      match input
      case Begins(_, _, _, _, _, _) => BeginsOk(before, input, After(before));
      case Ticks(_, _) => TickOk(before, input, After(before));
      case Connects(_, _) => ConnectOk(before, input, After(before));
      case _ => OtherOk(before, input, After(before));
    }
  }

  lemma IdleOk()
    ensures Ok([], IDLE)
  {
  }

  /**
   * Over any series of events each order of the screen is justified: attempt 1 without a ticket, or attempt 2
   * with the ticket of a receipt and only after the full local wait. All orders of an operation ask for the same
   * targets, catalog and nonce; their attempts never go back; and those of one attempt lie within 13 minutes.
   */
  lemma OrdersAreJustified(inputs: seq<Input>, j: nat, k: nat)
    requires Valid(inputs) && j <= k < |After(inputs).orders|
    ensures Justified(inputs, After(inputs).orders[j]) && Justified(inputs, After(inputs).orders[k])
    ensures j < k ==> Consistent(After(inputs).orders[j], After(inputs).orders[k])
  {
    RunOk(inputs);
  }

  // ----- When an operation is over -----

  /** Every receipt of the operation accepts only targets: the client actor shows no other one. */
  predicate OnlyTargets(inputs: seq<Input>, operation: nat, targets: seq<Text>) {
    forall input :: input in inputs && input.Gets? && input.operation == operation ==>
      forall r :: r in input.results && r.accepted ==> r.hostId in targets
  }

  /** The operation on the screen. */
  predicate IsFor(screen: Screen, operation: nat, targets: seq<Text>) {
    screen.wake.Some? && screen.wake.value.operationId == operation && screen.wake.value.targets == targets
  }

  /** The accepted hosts of an operation are targets, and while it is not finished some
      target is not online yet. */
  predicate Open(w: ActualWake) {
    && w.progress.online <= w.progress.accepted <= Elements(w.targets)
    && (w.progress.accepted != {} ==> w.progress.startedAt.Some?)
    && (!w.finished ==> exists t :: t in w.targets && t !in w.progress.online)
  }

  lemma OpenStep(c: Client, input: Input, operation: nat, targets: seq<Text>)
    requires OnlyTargets([input], operation, targets) && targets != []
    requires IsFor(c.screen, operation, targets) ==> Open(c.screen.wake.value)
    ensures IsFor(Follow(c, input).screen, operation, targets) ==> Open(Follow(c, input).screen.wake.value)
  {
    assert targets[0] in targets && input in [input];
    if input.Sees? && IsFor(c.screen, operation, targets) {
      ScreenSteps.OnlineExactly(c.screen, input.operation, input.attempt, input.host);
    }
  }

  /** Over any series of events: once every target of an operation is online, the operation is finished. */
  lemma {:induction false} UpMeansFinished(inputs: seq<Input>, operation: nat, targets: seq<Text>)
    requires OnlyTargets(inputs, operation, targets) && targets != []
    ensures var screen := After(inputs).screen;
            IsFor(screen, operation, targets) ==>
              && Open(screen.wake.value)
              && ((forall t :: t in targets ==> t in screen.wake.value.progress.online) ==> screen.wake.value.finished)
  {
    hide Follow;
    if inputs == [] {
    } else {
      var n := |inputs| - 1;
      UpMeansFinished(inputs[..n], operation, targets);
      OpenStep(After(inputs[..n]), inputs[n], operation, targets);
    }
  }

  /** The operation is not on the screen, or finished. */
  predicate Over(screen: Screen, operation: nat) {
    screen.wake.None? || screen.wake.value.operationId != operation || screen.wake.value.finished
  }

  lemma OverStep(c: Client, input: Input, operation: nat)
    requires Over(c.screen, operation) && (input.Begins? ==> input.operationId != operation)
    ensures Over(Follow(c, input).screen, operation)
    ensures c.orders <= Follow(c, input).orders
    ensures forall k :: |c.orders| <= k < |Follow(c, input).orders| ==>
              Follow(c, input).orders[k].command.operationId != operation
  {
  }

  /** After an operation has finished, or was forgotten, it is never unfinished on the screen again, and never ordered
      again. */
  lemma {:induction false} NothingAfterTheEnd(inputs: seq<Input>, more: seq<Input>, operation: nat)
    requires Valid(inputs + more) && Over(After(inputs).screen, operation)
    requires exists input :: input in inputs && input.Begins? && input.operationId == operation
    ensures Over(After(inputs + more).screen, operation)
    ensures After(inputs).orders <= After(inputs + more).orders
    ensures forall k :: |After(inputs).orders| <= k < |After(inputs + more).orders| ==>
              After(inputs + more).orders[k].command.operationId != operation
    decreases more
  {
    hide Follow, Over;
    if more == [] {
      assert inputs + more == inputs;
    } else {
      var n := |more| - 1;
      var all := inputs + more;
      assert all[..|all| - 1] == inputs + more[..n];
      NothingAfterTheEnd(inputs, more[..n], operation);
      var begin :| begin in inputs && begin.Begins? && begin.operationId == operation;
      var i :| 0 <= i < |inputs| && inputs[i] == begin;
      assert all[i] == begin && all[|all| - 1] == more[n];
      OverStep(After(inputs + more[..n]), more[n], operation);
    }
  }
}
