// What the client knows about one wake attempt (src/wake.rs).

module ProgressSpec {
  import opened Common
  import opened Timing
  import opened Protocol

  datatype Outcome = Waiting | Complete | Partial | Rejected

  datatype View = View(createdAt: int, accepted: set<Text>, online: set<Text>, startedAt: Option<int>, deadline: int)

  function Begin(now: int): View {
    View(now, {}, {}, None, now + RECEIPT_TIMEOUT)
  }

  predicate CanRecover(p: View, now: int) {
    now - p.createdAt < RECOVERY_TIMEOUT
  }

  function Receive(p: View, results: seq<WakeResult>, now: int): View {
    var first := if p.startedAt.Some? then p.startedAt.value else now;
    View(p.createdAt, AcceptedOf(results), p.online * AcceptedOf(results), Some(first), first + WAKE_WAIT_TIMEOUT)
  }

  /** The new view, and whether the host is accepted and was not online before. */
  function Observe(p: View, host: Text): (View, bool) {
    if host in p.accepted && host !in p.online then (p.(online := p.online + {host}), true) else (p, false)
  }

  function OutcomeOf(p: View, targets: seq<Text>): Outcome {
    if p.startedAt.None? then Waiting
    else if p.accepted == {} then Rejected
    else if !(p.accepted <= p.online) then Waiting
    else if forall t :: t in targets ==> t in p.online then Complete
    else Partial
  }

  // ----- Histories of one attempt -----

  datatype Report = Receipt(results: seq<WakeResult>, at: int) | Online(host: Text)

  function Follow(p: View, report: Report): View {
    match report
    case Receipt(results, at) => Receive(p, results, at)
    case Online(host) => Observe(p, host).0
  }

  function After(created: int, history: seq<Report>): View {
    if history == [] then Begin(created)
    else Follow(After(created, history[..|history| - 1]), history[|history| - 1])
  }

  /** The index of the first receipt of a history, or its length. */
  function FirstReceipt(history: seq<Report>): (i: nat)
    ensures i <= |history|
    ensures i < |history| ==> history[i].Receipt?
    ensures forall j :: 0 <= j < i ==> history[j].Online?
  {
    if history == [] || history[0].Receipt? then 0 else 1 + FirstReceipt(history[1..])
  }

  /** The local wait starts at the first receipt of the attempt; no later receipt and no observation moves it. */
  lemma {:induction false} WaitStartsAtFirstReceipt(created: int, history: seq<Report>)
    ensures var p, i := After(created, history), FirstReceipt(history);
            if i == |history|
            then p.startedAt == None && p.deadline == created + RECEIPT_TIMEOUT
            else p.startedAt == Some(history[i].at) && p.deadline == history[i].at + WAKE_WAIT_TIMEOUT
    ensures After(created, history).createdAt == created
  {
    if history == [] {
    } else {
      var rest := history[..|history| - 1];
      WaitStartsAtFirstReceipt(created, rest);
      FirstReceiptOfPrefix(history);
    }
  }

  lemma {:induction false} FirstReceiptOfPrefix(history: seq<Report>)
    requires history != []
    ensures var rest := history[..|history| - 1];
            FirstReceipt(history) ==
            if FirstReceipt(rest) < |rest| || history[|rest|].Receipt? then FirstReceipt(rest) else |history|
  {
    if |history| > 1 && history[0].Online? {
      assert history[1..][..|history| - 2] == history[..|history| - 1][1..];
      FirstReceiptOfPrefix(history[1..]);
    }
  }

  /** The accepted set is that of the last receipt, and every online host is accepted by it and was reported. */
  lemma {:induction false} OnlineHostsWereAcceptedAndSeen(created: int, history: seq<Report>)
    ensures After(created, history).online <= After(created, history).accepted
    ensures forall h :: h in After(created, history).online ==> Online(h) in history
    ensures After(created, history).startedAt.None? ==> After(created, history).accepted == {}
  {
    if history == [] {
    } else {
      OnlineHostsWereAcceptedAndSeen(created, history[..|history| - 1]);
    }
  }

  // ----- What a history says about a host -----

  /** The report is a receipt that accepts the host. */
  predicate Accepts(report: Report, host: Text) {
    report.Receipt? && exists r :: r in report.results && r.accepted && r.hostId == host
  }

  /** The last receipt of the history accepts the host. */
  predicate AcceptedLast(history: seq<Report>, host: Text) {
    exists i: nat :: i < |history| && Accepts(history[i], host) && forall j :: i < j < |history| ==> history[j].Online?
  }

  /** Report `i` says that the host is online; it was accepted then, and by every receipt since. */
  predicate UpFrom(history: seq<Report>, i: nat, host: Text)
    requires i < |history|
  {
    && history[i] == Online(host) && AcceptedLast(history[..i], host)
    && forall j :: i < j < |history| && history[j].Receipt? ==> Accepts(history[j], host)
  }

  /** The host was reported online while accepted, and was accepted ever since. */
  predicate Up(history: seq<Report>, host: Text) {
    exists i: nat :: i < |history| && UpFrom(history, i, host)
  }

  lemma AcceptedLastStep(history: seq<Report>, host: Text)
    requires history != []
    ensures var before, last := history[..|history| - 1], history[|history| - 1];
            AcceptedLast(history, host) <==> if last.Receipt? then Accepts(last, host) else AcceptedLast(before, host)
  {
    var n := |history| - 1;
    if history[n].Receipt? {
      if Accepts(history[n], host) { assert AcceptedLast(history, host); }
    } else if AcceptedLast(history[..n], host) {
      var i: nat :| i < n && Accepts(history[..n][i], host) && forall j :: i < j < n ==> history[..n][j].Online?;
      assert forall j :: i < j < n ==> history[j] == history[..n][j];
      assert Accepts(history[i], host);
    }
  }

  lemma UpStep(history: seq<Report>, host: Text)
    requires history != []
    ensures var before, last := history[..|history| - 1], history[|history| - 1];
            Up(history, host) <==>
              if last.Receipt? then Up(before, host) && Accepts(last, host)
              else Up(before, host) || (last == Online(host) && AcceptedLast(before, host))
  {
    hide Accepts, AcceptedLast;
    var n := |history| - 1;
    var before := history[..n];
    forall i: nat | i < n
      ensures UpFrom(history, i, host) <==>
                UpFrom(before, i, host) && (history[n].Receipt? ==> Accepts(history[n], host))
    {
      assert before[..i] == history[..i];
      assert forall j :: i < j < n ==> history[j] == before[j];
    }
    assert history[n] == Online(host) && AcceptedLast(before, host) ==> UpFrom(history, n, host);
    assert UpFrom(history, n, host) ==> history[n] == Online(host) && AcceptedLast(before, host);
    if Up(history, host) {
      var i: nat :| i <= n && UpFrom(history, i, host);
    }
  }

  /** The view of any history: the hosts that its last receipt accepts, and those that are up. */
  lemma {:induction false} ViewOfHistory(created: int, history: seq<Report>, host: Text)
    ensures host in After(created, history).accepted <==> AcceptedLast(history, host)
    ensures host in After(created, history).online <==> Up(history, host)
  {
    if history == [] {
    } else {
      var before := history[..|history| - 1];
      ViewOfHistory(created, before, host);
      AcceptedLastStep(history, host);
      UpStep(history, host);
      hide AcceptedLast, Up;
    }
  }

  /** Some host is accepted, and every accepted host is up. */
  ghost predicate AllUp(history: seq<Report>) {
    && (exists host :: AcceptedLast(history, host))
    && (forall host :: AcceptedLast(history, host) ==> Up(history, host))
  }

  predicate TargetsUp(history: seq<Report>, targets: seq<Text>) {
    forall t :: t in targets ==> Up(history, t)
  }

  /** The outcome of any history. */
  lemma OutcomeOfHistory(created: int, history: seq<Report>, targets: seq<Text>)
    ensures var outcome := OutcomeOf(After(created, history), targets);
            && (outcome == Complete <==> AllUp(history) && TargetsUp(history, targets))
            && (outcome == Partial <==> AllUp(history) && !TargetsUp(history, targets))
  {
    hide AcceptedLast, Up, After;
    var p := After(created, history);
    forall host ensures host in p.accepted <==> AcceptedLast(history, host)
                ensures host in p.online <==> Up(history, host)
    {
      ViewOfHistory(created, history, host);
    }
    OnlineHostsWereAcceptedAndSeen(created, history);
    if p.accepted != {} {
      var host :| host in p.accepted;
      assert AcceptedLast(history, host);
    }
  }

  /** If only targets are accepted, success is that every target is accepted and up. */
  lemma EveryTargetUp(history: seq<Report>, targets: seq<Text>)
    requires targets != [] && forall host :: AcceptedLast(history, host) ==> host in targets
    ensures AllUp(history) && TargetsUp(history, targets) <==>
              forall t :: t in targets ==> AcceptedLast(history, t) && Up(history, t)
  {
    hide AcceptedLast;
    forall t | t in targets && Up(history, t) ensures AcceptedLast(history, t) {
      ViewOfHistory(0, history, t);
      OnlineHostsWereAcceptedAndSeen(0, history);
    }
    assert targets[0] in targets;
  }

  /** Success means that every requested host was accepted by the last receipt and reported online. */
  lemma CompleteMeansEveryTarget(created: int, history: seq<Report>, targets: seq<Text>)
    ensures var p := After(created, history);
            OutcomeOf(p, targets) == Complete ==>
              forall t :: t in targets ==> t in p.accepted && t in p.online && Online(t) in history
    ensures var p := After(created, history);
            targets != [] && p.accepted <= Elements(targets) ==>
              (OutcomeOf(p, targets) == Complete <==> Elements(targets) == p.accepted == p.online)
  {
    OnlineHostsWereAcceptedAndSeen(created, history);
    var p := After(created, history);
    assert (forall t :: t in targets ==> t in p.online) <==> Elements(targets) <= p.online;
    if targets != [] { assert targets[0] in Elements(targets); }
  }
}

module ProgressObject {
  import opened Common
  import opened Timing
  import opened Protocol
  import opened ProgressSpec

  class Progress {
    const createdAt: int
    var accepted: set<Text>
    var online: set<Text>
    var startedAt: Option<int>
    var deadline: int

    function Now(): View
      reads this
    {
      View(createdAt, accepted, online, startedAt, deadline)
    }

    constructor (now: int)
      ensures Now() == Begin(now)
    {
      createdAt := now;
      accepted, online, startedAt := {}, {}, None;
      deadline := now + RECEIPT_TIMEOUT;
    }

    method Receive(results: seq<WakeResult>, now: int)
      modifies this
      ensures Now() == ProgressSpec.Receive(old(Now()), results, now)
    {
      accepted := set r | r in results && r.accepted :: r.hostId;
      online := set id | id in online && id in accepted;
      if startedAt.None? {
        startedAt := Some(now);
      }
      deadline := startedAt.value + WAKE_WAIT_TIMEOUT;
    }

    method Observe(host: Text) returns (added: bool)
      modifies this`online
      ensures (Now(), added) == ProgressSpec.Observe(old(Now()), host)
    {
      if host !in accepted { return false; }
      added := host !in online;
      assert !added ==> online + {host} == online;
      online := online + {host};
    }

    method Outcome(targets: seq<Text>) returns (outcome: Outcome)
      ensures outcome == OutcomeOf(Now(), targets)
    {
      if startedAt.None? { return Waiting; }
      if accepted == {} { return Rejected; }
      if !(accepted <= online) { return Waiting; }
      if forall t :: t in targets ==> t in online { return Complete; }
      return Partial;
    }
  }
}
