// Wire objects that the ledger caches and the client checks.

module Protocol {
  import opened Common

  const MAX_WAKE_TARGETS: nat := 8

  datatype Header = Header(name: Text, value: Text)

  datatype WakeErrorCode = InvalidTarget | RateLimited | SenderUnavailable

  datatype WakeResult = WakeResult(hostId: Text, accepted: bool, errorCode: Option<WakeErrorCode>)

  datatype ServerEvent =
    | Hosts(hostsVersion: nat, hostIds: seq<Text>)
    | Statuses(statusVersion: nat, statusIds: seq<Text>)
    | CommandExecuted(operationId: nat, attempt: nat, retryTicket: nat, deadlineMs: nat, results: seq<WakeResult>)
    | TargetOnline(onlineOperation: nat, onlineAttempt: nat, hostId: Text, observedAtMs: nat)
    | Error(retryable: bool)

  datatype ServerEnvelope = ServerEnvelope(requestId: nat, issuedAtMs: nat, headers: seq<Header>, event: ServerEvent)

  /** A wake order that a front end hands to the client actor. */
  datatype WakeCommand = WakeCommand(
    hostIds: seq<Text>, catalogVersion: nat, operationId: nat, bootNonce: nat, attempt: nat, retryTicket: Option<nat>)

  function HostsOf(results: seq<WakeResult>): set<Text> {
    set r | r in results :: r.hostId
  }

  function AcceptedOf(results: seq<WakeResult>): set<Text> {
    set r | r in results && r.accepted :: r.hostId
  }
}
