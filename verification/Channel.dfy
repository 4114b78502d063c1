// The secure record channel: framing, sequence numbers and closing (src/security.rs).

module Framing {
  import opened Common

  const MAX_RECORD_BYTES: nat := 64 * 1024

  type Bytes = seq<byte>

  function U32Bytes(n: nat): Bytes
    requires n < 0x1_0000_0000
  {
    [(n / 0x100_0000) as byte, (n / 0x1_0000 % 0x100) as byte, (n / 0x100 % 0x100) as byte, (n % 0x100) as byte]
  }

  function U32FromBytes(b: Bytes): nat
    requires |b| >= 4
  {
    b[0] as nat * 0x100_0000 + b[1] as nat * 0x1_0000 + b[2] as nat * 0x100 + b[3] as nat
  }

  lemma U32RoundTrip(n: nat, rest: Bytes)
    requires n < 0x1_0000_0000
    ensures U32FromBytes(U32Bytes(n) + rest) == n
    ensures n < 0x100 ==> U32Bytes(n) == [0, 0, 0, n as byte]
  {
    var b := U32Bytes(n) + rest;
    assert b[0] == U32Bytes(n)[0] && b[1] == U32Bytes(n)[1] && b[2] == U32Bytes(n)[2] && b[3] == U32Bytes(n)[3];
    assert n / 0x1_0000 == 0x100 * (n / 0x100_0000) + n / 0x1_0000 % 0x100;
    assert n / 0x100 == 0x100 * (n / 0x1_0000) + n / 0x100 % 0x100;
  }

  /** A ciphertext the channel can carry. */
  predicate Carried(c: Bytes) { 0 < |c| <= MAX_RECORD_BYTES }

  function Frame(c: Bytes): Bytes
    requires |c| <= MAX_RECORD_BYTES
  {
    U32Bytes(|c|) + c
  }

  /** The length announced by a buffer that holds a prefix. */
  predicate BadLength(b: Bytes) {
    |b| >= 4 && (U32FromBytes(b) == 0 || U32FromBytes(b) > MAX_RECORD_BYTES)
  }

  predicate HoldsFrame(b: Bytes) {
    |b| >= 4 && !BadLength(b) && |b| >= 4 + U32FromBytes(b)
  }

  function FirstBody(b: Bytes): Bytes
    requires HoldsFrame(b)
  {
    b[4..4 + U32FromBytes(b)]
  }

  function AfterFirst(b: Bytes): Bytes
    requires HoldsFrame(b)
  {
    b[4 + U32FromBytes(b)..]
  }

  /** More bytes never change the first frame. */
  lemma FirstFrameIsStable(b: Bytes, more: Bytes)
    ensures BadLength(b) ==> BadLength(b + more)
    ensures HoldsFrame(b) ==> HoldsFrame(b + more) && FirstBody(b + more) == FirstBody(b)
                              && AfterFirst(b + more) == AfterFirst(b) + more
  {
    if |b| >= 4 {
      assert U32FromBytes(b + more) == U32FromBytes(b);
      if HoldsFrame(b) {
        assert (b + more)[4..4 + U32FromBytes(b)] == b[4..4 + U32FromBytes(b)];
        assert (b + more)[4 + U32FromBytes(b)..] == b[4 + U32FromBytes(b)..] + more;
      }
    }
  }

  lemma FrameParses(c: Bytes, rest: Bytes)
    requires Carried(c)
    ensures HoldsFrame(Frame(c) + rest) && FirstBody(Frame(c) + rest) == c && AfterFirst(Frame(c) + rest) == rest
  {
    assert Frame(c) + rest == U32Bytes(|c|) + (c + rest);
    U32RoundTrip(|c|, c + rest);
  }

  /** A frame cut short holds no frame, and no bad length either. */
  lemma CutFrameWaits(c: Bytes, k: nat)
    requires Carried(c) && k < |Frame(c)|
    ensures !HoldsFrame(Frame(c)[..k]) && !BadLength(Frame(c)[..k])
  {
    if k >= 4 {
      U32RoundTrip(|c|, c);
      assert Frame(c)[..k][..4] == Frame(c)[..4];
      assert U32FromBytes(Frame(c)[..k]) == |c|;
    }
  }
}

module ChannelSpec {
  import opened Common
  import opened Framing

  const U64_LIMIT: nat := 0x1_0000_0000_0000_0000

  datatype SecureRecord = SecureRecord(version: nat, direction: nat, sessionId: nat, sequence: nat, payload: Bytes)

  /** The libraries under the channel: record encoding and a cipher with an implicit counter. */
  datatype Suite = Suite(
    encode: SecureRecord -> Option<Bytes>, decode: Bytes -> Option<SecureRecord>,
    seal: (nat, Bytes) -> Option<Bytes>, open: (nat, Bytes) -> Option<Bytes>)
  {
    /** Decoding undoes encoding, and opening undoes sealing under the same counter. */
    ghost predicate Sound() {
      && (forall r :: encode(r).Some? ==> decode(encode(r).value) == Some(r))
      && (forall n, p :: seal(n, p).Some? ==> open(n, seal(n, p).value) == Some(p))
    }
  }

  datatype Session = Session(suite: Suite, sessionId: nat, direction: nat)

  /** One direction of a connection: the sending end and the receiving end. */
  datatype Sender = Sender(sequence: nat, counter: nat, closed: bool)
  datatype Receiver = Receiver(sequence: nat, counter: nat, buffer: Bytes, closed: bool)

  datatype Poll = Received(payload: Bytes) | Nothing | Failed

  predicate SendablePayload(p: Bytes) { 0 < |p| <= MAX_RECORD_BYTES / 2 }

  /** The ciphertext of a payload sent as number `n`, if the libraries and the limits accept it. */
  function Ciphertext(s: Session, n: nat, payload: Bytes): Option<Bytes> {
    var plain := s.suite.encode(SecureRecord(1, s.direction, s.sessionId, n, payload));
    if plain.None? then None
    else
      var c := s.suite.seal(n, plain.value);
      if c.Some? && Carried(c.value) then c else None
  }

  /** What one send does to its end and which bytes it puts on the wire. A send that reports failure has put at
      most a frame that is cut short on the wire, and has closed the channel if it put any byte or used the cipher.
      If the stream took all writes in time (`smooth`), only the payload, the libraries or the end of the sequence
      numbers can make it fail. */
  ghost predicate Sends(s: Session, a: Sender, b: Sender, payload: Bytes, out: Bytes, ok: bool, smooth: bool) {
    if ok then
      && !a.closed && SendablePayload(payload) && a.counter == a.sequence && a.sequence + 1 < U64_LIMIT
      && Ciphertext(s, a.sequence, payload).Some?
      && out == Frame(Ciphertext(s, a.sequence, payload).value)
      && b == Sender(a.sequence + 1, a.counter + 1, false)
    else
      && (a.closed ==> b.closed)
      && b.sequence == a.sequence
      && (!b.closed ==> b == a && out == [])
      && (a.closed ==> out == [])
      && (!a.closed && smooth ==>
            || !SendablePayload(payload) || Ciphertext(s, a.sequence, payload).None? || a.sequence + 1 >= U64_LIMIT)
      && (out != [] ==>
            && Ciphertext(s, a.sequence, payload).Some?
            && |out| < |Frame(Ciphertext(s, a.sequence, payload).value)|
            && out == Frame(Ciphertext(s, a.sequence, payload).value)[..|out|])
  }

  function Opened(s: Session, n: nat, c: Bytes): Option<SecureRecord> {
    var plain := s.suite.open(n, c);
    if plain.None? then None else s.suite.decode(plain.value)
  }

  predicate Accepts(s: Session, r: SecureRecord, n: nat) {
    r.version == 1 && r.direction == s.direction && r.sessionId == s.sessionId && r.sequence == n
    && SendablePayload(r.payload)
  }

  /** What the stream did during one poll: some read failed or reported the end; some read blocked or failed
      although bytes had arrived; there was a read and the last one blocked. */
  datatype Reading = Reading(failed: bool, hindered: bool, blocked: bool)

  /** The first frame of the pending bytes cannot be delivered as record number `n`. */
  predicate BadRecord(s: Session, a: Receiver, pending: Bytes)
    requires HoldsFrame(pending)
  {
    var record := Opened(s, a.counter, FirstBody(pending));
    record.None? || !Accepts(s, record.value, a.sequence) || a.sequence + 1 >= U64_LIMIT
  }

  /** What one poll does, given the bytes that have arrived but were not read yet. It finds nothing only after a
      read that blocked, and, unhindered, only after reading everything. Unhindered, it fails only on its bytes. */
  ghost predicate Polls(s: Session, a: Receiver, unread: Bytes, b: Receiver, left: Bytes, result: Poll, io: Reading) {
    var pending := a.buffer + unread;
    match result
    case Received(payload) =>
      && !a.closed && !b.closed && HoldsFrame(pending)
      && b.buffer + left == AfterFirst(pending)
      && Opened(s, a.counter, FirstBody(pending)).Some?
      && Accepts(s, Opened(s, a.counter, FirstBody(pending)).value, a.sequence)
      && payload == Opened(s, a.counter, FirstBody(pending)).value.payload
      && b.counter == a.counter + 1 && b.sequence == a.sequence + 1 < U64_LIMIT
    case Nothing =>
      && !a.closed && !b.closed && b.buffer + left == pending
      && !HoldsFrame(b.buffer) && !BadLength(b.buffer)
      && b.counter == a.counter && b.sequence == a.sequence
      && io.blocked && (!io.hindered ==> left == [])
    case Failed =>
      && b.closed
      && (a.closed ==> b == a && left == unread)
      && (!a.closed && !io.failed ==> BadLength(pending) || (HoldsFrame(pending) && BadRecord(s, a, pending)))
      && (!a.closed && !io.hindered && HoldsFrame(pending) ==> BadRecord(s, a, pending))
  }

  /** A frame that has arrived and holds the next record is delivered by the first unhindered poll. */
  lemma ReadyFrameIsDelivered(s: Session, a: Receiver, unread: Bytes, b: Receiver, left: Bytes, result: Poll,
                              io: Reading, c: Bytes, rest: Bytes, plain: Bytes, payload: Bytes)
    requires Polls(s, a, unread, b, left, result, io) && !a.closed && !io.hindered
    requires 0 < |c| <= 64 * 1024 && a.buffer + unread == U32Bytes(|c|) + c + rest
    requires s.suite.open(a.counter, c) == Some(plain)
    requires s.suite.decode(plain) == Some(SecureRecord(1, s.direction, s.sessionId, a.sequence, payload))
    requires 0 < |payload| <= 32 * 1024 && a.sequence < 0xFFFF_FFFF_FFFF_FFFF
    ensures result == Received(payload)
    ensures !b.closed && b.sequence == a.sequence + 1 && b.counter == a.counter + 1 && b.buffer + left == rest
  {
    FrameParses(c, rest);
    assert left == [] ==> b.buffer + left == b.buffer;
  }

  /** What is delivered was in a record of this session and direction, with the expected number and of legal size. */
  lemma OnlyOwnRecordsAreDelivered(s: Session, a: Receiver, unread: Bytes, b: Receiver, left: Bytes, payload: Bytes,
                                   io: Reading)
    requires Polls(s, a, unread, b, left, Received(payload), io)
    ensures 0 < |payload| <= 32 * 1024
    ensures exists plain: Bytes ::
              && s.suite.open(a.counter, FirstBody(a.buffer + unread)) == Some(plain)
              && s.suite.decode(plain) == Some(SecureRecord(1, s.direction, s.sessionId, a.sequence, payload))
  {
    var plain := s.suite.open(a.counter, FirstBody(a.buffer + unread)).value;
    assert s.suite.decode(plain) == Some(SecureRecord(1, s.direction, s.sessionId, a.sequence, payload));
  }
}

module ChannelObject {
  import opened Framing
  import opened ChannelSpec

  const WRITE_TIMEOUT: int := 3_000
  const CHUNK: nat := 8 * 1024

  datatype Io = Moved(count: nat) | WouldBlock | Ended | Broken

  /** A nonblocking socket: it moves as many bytes as it likes, or none. Ghost counters record what it did. */
  class Stream {
    ghost var written: Bytes
    var unread: Bytes
    var clock: int
    ghost var lastWrite: int     // when the last write began
    ghost var stalls: nat        // writes that moved nothing or broke
    ghost var readCount: nat
    ghost var lastRead: Io
    ghost var failures: nat      // reads that broke or reported the end
    ghost var hindrances: nat    // reads that moved nothing although bytes had arrived

    constructor () {
      written, unread, clock := [], [], 0;
      lastWrite, stalls, readCount, lastRead, failures, hindrances := 0, 0, 0, WouldBlock, 0, 0;
    }

    method Write(data: Bytes) returns (io: Io)
      modifies this`written, this`clock, this`lastWrite, this`stalls
      ensures io.Moved? ==> io.count <= |data| && written == old(written) + data[..io.count]
      ensures !io.Moved? ==> written == old(written)
      ensures lastWrite == old(clock) <= clock
      ensures stalls == old(stalls) + if io == Moved(0) || io.Ended? || io.Broken? then 1 else 0
    {
      lastWrite := clock;  // the call itself may take time
      if * {
        var duration: nat :| true;
        clock := clock + duration;
      }
      if * {
        var count: nat :| count <= |data|;
        written := written + data[..count];
        if count == 0 {
          stalls := stalls + 1;
        }
        return Moved(count);
      } else if * {
        return WouldBlock;
      }
      stalls := stalls + 1;
      return Broken;
    }

    method Read(limit: nat) returns (io: Io, chunk: Bytes)
      requires limit > 0
      modifies this`unread, this`readCount, this`lastRead, this`failures, this`hindrances
      ensures io.Moved? ==> 0 < io.count == |chunk| <= limit && old(unread) == chunk + unread
      ensures !io.Moved? ==> unread == old(unread)
      ensures readCount == old(readCount) + 1 && lastRead == io
      ensures failures == old(failures) + if io.Ended? || io.Broken? then 1 else 0
      ensures hindrances == old(hindrances) + if !io.Moved? && unread != [] then 1 else 0
    {
      chunk := [];
      readCount := readCount + 1;
      if unread != [] {
        if * {
          var count: nat :| 0 < count <= limit && count <= |unread|;
          chunk, unread := unread[..count], unread[count..];
          lastRead := Moved(count);
          return Moved(count), chunk;
        }
        hindrances := hindrances + 1;
      }
      if * {
        lastRead := WouldBlock;
        return WouldBlock, [];
      }
      failures := failures + 1;
      if * {
        lastRead := Ended;
        return Ended, [];
      }
      lastRead := Broken;
      return Broken, [];
    }

    method Sleep()
      modifies this`clock
      ensures clock >= old(clock) + 2
    {
      clock := clock + 2;
    }
  }

  class SecureConnection {
    const stream: Stream
    const session: Session      // outbound
    const inbound: Session
    var sendSeq: nat
    var sealCounter: nat
    var recvSeq: nat
    var openCounter: nat
    var readBuffer: Bytes
    var closed: bool

    function Sending(): Sender
      reads this
    {
      Sender(sendSeq, sealCounter, closed)
    }

    function Receiving(): Receiver
      reads this
    {
      Receiver(recvSeq, openCounter, readBuffer, closed)
    }

    predicate Valid()
      reads this
    {
      && |readBuffer| <= MAX_RECORD_BYTES + 4
      && (!closed ==> sealCounter == sendSeq && openCounter == recvSeq)
    }

    constructor (stream: Stream, session: Session, inbound: Session)
      ensures Valid() && Sending() == Sender(0, 0, false) && Receiving() == Receiver(0, 0, [], false)
    {
      this.stream, this.session, this.inbound := stream, session, inbound;
      sendSeq, sealCounter, recvSeq, openCounter, readBuffer, closed := 0, 0, 0, 0, [], false;
    }

    /** Writes `data` in as many pieces as the stream takes; on failure only a proper part of it was written. No
        write begins at or after the deadline. */
    method WriteAllDeadline(data: Bytes, deadline: int) returns (ok: bool)
      modifies stream`written, stream`clock, stream`lastWrite, stream`stalls
      ensures old(stream.clock) <= stream.clock
      ensures stream.lastWrite == old(stream.lastWrite) || stream.lastWrite < deadline
      ensures exists k: nat :: k <= |data| && (ok <==> k == |data|) && stream.written == old(stream.written) + data[..k]
      ensures stream.stalls >= old(stream.stalls)
      ensures !ok ==> stream.stalls > old(stream.stalls) || stream.clock >= deadline
    {
      var done: nat := 0;
      while done < |data|
        invariant done <= |data|
        invariant stream.written == old(stream.written) + data[..done]
        invariant old(stream.clock) <= stream.clock
        invariant stream.lastWrite == old(stream.lastWrite) || stream.lastWrite < deadline
        invariant stream.stalls == old(stream.stalls)
        decreases |data| - done, deadline - stream.clock
      {
        if stream.clock >= deadline { return false; }
        var io := stream.Write(data[done..]);
        match io
        case Moved(count) =>
          if count == 0 { return false; }
          assert data[..done] + data[done..][..count] == data[..done + count];
          done := done + count;
        case WouldBlock => stream.Sleep();
        case Ended => return false;
        case Broken => return false;
      }
      return true;
    }

    /** Prefix and body share one deadline: no write of either begins at or after it. */
    method WriteRecordBounded(payload: Bytes, deadline: int) returns (ok: bool)
      requires Carried(payload)
      modifies stream`written, stream`clock, stream`lastWrite, stream`stalls
      ensures old(stream.clock) <= stream.clock
      ensures stream.lastWrite == old(stream.lastWrite) || stream.lastWrite < deadline
      ensures exists k: nat :: k <= |Frame(payload)| && (ok <==> k == |Frame(payload)|)
                               && stream.written == old(stream.written) + Frame(payload)[..k]
      ensures !ok ==> stream.stalls > old(stream.stalls) || stream.clock >= deadline
    {
      ghost var before := stream.written;
      var prefix := U32Bytes(|payload|);
      ok := WriteAllDeadline(prefix, deadline);
      ghost var k: nat :| k <= 4 && (ok <==> k == 4) && stream.written == before + prefix[..k];
      if !ok {
        assert Frame(payload)[..k] == prefix[..k];
        return;
      }
      ok := WriteAllDeadline(payload, deadline);
      ghost var l: nat :| l <= |payload| && (ok <==> l == |payload|) &&
                          stream.written == before + prefix[..k] + payload[..l];
      assert Frame(payload)[..4 + l] == prefix[..4] + payload[..l];
    }

    method SendPayload(payload: Bytes) returns (ok: bool)
      requires Valid()
      modifies this`sendSeq, this`sealCounter, this`closed, stream`written, stream`clock, stream`lastWrite,
               stream`stalls
      ensures Valid()
      ensures stream.lastWrite == old(stream.lastWrite) || stream.lastWrite < old(stream.clock) + 3_000
      ensures exists out :: stream.written == old(stream.written) + out
                            && Sends(session, old(Sending()), Sending(), payload, out, ok,
                                     stream.stalls == old(stream.stalls) &&
                                     stream.clock < old(stream.clock) + 3_000)
    {
      ghost var before := stream.written;
      assert before == before + [];
      if closed { return false; }
      if !SendablePayload(payload) { return false; }
      if sendSeq + 1 >= U64_LIMIT {
        closed := true;
        return false;
      }
      var plain := session.suite.encode(SecureRecord(1, session.direction, session.sessionId, sendSeq, payload));
      if plain.None? { return false; }
      var encrypted := session.suite.seal(sealCounter, plain.value);
      if encrypted.None? {
        closed := true;
        return false;
      }
      sealCounter := sealCounter + 1;
      if !Carried(encrypted.value) {
        closed := true;
        return false;
      }
      ok := WriteRecordBounded(encrypted.value, stream.clock + WRITE_TIMEOUT);
      ghost var k: nat :| k <= |Frame(encrypted.value)| && (ok <==> k == |Frame(encrypted.value)|)
                          && stream.written == before + Frame(encrypted.value)[..k];
      if !ok {
        closed := true;
        return false;
      }
      sendSeq := sendSeq + 1;
    }

    /** Reads until the buffer holds a whole frame or the stream has nothing for now: it stops without a frame
        only after a read that blocked. */
    method FillBuffer() returns (ok: bool)
      requires Valid() && !closed
      modifies this`readBuffer, this`closed
      modifies stream`unread, stream`readCount, stream`lastRead, stream`failures, stream`hindrances
      ensures Valid() && |readBuffer| <= MAX_RECORD_BYTES + 4
      ensures readBuffer + stream.unread == old(readBuffer + stream.unread)
      ensures ok == !closed
      ensures stream.failures >= old(stream.failures) && stream.hindrances >= old(stream.hindrances)
      ensures ok ==>
                HoldsFrame(readBuffer) || (stream.readCount > old(stream.readCount) && stream.lastRead == WouldBlock)
      ensures ok && !HoldsFrame(readBuffer) ==> stream.unread == [] || stream.hindrances > old(stream.hindrances)
      ensures !ok ==>
                || BadLength(readBuffer)
                || (stream.failures > old(stream.failures) && !HoldsFrame(readBuffer) &&
                    (stream.unread == [] || stream.hindrances > old(stream.hindrances)))
    {
      while true
        invariant Valid() && !closed
        invariant readBuffer + stream.unread == old(readBuffer + stream.unread)
        invariant stream.readCount >= old(stream.readCount)
        invariant stream.failures == old(stream.failures) && stream.hindrances == old(stream.hindrances)
        decreases MAX_RECORD_BYTES + 4 - |readBuffer|
      {
        if |readBuffer| >= 4 {
          var length := U32FromBytes(readBuffer);
          if length == 0 || length > MAX_RECORD_BYTES {
            closed := true;
            return false;
          }
          if |readBuffer| >= 4 + length { break; }
        }
        var remaining := MAX_RECORD_BYTES + 4 - |readBuffer|;
        assert remaining > 0;  // the size failure after this subtraction cannot happen
        ghost var before := readBuffer;
        var io, chunk := stream.Read(if remaining < CHUNK then remaining else CHUNK);
        match io
        case Moved(_) =>
          readBuffer := readBuffer + chunk;
          assert before + (chunk + stream.unread) == readBuffer + stream.unread;
        case WouldBlock => break;
        case Ended => closed := true; return false;
        case Broken => closed := true; return false;
      }
      return true;
    }

    /** Deciphers, decodes and checks the next record; anything but the expected record closes the channel. */
    method OpenRecord(encrypted: Bytes) returns (result: Poll)
      requires Valid() && !closed
      modifies this`closed, this`recvSeq, this`openCounter
      ensures Valid()
      ensures result.Received? ==>
                var record := Opened(inbound, old(openCounter), encrypted);
                && !closed && record.Some? && Accepts(inbound, record.value, old(recvSeq))
                && result.payload == record.value.payload
                && openCounter == old(openCounter) + 1 && recvSeq == old(recvSeq) + 1 < U64_LIMIT
      ensures result.Received? || result.Failed?
      ensures result.Failed? ==>
                var record := Opened(inbound, old(openCounter), encrypted);
                && closed
                && (record.None? || !Accepts(inbound, record.value, old(recvSeq)) || old(recvSeq) + 1 >= U64_LIMIT)
    {
      var plain := inbound.suite.open(openCounter, encrypted);
      if plain.None? {
        closed := true;
        return Failed;
      }
      openCounter := openCounter + 1;
      var record := inbound.suite.decode(plain.value);
      if record.None? {
        closed := true;
        return Failed;
      }
      var r := record.value;
      if r.version != 1 || r.direction != inbound.direction || r.sessionId != inbound.sessionId
         || r.sequence != recvSeq || !SendablePayload(r.payload)
      {
        closed := true;
        return Failed;
      }
      if recvSeq + 1 >= U64_LIMIT {
        closed := true;
        return Failed;
      }
      recvSeq := recvSeq + 1;
      return Received(r.payload);
    }

    /** The payload of the next record, if its frame is there. Only a read that blocked makes it find nothing. */
    method PollPayload() returns (result: Poll)
      requires Valid()
      modifies this`readBuffer, this`closed, this`recvSeq, this`openCounter
      modifies stream`unread, stream`readCount, stream`lastRead, stream`failures, stream`hindrances
      ensures Valid()
      ensures result.Nothing? ==> stream.readCount > old(stream.readCount) && stream.lastRead == WouldBlock
      ensures Polls(inbound, old(Receiving()), old(stream.unread), Receiving(), stream.unread, result,
                    Reading(stream.failures > old(stream.failures), stream.hindrances > old(stream.hindrances),
                            stream.readCount > old(stream.readCount) && stream.lastRead == WouldBlock))
    {
      if closed { return Failed; }
      ghost var pending := readBuffer + stream.unread;
      var ok := FillBuffer();
      FirstFrameIsStable(readBuffer, stream.unread);
      assert stream.unread == [] ==> readBuffer == pending;
      if !ok { return Failed; }
      if |readBuffer| < 4 { return Nothing; }
      var length := U32FromBytes(readBuffer);
      if length == 0 || length > MAX_RECORD_BYTES {
        closed := true;
        return Failed;
      }
      if |readBuffer| < 4 + length { return Nothing; }
      var encrypted := readBuffer[4..4 + length];
      readBuffer := readBuffer[4 + length..];
      result := OpenRecord(encrypted);
    }
  }
}
