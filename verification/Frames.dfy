/** AMS/TCP frames: the header layout, and the reader task that cuts a byte stream into frames. */
module Frames {
  import opened Outcomes
  import opened Bytes
  import opened Notifications

  type NetId = id: seq<byte> | |id| == 6 witness [0, 0, 0, 0, 0, 0]

  datatype AmsAddr = AmsAddr(netid: NetId, port: u16)

  datatype AdsHeader = AdsHeader(
    amsCmd: u16,
    length: u32,
    dest: AmsAddr,
    src: AmsAddr,
    command: u16,
    stateFlags: u16,
    dataLength: u32,
    errorCode: u32,
    invokeId: u32)

  const AMS_HEADER_SIZE := 32
  const NOTIFICATION_COMMAND: u16 := 8

  // ---- The header --------------------------------------------------------------------------

  function ReadAddr(ptr: seq<byte>): Outcome<(AmsAddr, seq<byte>)> {
    var (netid, ptr1) :- Take(6, ptr);
    var (port, rest) :- ReadU16(ptr1);
    Ok((AmsAddr(netid, port), rest))
  }

  /** The 32 bytes that follow the AMS/TCP header. */
  function ReadAmsHeader(amsCmd: u16, length: u32, ptr: seq<byte>): Outcome<(AdsHeader, seq<byte>)> {
    var (dest, ptr1) :- ReadAddr(ptr);
    var (src, ptr2) :- ReadAddr(ptr1);
    var (command, ptr3) :- ReadU16(ptr2);
    var (stateFlags, ptr4) :- ReadU16(ptr3);
    var (dataLength, ptr5) :- ReadU32(ptr4);
    var (errorCode, ptr6) :- ReadU32(ptr5);
    var (invokeId, rest) :- ReadU32(ptr6);
    Ok((AdsHeader(amsCmd, length, dest, src, command, stateFlags, dataLength, errorCode, invokeId), rest))
  }

  function PutAddr(addr: AmsAddr, rest: seq<byte>): seq<byte> {
    addr.netid + (PutU16(addr.port) + rest)
  }

  function PutAmsHeader(h: AdsHeader, rest: seq<byte>): seq<byte> {
    PutAddr(h.dest, PutAddr(h.src, PutU16(h.command) + (PutU16(h.stateFlags)
    + (PutU32(h.dataLength) + (PutU32(h.errorCode) + (PutU32(h.invokeId) + rest))))))
  }

  /** A whole 38-byte header in front of further bytes. */
  function PutHeader(h: AdsHeader, rest: seq<byte>): seq<byte> {
    PutU16(h.amsCmd) + (PutU32(h.length) + PutAmsHeader(h, rest))
  }

  lemma ReadPutAddr(addr: AmsAddr, rest: seq<byte>)
    ensures ReadAddr(PutAddr(addr, rest)) == Ok((addr, rest))
  {
    hide U16, PutU16;
    TakeAppend(addr.netid, PutU16(addr.port) + rest);
    ReadPutU16(addr.port, rest);
  }

  lemma ReadPutAmsHeader(h: AdsHeader, rest: seq<byte>)
    ensures ReadAmsHeader(h.amsCmd, h.length, PutAmsHeader(h, rest)) == Ok((h, rest))
  {
    hide ReadU16, ReadU32, PutU16, PutU32, ReadAddr, PutAddr;
    var t6 := PutU32(h.invokeId) + rest;
    var t5 := PutU32(h.errorCode) + t6;
    var t4 := PutU32(h.dataLength) + t5;
    var t3 := PutU16(h.stateFlags) + t4;
    var t2 := PutU16(h.command) + t3;
    ReadPutAddr(h.dest, PutAddr(h.src, t2));
    ReadPutAddr(h.src, t2);
    ReadPutU16(h.command, t3);
    ReadPutU16(h.stateFlags, t4);
    ReadPutU32(h.dataLength, t5);
    ReadPutU32(h.errorCode, t6);
    ReadPutU32(h.invokeId, rest);
  }

  lemma PutReadAddr(ptr: seq<byte>)
    requires ReadAddr(ptr).Ok?
    ensures PutAddr(ReadAddr(ptr).value.0, ReadAddr(ptr).value.1) == ptr
  {
    hide U16, PutU16;
    PutReadU16(ptr[6..]);
    assert ptr[..6] + ptr[6..] == ptr;
  }

  lemma PutReadAmsHeader(amsCmd: u16, length: u32, ptr: seq<byte>)
    requires ReadAmsHeader(amsCmd, length, ptr).Ok?
    ensures var (h, rest) := ReadAmsHeader(amsCmd, length, ptr).value;
            PutAmsHeader(h, rest) == ptr && h.amsCmd == amsCmd && h.length == length
  {
    hide ReadU16, ReadU32, PutU16, PutU32, ReadAddr, PutAddr;
    var ptr1 := ReadAddr(ptr).value.1;
    var ptr2 := ReadAddr(ptr1).value.1;
    var ptr3 := ReadU16(ptr2).value.1;
    var ptr4 := ReadU16(ptr3).value.1;
    var ptr5 := ReadU32(ptr4).value.1;
    var ptr6 := ReadU32(ptr5).value.1;
    PutReadAddr(ptr);
    PutReadAddr(ptr1);
    PutReadU16(ptr2);
    PutReadU16(ptr3);
    PutReadU32(ptr4);
    PutReadU32(ptr5);
    PutReadU32(ptr6);
  }

  // ---- The reader --------------------------------------------------------------------------

  /** What the reader hands on: a reply to look up by invoke ID, or a notification to fan out. */
  datatype Incoming =
    | Reply(header: AdsHeader, payload: seq<byte>)
    | Notify(notification: Notification)

  predicate IsRouterNote(reserved: u16) {
    reserved == 1 || 4096 <= reserved <= 4098
  }

  /** A notification frame goes on only when its fields are as the protocol fixes them and its body parses. */
  function NotifyOf(header: AdsHeader, payload: seq<byte>, message: seq<byte>): Outcome<seq<Incoming>> {
    if |payload| < 4 then Panic else
    var length := U32(payload[..4]);
    if || header.stateFlags != 4 || header.errorCode != 0 || length != |payload| - 4 || length < 4
       || !Parse(message).Ok?
    then Ok([])
    else Ok([Notify(Notification(message, U32(message[42..46])))])
  }

  /** One round of the reader's loop: what it hands on, and the bytes it leaves. */
  function ReadFrame(source: AmsAddr, stream: seq<byte>): Outcome<(seq<Incoming>, seq<byte>)> {
    var (reserved, ptr1) :- ReadU16(stream);
    var (packetLen, ptr2) :- ReadU32(ptr1);
    if packetLen < AMS_HEADER_SIZE then
      var (_, rest) :- Take(packetLen, ptr2);
      Ok(([], rest))
    else
      var (header, ptr3) :- ReadAmsHeader(reserved, packetLen, ptr2);
      var (payload, rest) :- Take(header.dataLength, ptr3);
      if IsRouterNote(reserved) then Ok(([], rest))
      else if reserved != 0 then Fail(BadReply(InvalidPacket, reserved))
      else if header.dataLength != packetLen - AMS_HEADER_SIZE then Fail(BadReply(InconsistentLengths, 0))
      else if header.dest != source then Ok(([], rest))
      else if header.command != NOTIFICATION_COMMAND then Ok(([Reply(header, payload)], rest))
      else
        var events :- NotifyOf(header, payload, stream[..|stream| - |rest|]);
        Ok((events, rest))
  }

  lemma ReadFrameProgress(source: AmsAddr, stream: seq<byte>)
    requires ReadFrame(source, stream).Ok?
    ensures |ReadFrame(source, stream).value.1| + 6 <= |stream|
  {
    hide U16, U32, NotifyOf;
  }

  /** Why the reader stopped: an error it returns, or a panic. */
  datatype End = Failed(error: Error) | Panicked

  /** The reader's whole run over the bytes it will ever receive: what it hands on, and its end. */
  function Receive(source: AmsAddr, stream: seq<byte>): (seq<Incoming>, End)
    decreases |stream|
  {
    match ReadFrame(source, stream)
    case Ok((events, rest)) =>
      ReadFrameProgress(source, stream);
      var (more, end) := Receive(source, rest);
      (events + more, end)
    case Fail(error) => ([], Failed(error))
    case Panic => ([], Panicked)
  }

  // ---- Frames as a peer sends them ---------------------------------------------------------

  datatype Frame = Short(reserved: u16, body: seq<byte>) | Full(header: AdsHeader, payload: seq<byte>) {

    /** The kind is known and the lengths are as the reader wants them; of a note it only needs the data length. */
    predicate Readable() {
      match this
      case Short(_, body) => |body| < AMS_HEADER_SIZE
      case Full(h, payload) =>
        && h.dataLength == |payload|
        && (if IsRouterNote(h.amsCmd) then AMS_HEADER_SIZE <= h.length
            else h.amsCmd == 0 && h.length == AMS_HEADER_SIZE + |payload|)
    }

    /** The two length fields agree with each other and with what follows. */
    predicate Consistent() {
      Readable() && (Full? ==> header.length == AMS_HEADER_SIZE + |payload|)
    }

    predicate Own(source: AmsAddr) {
      Full? && header.amsCmd == 0 && header.dest == source
    }

    /** A notification frame for us has at least the four bytes of its length field. */
    predicate Dispatchable(source: AmsAddr) {
      Own(source) && header.command == NOTIFICATION_COMMAND ==> 4 <= |payload|
    }

    /** The reader takes it off the stream and goes on. */
    predicate Acceptable(source: AmsAddr) {
      Readable() && Dispatchable(source)
    }

    predicate WellFormed(source: AmsAddr) {
      Consistent() && Dispatchable(source)
    }

    function Encode(rest: seq<byte>): seq<byte>
      requires Readable()
    {
      match this
      case Short(reserved, body) => PutU16(reserved) + (PutU32(|body|) + (body + rest))
      case Full(h, payload) => PutHeader(h, payload + rest)
    }

    /** What the reader owes for this frame: nothing unless it is addressed to us. */
    function Meaning(source: AmsAddr): seq<Incoming>
      requires Acceptable(source)
    {
      if !Own(source) then []
      else if header.command != NOTIFICATION_COMMAND then [Reply(header, payload)]
      else NotifyOf(header, payload, PutHeader(header, payload)).value
    }
  }

  predicate AllWellFormed(source: AmsAddr, frames: seq<Frame>) {
    forall i :: 0 <= i < |frames| ==> frames[i].WellFormed(source)
  }

  predicate AllAcceptable(source: AmsAddr, frames: seq<Frame>) {
    forall i :: 0 <= i < |frames| ==> frames[i].Acceptable(source)
  }

  function EncodeAll(source: AmsAddr, frames: seq<Frame>, rest: seq<byte>): seq<byte>
    requires AllAcceptable(source, frames)
  {
    if frames == [] then rest else frames[0].Encode(EncodeAll(source, frames[1..], rest))
  }

  function Meanings(source: AmsAddr, frames: seq<Frame>): seq<Incoming>
    requires AllAcceptable(source, frames)
  {
    if frames == [] then [] else frames[0].Meaning(source) + Meanings(source, frames[1..])
  }

  lemma PutAddrAppend(addr: AmsAddr, a: seq<byte>, b: seq<byte>)
    ensures PutAddr(addr, a + b) == PutAddr(addr, a) + b
  {
    hide PutU16;
    assert addr.netid + (PutU16(addr.port) + (a + b)) == addr.netid + (PutU16(addr.port) + a) + b;
  }

  lemma PutAmsHeaderAppend(h: AdsHeader, a: seq<byte>, b: seq<byte>)
    ensures PutAmsHeader(h, a + b) == PutAmsHeader(h, a) + b
  {
    hide PutU16, PutU32, PutAddr;
    var t := PutU16(h.command) + (PutU16(h.stateFlags)
             + (PutU32(h.dataLength) + (PutU32(h.errorCode) + (PutU32(h.invokeId) + a))));
    var tb := PutU16(h.command) + (PutU16(h.stateFlags)
             + (PutU32(h.dataLength) + (PutU32(h.errorCode) + (PutU32(h.invokeId) + (a + b)))));
    assert tb == t + b;
    PutAddrAppend(h.src, t, b);
    PutAddrAppend(h.dest, PutAddr(h.src, t), b);
  }

  lemma PutHeaderAppend(h: AdsHeader, a: seq<byte>, b: seq<byte>)
    ensures PutHeader(h, a + b) == PutHeader(h, a) + b
  {
    hide PutU16, PutU32, PutAmsHeader;
    PutAmsHeaderAppend(h, a, b);
    var body := PutAmsHeader(h, a);
    assert PutU16(h.amsCmd) + (PutU32(h.length) + (body + b)) == PutU16(h.amsCmd) + (PutU32(h.length) + body) + b;
  }

  /** One round reads exactly one acceptable frame off the front, and hands on what it means. */
  lemma ReadOneFrame(source: AmsAddr, frame: Frame, rest: seq<byte>)
    requires frame.Acceptable(source)
    ensures ReadFrame(source, frame.Encode(rest)) == Ok((frame.Meaning(source), rest))
  {
    hide U16, U32, ReadU16, ReadU32, ReadAmsHeader, PutU16, PutU32, PutAmsHeader, NotifyOf, Take;
    match frame
    case Short(reserved, body) =>
      ReadPutU16(reserved, PutU32(|body|) + (body + rest));
      ReadPutU32(|body|, body + rest);
      TakeAppend(body, rest);
    case Full(h, payload) =>
      ReadPutU16(h.amsCmd, PutU32(h.length) + PutAmsHeader(h, payload + rest));
      ReadPutU32(h.length, PutAmsHeader(h, payload + rest));
      ReadPutAmsHeader(h, payload + rest);
      TakeAppend(payload, rest);
      PutHeaderAppend(h, payload, rest);
      var stream := frame.Encode(rest);
      assert stream[..|stream| - |rest|] == PutHeader(h, payload);
      if frame.Own(source) && h.command == NOTIFICATION_COMMAND {
        NotifyIsTotal(h, payload, PutHeader(h, payload));
      }
  }

  /** An own notification frame of fewer than four payload bytes. */
  predicate Undersized(source: AmsAddr, frame: Frame) {
    frame.Readable() && !frame.Dispatchable(source)
  }

  lemma UndersizedPanics(source: AmsAddr, frame: Frame, rest: seq<byte>)
    requires Undersized(source, frame)
    ensures ReadFrame(source, frame.Encode(rest)) == Panic
  {
    hide U16, U32, ReadU16, ReadU32, ReadAmsHeader, PutU16, PutU32, PutAmsHeader, NotifyOf, Take;
    var h, payload := frame.header, frame.payload;
    ReadPutU16(h.amsCmd, PutU32(h.length) + PutAmsHeader(h, payload + rest));
    ReadPutU32(h.length, PutAmsHeader(h, payload + rest));
    ReadPutAmsHeader(h, payload + rest);
    TakeAppend(payload, rest);
    PutHeaderAppend(h, payload, rest);
    var stream := frame.Encode(rest);
    NotifyIsTotal(h, payload, stream[..|stream| - |rest|]);
  }

  lemma NotifyIsTotal(header: AdsHeader, payload: seq<byte>, message: seq<byte>)
    ensures NotifyOf(header, payload, message).Ok? <==> 4 <= |payload|
    ensures NotifyOf(header, payload, message) == Panic <==> |payload| < 4
  {
  }

  /**
    * Resynchronisation: over any run of acceptable frames the reader consumes exactly their
    * bytes and hands on exactly what the own frames among them mean, in order.  Whatever the
    * bytes after them do to it, all of that has been handed on before.
    */
  lemma {:induction false} ReceiveFrames(source: AmsAddr, frames: seq<Frame>, tail: seq<byte>)
    requires AllAcceptable(source, frames)
    ensures Receive(source, EncodeAll(source, frames, tail))
         == (Meanings(source, frames) + Receive(source, tail).0, Receive(source, tail).1)
  {
    hide ReadFrame;
    if frames == [] {
      assert [] + Receive(source, tail).0 == Receive(source, tail).0;
    } else {
      var rest := EncodeAll(source, frames[1..], tail);
      ReadOneFrame(source, frames[0], rest);
      ReceiveFrames(source, frames[1..], tail);
      assert frames[0].Meaning(source) + (Meanings(source, frames[1..]) + Receive(source, tail).0)
          == Meanings(source, frames) + Receive(source, tail).0;
    }
  }

  lemma HeaderSize(h: AdsHeader, rest: seq<byte>)
    ensures |PutHeader(h, rest)| == 38 + |rest|
    ensures PutHeader(h, rest)[38..] == rest
  {
    hide PutU16, PutU32;
    PutHeaderAppend(h, [], rest);
    assert [] + rest == rest;
  }

  /** The length of what follows, the number of stamps, and the stamps. */
  function NotificationPayload(stamps: seq<Stamp>): seq<byte>
    requires StampsFit(stamps) && |stamps| < U32_LIMIT && 4 + |EncodeStamps(stamps, [])| < U32_LIMIT
  {
    var body := EncodeStamps(stamps, []);
    PutU32(4 + |body|) + (PutU32(|stamps|) + body)
  }

  /**
    * End to end: stamps that a peer lays out as a notification addressed to us are handed on as
    * one notification, which carries exactly those stamps.
    */
  lemma NotificationArrives(source: AmsAddr, h: AdsHeader, stamps: seq<Stamp>, rest: seq<byte>)
    returns (notification: Notification)
    requires StampsFit(stamps) && |stamps| < U32_LIMIT && 4 + |EncodeStamps(stamps, [])| < U32_LIMIT
    requires h.amsCmd == 0 && h.dest == source && h.command == NOTIFICATION_COMMAND
    requires h.stateFlags == 4 && h.errorCode == 0
    requires h.dataLength == |NotificationPayload(stamps)| && h.length == AMS_HEADER_SIZE + h.dataLength
    ensures notification.Valid() && notification.Stamps() == stamps
    ensures ReadFrame(source, PutHeader(h, NotificationPayload(stamps) + rest)) == Ok(([Notify(notification)], rest))
  {
    hide U16, PutU16, U32, PutU32, PutHeader, ReadFrame, EncodeStamps;
    var body := EncodeStamps(stamps, []);
    var payload := NotificationPayload(stamps);
    var message := PutHeader(h, payload);
    HeaderSize(h, payload);
    assert payload[..4] == PutU32(4 + |body|);
    assert message[42..46] == message[38..][4..8] == PutU32(|stamps|);
    assert message[46..] == message[38..][8..] == body;
    AcceptedIffEncoded(message, stamps);
    notification := Notification(message, |stamps|);
    ReadOneFrame(source, Full(h, payload), rest);
    assert NotifyOf(h, payload, message) == Ok([Notify(notification)]);
  }

  /** The frame at the front of a stream, as its length fields describe it. */
  function PacketLength(stream: seq<byte>): nat
    requires 6 <= |stream|
  {
    U32(stream[2..6])
  }

  /** A round that goes on stayed in step if it consumed 6 + packet_len bytes. */
  predicate InStep(source: AmsAddr, stream: seq<byte>) {
    var round := ReadFrame(source, stream);
    round.Ok? ==> 6 <= |stream| && |stream| - |round.value.1| == 6 + PacketLength(stream)
  }

  /**
    * Exactly when a round stays in step: a router note is not checked for consistent lengths, so
    * one whose data length is not packet_len - 32 takes the reader off the frame boundaries.
    * Every other round that goes on is in step.
    */
  lemma InStepIff(source: AmsAddr, stream: seq<byte>)
    requires ReadFrame(source, stream).Ok?
    ensures 6 <= |stream|
    ensures InStep(source, stream) <==>
              || PacketLength(stream) < AMS_HEADER_SIZE
              || !IsRouterNote(U16(stream[..2]))
              || U32(stream[26..30]) == PacketLength(stream) - AMS_HEADER_SIZE
  {
    hide U16, U32, NotifyOf;
    var ptr2 := stream[2..][4..];
    assert stream[2..][..4] == stream[2..6];
    if PacketLength(stream) >= AMS_HEADER_SIZE {
      var h := ReadAmsHeader(U16(stream[..2]), U32(stream[2..6]), ptr2).value.0;
      HeaderFields(h.amsCmd, h.length, ptr2);
      assert ptr2[20..24] == stream[26..30];
    }
  }

  lemma HeaderFields(amsCmd: u16, length: u32, ptr: seq<byte>)
    ensures |ptr| < AMS_HEADER_SIZE ==> ReadAmsHeader(amsCmd, length, ptr) == Fail(Io)
    ensures AMS_HEADER_SIZE <= |ptr| ==>
              && ReadAmsHeader(amsCmd, length, ptr).Ok?
              && ReadAmsHeader(amsCmd, length, ptr).value.1 == ptr[AMS_HEADER_SIZE..]
              && ReadAmsHeader(amsCmd, length, ptr).value.0.dataLength == U32(ptr[20..24])
  {
    hide U16, U32;
    if AMS_HEADER_SIZE <= |ptr| {
      var h := ReadAmsHeader(amsCmd, length, ptr).value.0;
      assert ptr[6..][2..][6..][2..] == ptr[16..];
      assert ptr[16..][2..][2..] == ptr[20..];
      assert ptr[20..][4..][4..][4..] == ptr[32..];
      assert ptr[20..][..4] == ptr[20..24];
    }
  }

  /** What a round that goes on must have found behind a packet length of at least 32. */
  lemma LongRound(source: AmsAddr, stream: seq<byte>) returns (header: AdsHeader, payload: seq<byte>)
    requires ReadFrame(source, stream).Ok? && PacketLength(stream) >= AMS_HEADER_SIZE
    ensures ReadAmsHeader(U16(stream[..2]), PacketLength(stream), stream[6..])
         == Ok((header, payload + ReadFrame(source, stream).value.1))
    ensures |payload| == header.dataLength
    ensures || IsRouterNote(U16(stream[..2]))
            || (U16(stream[..2]) == 0 && |payload| == PacketLength(stream) - AMS_HEADER_SIZE)
    ensures Full(header, payload).Dispatchable(source)
  {
    hide U16, U32, NotifyOf, ReadAmsHeader;
    var reserved, packetLen := U16(stream[..2]), PacketLength(stream);
    assert stream[2..][..4] == stream[2..6] && stream[2..][4..] == stream[6..];
    HeaderFields(reserved, packetLen, stream[6..]);
    PutReadAmsHeader(reserved, packetLen, stream[6..]);
    var rest;
    header, rest := ReadAmsHeader(reserved, packetLen, stream[6..]).value.0, ReadFrame(source, stream).value.1;
    payload := ReadAmsHeader(reserved, packetLen, stream[6..]).value.1[..header.dataLength];
    assert payload + rest == ReadAmsHeader(reserved, packetLen, stream[6..]).value.1;
    NotifyIsTotal(header, payload, stream[..|stream| - |rest|]);
  }

  lemma ShortFrameBytes(source: AmsAddr, stream: seq<byte>) returns (frame: Frame)
    requires ReadFrame(source, stream).Ok? && PacketLength(stream) < AMS_HEADER_SIZE
    ensures frame.Acceptable(source)
    ensures frame.Encode(ReadFrame(source, stream).value.1) == stream
  {
    hide U16, U32, PutU16, PutU32, PutAmsHeader, ReadAmsHeader;
    assert stream[2..][..4] == stream[2..6] && stream[2..][4..] == stream[6..];
    PutReadU16(stream);
    PutReadU32(stream[2..]);
    frame := Short(U16(stream[..2]), stream[6..][..PacketLength(stream)]);
    assert stream[6..][..PacketLength(stream)] + ReadFrame(source, stream).value.1 == stream[6..];
  }

  lemma FullFrameBytes(source: AmsAddr, stream: seq<byte>) returns (frame: Frame)
    requires ReadFrame(source, stream).Ok? && PacketLength(stream) >= AMS_HEADER_SIZE
    ensures frame.Acceptable(source)
    ensures frame.Encode(ReadFrame(source, stream).value.1) == stream
  {
    hide U16, U32, PutU16, PutU32, PutAmsHeader, ReadAmsHeader, ReadFrame;
    ReadFrameProgress(source, stream);
    var reserved, packetLen := U16(stream[..2]), PacketLength(stream);
    assert stream[2..][..4] == stream[2..6] && stream[2..][4..] == stream[6..];
    PutReadU16(stream);
    PutReadU32(stream[2..]);
    var header, payload := LongRound(source, stream);
    PutReadAmsHeader(reserved, packetLen, stream[6..]);
    frame := Full(header, payload);
  }

  /** The bytes a round read, put together again as one frame. */
  lemma FrameBytes(source: AmsAddr, stream: seq<byte>) returns (frame: Frame)
    requires ReadFrame(source, stream).Ok?
    ensures frame.Acceptable(source)
    ensures frame.Encode(ReadFrame(source, stream).value.1) == stream
  {
    hide ReadFrame, PacketLength;
    ReadFrameProgress(source, stream);
    if PacketLength(stream) < AMS_HEADER_SIZE {
      frame := ShortFrameBytes(source, stream);
    } else {
      frame := FullFrameBytes(source, stream);
    }
  }

  lemma FrameSize(frame: Frame, rest: seq<byte>)
    requires frame.Readable()
    ensures var stream := frame.Encode(rest);
            6 <= |stream| && (|stream| - |rest| == 6 + PacketLength(stream) <==> frame.Consistent())
  {
    hide U16, U32, PutU16, PutU32, PutAmsHeader;
    var stream := frame.Encode(rest);
    match frame
    case Short(reserved, body) =>
      assert stream[2..6] == PutU32(|body|);
    case Full(h, payload) =>
      HeaderSize(h, payload + rest);
      assert stream[2..6] == PutU32(h.length);
  }

  /**
    * Conversely, every round that goes on has read one acceptable frame and handed on its meaning; it
    * stayed in step exactly when that frame is well formed.
    */
  lemma FrameOfRound(source: AmsAddr, stream: seq<byte>) returns (frame: Frame)
    requires ReadFrame(source, stream).Ok?
    ensures frame.Acceptable(source)
    ensures frame.Encode(ReadFrame(source, stream).value.1) == stream
    ensures frame.Meaning(source) == ReadFrame(source, stream).value.0
    ensures InStep(source, stream) <==> frame.WellFormed(source)
  {
    hide ReadFrame, PacketLength;
    frame := FrameBytes(source, stream);
    ReadOneFrame(source, frame, ReadFrame(source, stream).value.1);
    FrameSize(frame, ReadFrame(source, stream).value.1);
  }

  /** Every round of the run stays in step. */
  predicate StaysInStep(source: AmsAddr, stream: seq<byte>)
    decreases |stream|
  {
    ReadFrame(source, stream).Ok? ==>
      && InStep(source, stream)
      && (ReadFrameProgress(source, stream); StaysInStep(source, ReadFrame(source, stream).value.1))
  }

  /**
    * Any run is a run of acceptable frames up to the first bytes that do not start one, and what has
    * been handed on is exactly what those frames mean.  It stays in step exactly when all are well formed.
    */
  lemma {:induction false} RunIsFrames(source: AmsAddr, stream: seq<byte>)
    returns (frames: seq<Frame>, tail: seq<byte>)
    ensures AllAcceptable(source, frames) && EncodeAll(source, frames, tail) == stream
    ensures !ReadFrame(source, tail).Ok?
    ensures Receive(source, stream) == (Meanings(source, frames), Receive(source, tail).1)
    ensures StaysInStep(source, stream) <==> AllWellFormed(source, frames)
    decreases |stream|
  {
    hide ReadFrame, InStep;
    frames, tail := [], stream;
    if ReadFrame(source, stream).Ok? {
      var frame := FrameOfRound(source, stream);
      ReadFrameProgress(source, stream);
      var more;
      more, tail := RunIsFrames(source, ReadFrame(source, stream).value.1);
      frames := [frame] + more;
      assert frames[1..] == more;
      assert forall i :: 0 <= i < |more| ==> more[i] == frames[i + 1];
    }
  }

  /**
    * The one way out of step, as a concrete frame: a router note of one data byte, whose packet length
    * only counts its header.
    */
  lemma NoteLeavesStep(source: AmsAddr, rest: seq<byte>)
    ensures var nobody := AmsAddr([0, 0, 0, 0, 0, 0], 0);
            var stream := PutHeader(AdsHeader(1, 32, nobody, nobody, 0, 0, 1, 0, 0), [7] + rest);
            ReadFrame(source, stream) == Ok(([], rest)) && !InStep(source, stream)
  {
    hide ReadFrame, PacketLength;
    var nobody := AmsAddr([0, 0, 0, 0, 0, 0], 0);
    var frame := Full(AdsHeader(1, 32, nobody, nobody, 0, 0, 1, 0, 0), [7]);
    ReadOneFrame(source, frame, rest);
    FrameSize(frame, rest);
  }

  // ---- When the reader panics --------------------------------------------------------------

  lemma FrameOfPanic(source: AmsAddr, stream: seq<byte>) returns (frame: Frame, rest: seq<byte>)
    requires ReadFrame(source, stream) == Panic
    ensures Undersized(source, frame) && frame.Encode(rest) == stream
  {
    hide U16, U32, PutU16, PutU32, PutAmsHeader, ReadAmsHeader, NotifyOf;
    var reserved, packetLen := U16(stream[..2]), PacketLength(stream);
    PutReadU16(stream);
    PutReadU32(stream[2..]);
    assert stream[2..][..4] == stream[2..6] && stream[2..][4..] == stream[6..];
    HeaderFields(reserved, packetLen, stream[6..]);
    PutReadAmsHeader(reserved, packetLen, stream[6..]);
    var (header, ptr) := ReadAmsHeader(reserved, packetLen, stream[6..]).value;
    var payload := ptr[..header.dataLength];
    rest := ptr[header.dataLength..];
    assert payload + rest == ptr;
    NotifyIsTotal(header, payload, stream[..|stream| - |rest|]);
    frame := Full(header, payload);
  }

  /** Such a frame: a notification for us without any payload. */
  lemma EmptyNotificationPanics(source: AmsAddr, peer: AmsAddr, rest: seq<byte>)
    ensures ReadFrame(source, PutHeader(AdsHeader(0, 32, source, peer, 8, 4, 0, 0, 0), [] + rest)) == Panic
  {
    hide ReadFrame;
    UndersizedPanics(source, Full(AdsHeader(0, 32, source, peer, 8, 4, 0, 0, 0), []), rest);
  }

  /** A round panics exactly on an own notification frame of fewer than four payload bytes. */
  lemma RoundPanicsIff(source: AmsAddr, stream: seq<byte>)
    ensures ReadFrame(source, stream) == Panic <==>
              exists frame: Frame, rest :: Undersized(source, frame) && frame.Encode(rest) == stream
  {
    hide ReadFrame;
    if ReadFrame(source, stream) == Panic {
      var frame, rest := FrameOfPanic(source, stream);
    }
    forall frame: Frame, rest | Undersized(source, frame) && frame.Encode(rest) == stream
      ensures ReadFrame(source, stream) == Panic
    {
      UndersizedPanics(source, frame, rest);
    }
  }

  ghost predicate UndersizedAfter(
    source: AmsAddr, stream: seq<byte>, frames: seq<Frame>, last: Frame, rest: seq<byte>)
  {
    && AllAcceptable(source, frames) && Undersized(source, last)
    && EncodeAll(source, frames, last.Encode(rest)) == stream
  }

  /** The reader panics exactly on such a frame behind acceptable ones, and on nothing else. */
  lemma ReceivePanicsIff(source: AmsAddr, stream: seq<byte>)
    ensures Receive(source, stream).1 == Panicked <==>
              exists frames, last, rest :: UndersizedAfter(source, stream, frames, last, rest)
  {
    hide ReadFrame;
    if Receive(source, stream).1 == Panicked {
      var frames, tail := RunIsFrames(source, stream);
      var last, rest := FrameOfPanic(source, tail);
      assert UndersizedAfter(source, stream, frames, last, rest);
    }
    forall frames, last, rest | UndersizedAfter(source, stream, frames, last, rest)
      ensures Receive(source, stream).1 == Panicked
    {
      UndersizedPanics(source, last, rest);
      ReceiveFrames(source, frames, last.Encode(rest));
    }
  }

  // ---- The reader task ---------------------------------------------------------------------

  /** The 38 header bytes, decoded in one go as the reader does. */
  function HeaderOf(bytes: seq<byte>): AdsHeader
    requires |bytes| == 38
  {
    HeaderFields(U16(bytes[..2]), U32(bytes[2..6]), bytes[6..]);
    ReadAmsHeader(U16(bytes[..2]), U32(bytes[2..6]), bytes[6..]).value.0
  }

  lemma HeaderIsPrefix(amsCmd: u16, length: u32, ptr: seq<byte>)
    requires AMS_HEADER_SIZE <= |ptr|
    ensures ReadAmsHeader(amsCmd, length, ptr[..AMS_HEADER_SIZE]).Ok?
    ensures ReadAmsHeader(amsCmd, length, ptr)
         == Ok((ReadAmsHeader(amsCmd, length, ptr[..AMS_HEADER_SIZE]).value.0, ptr[AMS_HEADER_SIZE..]))
  {
    hide ReadAmsHeader, PutAmsHeader;
    var front, rest := ptr[..AMS_HEADER_SIZE], ptr[AMS_HEADER_SIZE..];
    HeaderFields(amsCmd, length, front);
    PutReadAmsHeader(amsCmd, length, front);
    var h := ReadAmsHeader(amsCmd, length, front).value.0;
    PutAmsHeaderAppend(h, [], rest);
    assert [] + rest == rest && front + rest == ptr;
    ReadPutAmsHeader(h, rest);
  }

  /** One round of the loop: a frame is read from the socket in pieces, then judged. */
  method ReadRound(source: AmsAddr, socket: Cursor) returns (r: Outcome<seq<Incoming>>)
    modifies socket
    ensures r.Ok? ==> ReadFrame(source, old(socket.data)) == Ok((r.value, socket.data))
    ensures r.Fail? ==> ReadFrame(source, old(socket.data)) == Fail(r.error)
    ensures r.Panic? ==> ReadFrame(source, old(socket.data)) == Panic
  {
    hide U16, U32, ReadAmsHeader, NotifyOf;
    ghost var stream := socket.data;
    var start :- socket.TakeBytes(6);
    var packetLen := U32(start[2..6]);
    assert start[2..6] == stream[2..][..4] && start[..2] == stream[..2];
    assert stream[6..] == stream[2..][4..];
    if packetLen < AMS_HEADER_SIZE {
      var _ :- socket.TakeBytes(packetLen);
      return Ok([]);
    }
    assert AMS_HEADER_SIZE > |stream[6..]| ==> ReadFrame(source, stream) == Fail(Io) by {
      HeaderFields(U16(stream[..2]), packetLen, stream[6..]);
    }
    var more :- socket.TakeBytes(AMS_HEADER_SIZE);
    var header := HeaderOf(start + more);
    assert (start + more)[..2] == start[..2] && (start + more)[2..6] == start[2..6] && (start + more)[6..] == more;
    HeaderIsPrefix(U16(stream[..2]), packetLen, stream[6..]);
    var payload :- socket.TakeBytes(header.dataLength);
    var reserved := U16(start[..2]);
    if IsRouterNote(reserved) {
      return Ok([]);
    } else if reserved != 0 {
      return Fail(BadReply(InvalidPacket, reserved));
    }
    if header.dataLength != packetLen - AMS_HEADER_SIZE {
      return Fail(BadReply(InconsistentLengths, 0));
    }
    if header.dest != source {
      return Ok([]);
    }
    if header.command != NOTIFICATION_COMMAND {
      return Ok([Reply(header, payload)]);
    }
    assert stream[..|stream| - |socket.data|] == start + more + payload;
    r := Judge(header, payload, start + more + payload);
  }

  /** The notification branch: a frame with the wrong fields or a body that does not parse is dropped. */
  method Judge(header: AdsHeader, payload: seq<byte>, message: seq<byte>) returns (r: Outcome<seq<Incoming>>)
    ensures r == NotifyOf(header, payload, message)
  {
    if |payload| < 4 {
      return Panic;
    }
    var length := U32(payload[..4]);
    if header.stateFlags != 4 || header.errorCode != 0 || length != |payload| - 4 || length < 4 {
      return Ok([]);
    }
    var notification := NewNotification(message);
    r := if notification.Ok? then Ok([Notify(notification.value)]) else Ok([]);
  }

  lemma ReceiveStep(source: AmsAddr, stream: seq<byte>)
    ensures match ReadFrame(source, stream)
            case Ok((events, rest)) =>
              Receive(source, stream) == (events + Receive(source, rest).0, Receive(source, rest).1)
            case Fail(error) => Receive(source, stream) == ([], Failed(error))
            case Panic => Receive(source, stream) == ([], Panicked)
  {
    hide ReadFrame;
  }

  /** The reader task's loop, run until the stream ends or a frame ends it. */
  method ReaderWork(source: AmsAddr, socket: Cursor) returns (events: seq<Incoming>, end: End)
    modifies socket
    ensures (events, end) == Receive(source, old(socket.data))
  {
    hide ReadFrame, Receive;
    events := [];
    ghost var all := Receive(source, socket.data);
    while true
      invariant events + Receive(source, socket.data).0 == all.0
      invariant Receive(source, socket.data).1 == all.1
      decreases |socket.data|
    {
      ghost var stream := socket.data;
      ReceiveStep(source, stream);
      var round := ReadRound(source, socket);
      match round {
        case Ok(handed) =>
          ReadFrameProgress(source, stream);
          assert events + (handed + Receive(source, socket.data).0) == events + handed + Receive(source, socket.data).0;
          events := events + handed;
        case Fail(error) =>
          assert events + [] == events;
          return events, Failed(error);
        case Panic =>
          assert events + [] == events;
          return events, Panicked;
      }
    }
  }
}
