/**
  * Where on the wire everything of a frame is: the same reader, requests and samples, told by absolute byte
  * positions and by the numbers of the protocol.
  */
module FrameBytes {
  import opened Outcomes
  import opened Bytes
  import opened Notifications
  import opened Frames
  import opened Exchange

  // ---- Headers -----------------------------------------------------------------------------

  /** The header at the front of some bytes, AMS/TCP header included, field by field. */
  predicate HeaderAt(h: AdsHeader, b: seq<byte>)
    requires 38 <= |b|
  {
    && h.amsCmd == U16(b[0..2]) && h.length == U32(b[2..6])
    && h.dest.netid == b[6..12] && h.dest.port == U16(b[12..14])
    && h.src.netid == b[14..20] && h.src.port == U16(b[20..22])
    && h.command == U16(b[22..24]) && h.stateFlags == U16(b[24..26])
    && h.dataLength == U32(b[26..30]) && h.errorCode == U32(b[30..34]) && h.invokeId == U32(b[34..38])
  }

  /** Reading takes every field from its place. */
  lemma HeaderBytes(stream: seq<byte>)
    requires 38 <= |stream|
    ensures var r := ReadAmsHeader(U16(stream[0..2]), U32(stream[2..6]), stream[6..]);
            r.Ok? && HeaderAt(r.value.0, stream) && r.value.1 == stream[38..]
  {
    hide U16, U32;
    Window(stream, 6, 6);
    Window(stream, 12, 2);
    Window(stream, 14, 6);
    Window(stream, 20, 2);
    Window(stream, 22, 2);
    Window(stream, 24, 2);
    Window(stream, 26, 4);
    Window(stream, 30, 4);
    Window(stream, 34, 4);
  }

  /** Writing puts every field into its place. */
  lemma WrittenHeader(h: AdsHeader, rest: seq<byte>)
    ensures |PutHeader(h, rest)| == 38 + |rest|
    ensures HeaderAt(h, PutHeader(h, rest)) && PutHeader(h, rest)[38..] == rest
  {
    hide U16, U32, PutU16, PutU32, ReadAmsHeader, PutAmsHeader, HeaderAt;
    var stream := PutHeader(h, rest);
    HeaderSize(h, rest);
    HeaderBytes(stream);
    assert stream[0..2] == PutU16(h.amsCmd) && stream[2..6] == PutU32(h.length);
    assert stream[6..] == PutAmsHeader(h, rest);
    ReadPutAmsHeader(h, rest);
  }

  // ---- Requests ----------------------------------------------------------------------------

  /** The number of each command. */
  predicate CommandNumber(cmd: Command, n: nat) {
    || (cmd.DevInfo? && n == 1) || (cmd.Read? && n == 2) || (cmd.Write? && n == 3)
    || (cmd.ReadState? && n == 4) || (cmd.WriteControl? && n == 5) || (cmd.AddNotification? && n == 6)
    || (cmd.DeleteNotification? && n == 7) || (cmd.Notification? && n == 8) || (cmd.ReadWrite? && n == 9)
  }

  /**
    * A request, byte by byte.  It can be built as long as its length, 32 more than the payload's, fits its
    * field; it is addressed to the target, has flags 4, no error, and ends with the payload.
    */
  lemma RequestBytes(source: AmsAddr, target: AmsAddr, cmd: Command, invokeId: u32, payload: seq<byte>)
    ensures var r := Request(source, target, cmd, invokeId, payload);
            if 0x1_0000_0000 <= 32 + |payload| then r == Fail(Overflow) else
            && r.Ok? && |r.value| == 38 + |payload| && r.value[38..] == payload
            && U16(r.value[0..2]) == 0 && U32(r.value[2..6]) == 32 + |payload|
            && r.value[6..12] == target.netid && U16(r.value[12..14]) == target.port
            && r.value[14..20] == source.netid && U16(r.value[20..22]) == source.port
            && CommandNumber(cmd, U16(r.value[22..24])) && U16(r.value[24..26]) == 4
            && U32(r.value[26..30]) == |payload| && U32(r.value[30..34]) == 0 && U32(r.value[34..38]) == invokeId
  {
    hide U16, U32, PutHeader;
    if 32 + |payload| < 0x1_0000_0000 {
      WrittenHeader(RequestHeader(source, target, cmd, invokeId, |payload|), payload);
    }
  }

  // ---- The reader --------------------------------------------------------------------------

  /**
    * One round over a stream that holds all of the frame its length fields announce, decided by the bytes:
    * `kind` at 0, the packet's length at 2, the receiver at 6, the command at 22, the length of the data at 26.
    */
  lemma RoundByBytes(source: AmsAddr, stream: seq<byte>)
    requires 38 <= |stream| && 38 + U32(stream[26..30]) <= |stream| && 32 <= U32(stream[2..6])
    ensures var n: nat := U32(stream[26..30]);
            var kind, rest := U16(stream[0..2]), stream[38 + n..];
            var payload := stream[38..38 + n];
            var ours := stream[6..12] == source.netid && U16(stream[12..14]) == source.port;
            var r := ReadFrame(source, stream);
            if kind == 1 || kind == 4096 || kind == 4097 || kind == 4098 then r == Ok(([], rest))
            else if kind != 0 then r == Fail(BadReply(InvalidPacket, kind))
            else if U32(stream[2..6]) != 32 + n then r == Fail(BadReply(InconsistentLengths, 0))
            else if !ours then r == Ok(([], rest))
            else if U16(stream[22..24]) != 8 then
              exists h: AdsHeader :: HeaderAt(h, stream) && r == Ok(([Reply(h, payload)], rest))
            else if n < 4 then r == Panic
            else if && U16(stream[24..26]) == 4 && U32(stream[30..34]) == 0
                    && U32(stream[38..42]) == n - 4 && 8 <= n && Parse(stream[..38 + n]).Ok?
            then r == Ok(([Notify(Notifications.Notification(stream[..38 + n], U32(stream[42..46])))], rest))
            else r == Ok(([], rest))
  {
    hide U16, U32, ReadAmsHeader, Parse;
    HeaderBytes(stream);
    var n: nat := U32(stream[26..30]);
    Window(stream, 38, n);
    Window(stream, 2, 4);
    assert stream[..2] == stream[0..2];
    assert |stream| - |stream[38 + n..]| == 38 + n;
    if 8 <= n {
      assert stream[38..38 + n][..4] == stream[38..42];
      assert stream[..38 + n][42..46] == stream[42..46];
    } else if 4 <= n {
      assert stream[38..38 + n][..4] == stream[38..42];
    }
  }

  /** A packet of fewer than 32 bytes is skipped, whatever it is. */
  lemma ShortRoundByBytes(source: AmsAddr, stream: seq<byte>)
    requires 6 <= |stream| && U32(stream[2..6]) < 32
    ensures ReadFrame(source, stream)
         == if 6 + U32(stream[2..6]) <= |stream| then Ok(([], stream[6 + U32(stream[2..6])..])) else Fail(Io)
  {
    hide U16, U32;
    Window(stream, 2, 4);
    if 6 + U32(stream[2..6]) <= |stream| {
      Window(stream, 6, U32(stream[2..6]));
    }
  }

  // ---- Samples -----------------------------------------------------------------------------

  /** A sample: its handle, the length of its data, and its data. */
  predicate IsSample(sample: RawSample, b: seq<byte>, at: nat) {
    && at + 8 + |sample.data| <= |b|
    && sample.handle == U32(b[at..at + 4]) && |sample.data| == U32(b[at + 4..at + 8])
    && sample.data == b[at + 8..at + 8 + |sample.data|]
  }

  lemma SampleShifts(sample: RawSample, b: seq<byte>, k: nat, at: nat)
    requires k <= |b| && IsSample(sample, b[k..], at)
    ensures IsSample(sample, b, k + at)
  {
    hide U32;
    Windows(b, k, at, at + 4);
    Windows(b, k, at + 4, at + 8);
    Windows(b, k, at + 8, at + 8 + |sample.data|);
  }

  lemma FirstSample(count: nat, ptr: seq<byte>) returns (first: RawSample, next: nat, later: seq<RawSample>)
    requires ParseSamples(count, ptr).Ok? && count > 0
    ensures IsSample(first, ptr, 0) && next == 8 + |first.data| <= |ptr|
    ensures ParseSamples(count - 1, ptr[next..]).Ok? && ParseSamples(count - 1, ptr[next..]).value.0 == later
    ensures ParseSamples(count, ptr).value == ([first] + later, ParseSamples(count - 1, ptr[next..]).value.1)
  {
    hide U32;
    var (length, ptr2) := ReadU32(ReadU32(ptr).value.1).value;
    Window(ptr, 4, 4);
    Window(ptr, 8, length);
    first, next := RawSample(U32(ptr[..4]), ptr[8..8 + length]), 8 + length;
    later := ParseSamples(count - 1, ptr[next..]).value.0;
    assert ptr[..4] == ptr[0..4];
  }

  /** A sample's place among those of its stamp: each one before it takes eight bytes and its data. */
  lemma {:induction false} SampleAt(count: nat, ptr: seq<byte>, i: nat)
    requires ParseSamples(count, ptr).Ok? && i < count
    ensures |ParseSamples(count, ptr).value.0| == count
    ensures var samples := ParseSamples(count, ptr).value.0;
            IsSample(samples[i], ptr, 8 * i + DataSize(samples[..i]))
  {
    hide ParseSamples, IsSample;
    var first, next, later := FirstSample(count, ptr);
    SamplesCount(count - 1, ptr[next..]);
    var samples := [first] + later;
    if i > 0 {
      SampleAt(count - 1, ptr[next..], i - 1);
      assert samples[..i][1..] == later[..i - 1];
      SampleShifts(samples[i], ptr, next, 8 * (i - 1) + DataSize(later[..i - 1]));
    }
  }

  lemma {:induction false} SamplesCount(count: nat, ptr: seq<byte>)
    requires ParseSamples(count, ptr).Ok?
    ensures |ParseSamples(count, ptr).value.0| == count
  {
    hide IsSample;
    if count > 0 {
      var _, next, _ := FirstSample(count, ptr);
      SamplesCount(count - 1, ptr[next..]);
    }
  }

  /** Where a run of samples ends. */
  lemma {:induction false} SamplesEnd(count: nat, ptr: seq<byte>)
    requires ParseSamples(count, ptr).Ok?
    ensures var (samples, rest) := ParseSamples(count, ptr).value;
            8 * count + DataSize(samples) <= |ptr| && rest == ptr[8 * count + DataSize(samples)..]
  {
    hide IsSample, U32;
    if count > 0 {
      hide ParseSamples;
      var first, next, later := FirstSample(count, ptr);
      SamplesEnd(count - 1, ptr[next..]);
      assert ([first] + later)[1..] == later;
      assert DataSize([first] + later) == |first.data| + DataSize(later);
      assert ptr[next..][8 * (count - 1) + DataSize(later)..] == ptr[8 * count + DataSize([first] + later)..];
    }
  }

  /** A stamp's place: each one before it takes twelve bytes, and eight bytes and its data for every sample. */
  function StampStart(stamps: seq<Stamp>): nat {
    12 * |stamps| + 8 * SampleCount(stamps) + TotalDataSize(stamps)
  }

  /** A stamp: its time, the number of its samples, and its samples. */
  predicate IsStamp(stamp: Stamp, b: seq<byte>, at: nat) {
    && at + 12 <= |b|
    && stamp.timestamp == U64(b[at..at + 8]) && |stamp.samples| == U32(b[at + 8..at + 12])
    && ParseSamples(|stamp.samples|, b[at + 12..]).Ok?
    && ParseSamples(|stamp.samples|, b[at + 12..]).value.0 == stamp.samples
  }

  lemma StampShifts(stamp: Stamp, b: seq<byte>, k: nat, at: nat)
    requires k <= |b| && IsStamp(stamp, b[k..], at)
    ensures IsStamp(stamp, b, k + at)
  {
    hide U32, U64, ParseSamples;
    Windows(b, k, at, at + 8);
    Windows(b, k, at + 8, at + 12);
    assert b[k..][at + 12..] == b[k + at + 12..];
  }

  lemma FirstStamp(count: nat, ptr: seq<byte>) returns (first: Stamp, next: nat, later: seq<Stamp>)
    requires ParseStamps(count, ptr).Ok? && count > 0
    ensures IsStamp(first, ptr, 0) && next == StampStart([first]) <= |ptr|
    ensures ParseStamps(count - 1, ptr[next..]).Ok? && ParseStamps(count - 1, ptr[next..]).value.0 == later
    ensures ParseStamps(count, ptr).value.0 == [first] + later
  {
    hide U32, U64, ParseSamples;
    var (nsamples, ptr2) := ReadU32(ReadU64(ptr).value.1).value;
    Window(ptr, 8, 4);
    assert ptr[..8] == ptr[0..8] && ptr2 == ptr[12..];
    SamplesCount(nsamples, ptr2);
    SamplesEnd(nsamples, ptr2);
    first := Stamp(U64(ptr[..8]), ParseSamples(nsamples, ptr2).value.0);
    next := StampStart([first]);
    OneStamp(first);
    assert ptr2[8 * nsamples + DataSize(first.samples)..] == ptr[next..];
    later := ParseStamps(count - 1, ptr[next..]).value.0;
  }

  lemma {:induction false} StampAt(count: nat, ptr: seq<byte>, i: nat)
    requires ParseStamps(count, ptr).Ok? && i < count && i < |ParseStamps(count, ptr).value.0|
    ensures var stamps := ParseStamps(count, ptr).value.0;
            IsStamp(stamps[i], ptr, StampStart(stamps[..i]))
  {
    hide IsStamp, ParseStamps, DataSize;
    var first, next, later := FirstStamp(count, ptr);
    if i > 0 {
      StampAt(count - 1, ptr[next..], i - 1);
      StampStartCons(first, later[..i - 1]);
      OneStamp(first);
      assert ([first] + later)[..i] == [first] + later[..i - 1];
      StampShifts(later[i - 1], ptr, next, StampStart(later[..i - 1]));
    }
  }

  lemma OneStamp(stamp: Stamp)
    ensures StampStart([stamp]) == 12 + 8 * |stamp.samples| + DataSize(stamp.samples)
  {
    assert [stamp] + [] == [stamp];
    StampStartCons(stamp, []);
  }

  lemma StampStartCons(first: Stamp, later: seq<Stamp>)
    ensures StampStart([first] + later)
         == 12 + 8 * |first.samples| + DataSize(first.samples) + StampStart(later)
  {
    var stamps := [first] + later;
    assert stamps[1..] == later;
    assert SampleCount(stamps) == |first.samples| + SampleCount(later);
    assert TotalDataSize(stamps) == DataSize(first.samples) + TotalDataSize(later);
  }

  /**
    * Every sample of an accepted message by its bytes: the stamp's time is eight bytes, the number of its samples
    * four; a sample is its handle, the length of its data, and its data.
    */
  lemma SampleBytes(message: seq<byte>, i: nat, j: nat)
    requires Parse(message).Ok? && i < |Parse(message).value| && j < |Parse(message).value[i].samples|
    ensures var stamps := Parse(message).value;
            var stamp, t := stamps[i], 46 + StampStart(stamps[..i]);
            && t + 12 <= |message| && |stamps| == U32(message[42..46])
            && stamp.timestamp == U64(message[t..t + 8]) && |stamp.samples| == U32(message[t + 8..t + 12])
            && IsSample(stamp.samples[j], message, t + 12 + 8 * j + DataSize(stamp.samples[..j]))
  {
    hide U32, U64, ParseSamples, ParseStamps, StampStart, DataSize, IsSample;
    var body, stamps := message[46..], Parse(message).value;
    EncodeParsedStamps(U32(message[42..46]), body);
    assert |stamps| == U32(message[42..46]);
    StampAt(|stamps|, body, i);
    StampShifts(stamps[i], message, 46, StampStart(stamps[..i]));
    var t := 46 + StampStart(stamps[..i]);
    SampleAt(|stamps[i].samples|, message[t + 12..], j);
    SampleShifts(stamps[i].samples[j], message, t + 12, 8 * j + DataSize(stamps[i].samples[..j]));
  }

  /**
    * The samples of a message one after the other: behind those of all earlier stamps come a stamp's own, in their
    * order, each with the stamp's time.
    */
  lemma {:induction false} SampleInOrder(stamps: seq<Stamp>, i: nat, j: nat)
    requires i < |stamps| && j < |stamps[i].samples|
    ensures |Flatten(stamps)| == SampleCount(stamps)
    ensures var k, raw := SampleCount(stamps[..i]) + j, stamps[i].samples[j];
            && k < |Flatten(stamps)|
            && Flatten(stamps)[k].handle == raw.handle && Flatten(stamps)[k].data == raw.data
            && Flatten(stamps)[k].timestamp == stamps[i].timestamp
  {
    hide Stamped;
    var first, more := stamps[0], stamps[1..];
    FlattenCount(more);
    if i > 0 {
      SampleInOrder(more, i - 1, j);
      assert stamps[..i][1..] == more[..i - 1];
      assert Flatten(stamps)[|first.samples|..] == Flatten(more);
    }
  }

  lemma {:induction false} FlattenCount(stamps: seq<Stamp>)
    ensures |Flatten(stamps)| == SampleCount(stamps)
  {
    if stamps != [] {
      FlattenCount(stamps[1..]);
    }
  }
}
