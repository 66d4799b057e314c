/**
  * Notification messages: the validating pass, the unchecked iterator that relies on it, and
  * the reference reading both are proved against.
  */
module Notifications {
  import opened Outcomes
  import opened Bytes

  datatype RawSample = RawSample(handle: u32, data: seq<byte>)
  datatype Stamp = Stamp(timestamp: u64, samples: seq<RawSample>)
  datatype Sample = Sample(handle: u32, timestamp: u64, data: seq<byte>)

  // The AMS/TCP and AMS headers, the notification length, and the number of stamps.
  const HEADER_SIZE := 38
  const BODY_START := 46

  // ---- The reference reading of a body -----------------------------------------------------

  function ParseSamples(count: nat, ptr: seq<byte>): Outcome<(seq<RawSample>, seq<byte>)> {
    if count == 0 then Ok(([], ptr)) else
    var (handle, ptr1) :- ReadU32(ptr);
    var (length, ptr2) :- ReadU32(ptr1);
    var (data, ptr3) :- Take(length, ptr2);
    var (samples, rest) :- ParseSamples(count - 1, ptr3);
    Ok(([RawSample(handle, data)] + samples, rest))
  }

  function ParseStamps(count: nat, ptr: seq<byte>): Outcome<(seq<Stamp>, seq<byte>)> {
    if count == 0 then Ok(([], ptr)) else
    var (timestamp, ptr1) :- ReadU64(ptr);
    var (nsamples, ptr2) :- ReadU32(ptr1);
    var (samples, ptr3) :- ParseSamples(nsamples, ptr2);
    var (stamps, rest) :- ParseStamps(count - 1, ptr3);
    Ok(([Stamp(timestamp, samples)] + stamps, rest))
  }

  /** The stamps of a whole message: the stamp count is at byte 42, and no byte may be left over. */
  function Parse(message: seq<byte>): Outcome<seq<Stamp>> {
    if |message| < BODY_START then Fail(Io) else
    var (stamps, rest) :- ParseStamps(U32(message[42..46]), message[BODY_START..]);
    if rest == [] then Ok(stamps) else Fail(Io)
  }

  // ---- The layout a body has on the wire, in front of any further bytes ---------------------

  predicate SamplesFit(samples: seq<RawSample>) {
    |samples| < U32_LIMIT && forall i :: 0 <= i < |samples| ==> |samples[i].data| < U32_LIMIT
  }

  predicate StampsFit(stamps: seq<Stamp>) {
    forall i :: 0 <= i < |stamps| ==> SamplesFit(stamps[i].samples)
  }

  function EncodeSamples(samples: seq<RawSample>, rest: seq<byte>): seq<byte>
    requires SamplesFit(samples)
  {
    if samples == [] then rest else
    var s := samples[0];
    PutU32(s.handle) + (PutU32(|s.data|) + (s.data + EncodeSamples(samples[1..], rest)))
  }

  function EncodeStamps(stamps: seq<Stamp>, rest: seq<byte>): seq<byte>
    requires StampsFit(stamps)
  {
    if stamps == [] then rest else
    var s := stamps[0];
    PutU64(s.timestamp) + (PutU32(|s.samples|) + EncodeSamples(s.samples, EncodeStamps(stamps[1..], rest)))
  }

  // ---- Bodies and stamp lists are in bijection ---------------------------------------------

  lemma {:induction false} ParseEncodedSamples(samples: seq<RawSample>, rest: seq<byte>)
    requires SamplesFit(samples)
    ensures ParseSamples(|samples|, EncodeSamples(samples, rest)) == Ok((samples, rest))
  {
    hide U32, U64, PutU32, PutU64;
    if samples != [] {
      var s, tail := samples[0], EncodeSamples(samples[1..], rest);
      ReadPutU32(s.handle, PutU32(|s.data|) + (s.data + tail));
      ReadPutU32(|s.data|, s.data + tail);
      TakeAppend(s.data, tail);
      ParseEncodedSamples(samples[1..], rest);
      assert [s] + samples[1..] == samples;
    }
  }

  /** Reading back an encoded list of stamps gives the list, and stops exactly at its end. */
  lemma {:induction false} ParseEncodedStamps(stamps: seq<Stamp>, rest: seq<byte>)
    requires StampsFit(stamps)
    ensures ParseStamps(|stamps|, EncodeStamps(stamps, rest)) == Ok((stamps, rest))
  {
    hide U32, U64, PutU32, PutU64;
    if stamps != [] {
      var s, tail := stamps[0], EncodeStamps(stamps[1..], rest);
      ReadPutU64(s.timestamp, PutU32(|s.samples|) + EncodeSamples(s.samples, tail));
      ReadPutU32(|s.samples|, EncodeSamples(s.samples, tail));
      ParseEncodedSamples(s.samples, tail);
      ParseEncodedStamps(stamps[1..], rest);
      assert [s] + stamps[1..] == stamps;
    }
  }

  lemma {:induction false} EncodeParsedSamples(count: u32, ptr: seq<byte>)
    requires ParseSamples(count, ptr).Ok?
    ensures var (samples, rest) := ParseSamples(count, ptr).value;
            |samples| == count && SamplesFit(samples) && EncodeSamples(samples, rest) == ptr
  {
    hide U32, U64, PutU32;
    if count > 0 {
      var (handle, ptr1) := ReadU32(ptr).value;
      var (length, ptr2) := ReadU32(ptr1).value;
      var (data, ptr3) := Take(length, ptr2).value;
      PutReadU32(ptr);
      PutReadU32(ptr1);
      assert data + ptr3 == ptr2;
      EncodeParsedSamples(count - 1, ptr3);
      var samples := ParseSamples(count, ptr).value.0;
      assert samples[1..] == ParseSamples(count - 1, ptr3).value.0;
    }
  }

  /** Writing out what was read from a body gives the body: no byte is skipped or read twice. */
  lemma {:induction false} EncodeParsedStamps(count: nat, ptr: seq<byte>)
    requires ParseStamps(count, ptr).Ok?
    ensures var (stamps, rest) := ParseStamps(count, ptr).value;
            |stamps| == count && StampsFit(stamps) && EncodeStamps(stamps, rest) == ptr
  {
    hide U32, U64, PutU32, PutU64;
    if count > 0 {
      var (timestamp, ptr1) := ReadU64(ptr).value;
      var (nsamples, ptr2) := ReadU32(ptr1).value;
      var (samples, ptr3) := ParseSamples(nsamples, ptr2).value;
      PutReadU64(ptr);
      PutReadU32(ptr1);
      EncodeParsedSamples(nsamples, ptr2);
      EncodeParsedStamps(count - 1, ptr3);
      var stamps := ParseStamps(count, ptr).value.0;
      assert stamps[1..] == ParseStamps(count - 1, ptr3).value.0;
    }
  }

  /** A message is accepted exactly when its body is the encoding of as many stamps as it announces. */
  lemma AcceptedIffEncoded(message: seq<byte>, stamps: seq<Stamp>)
    requires BODY_START <= |message|
    ensures Parse(message) == Ok(stamps) <==>
              && StampsFit(stamps)
              && |stamps| == U32(message[42..46])
              && EncodeStamps(stamps, []) == message[BODY_START..]
  {
    if Parse(message) == Ok(stamps) {
      EncodeParsedStamps(U32(message[42..46]), message[BODY_START..]);
    }
    if StampsFit(stamps) {
      ParseEncodedStamps(stamps, []);
    }
  }

  function SampleCount(stamps: seq<Stamp>): nat {
    if stamps == [] then 0 else |stamps[0].samples| + SampleCount(stamps[1..])
  }

  function DataSize(samples: seq<RawSample>): nat {
    if samples == [] then 0 else |samples[0].data| + DataSize(samples[1..])
  }

  function TotalDataSize(stamps: seq<Stamp>): nat {
    if stamps == [] then 0 else DataSize(stamps[0].samples) + TotalDataSize(stamps[1..])
  }

  lemma {:induction false} SamplesSize(samples: seq<RawSample>, rest: seq<byte>)
    requires SamplesFit(samples)
    ensures |EncodeSamples(samples, rest)| == 8 * |samples| + DataSize(samples) + |rest|
  {
    if samples != [] {
      SamplesSize(samples[1..], rest);
    }
  }

  lemma {:induction false} StampsSize(stamps: seq<Stamp>, rest: seq<byte>)
    requires StampsFit(stamps)
    ensures |EncodeStamps(stamps, rest)|
         == 12 * |stamps| + 8 * SampleCount(stamps) + TotalDataSize(stamps) + |rest|
  {
    if stamps != [] {
      SamplesSize(stamps[0].samples, EncodeStamps(stamps[1..], rest));
      StampsSize(stamps[1..], rest);
    }
  }

  /** Every stamp costs 12 bytes and every sample 8, so the message size bounds the accepted counts. */
  lemma AcceptedCountsAreBounded(message: seq<byte>)
    requires Parse(message).Ok?
    ensures 12 * U32(message[42..46]) + 8 * SampleCount(Parse(message).value) + TotalDataSize(Parse(message).value)
         == |message| - BODY_START
  {
    EncodeParsedStamps(U32(message[42..46]), message[BODY_START..]);
    StampsSize(Parse(message).value, []);
  }

  // ---- The samples in message order --------------------------------------------------------

  function Stamped(timestamp: u64, samples: seq<RawSample>): (r: seq<Sample>)
    ensures |r| == |samples|
    ensures forall i :: 0 <= i < |r| ==> r[i] == Sample(samples[i].handle, timestamp, samples[i].data)
  {
    if samples == [] then [] else
    [Sample(samples[0].handle, timestamp, samples[0].data)] + Stamped(timestamp, samples[1..])
  }

  function Flatten(stamps: seq<Stamp>): seq<Sample> {
    if stamps == [] then [] else Stamped(stamps[0].timestamp, stamps[0].samples) + Flatten(stamps[1..])
  }

  // ---- The message and its validator -------------------------------------------------------

  datatype Notification = Notification(data: seq<byte>, nstamps: u32) {

    /** What the validator established. */
    ghost predicate Valid() {
      Parse(data).Ok? && nstamps == U32(data[42..46])
    }

    ghost function Stamps(): seq<Stamp>
      requires Valid()
    {
      Parse(data).value
    }
  }

  // Where a reading stops, forgetting what was read.

  function SkipSamples(count: nat, ptr: seq<byte>): Outcome<seq<byte>> {
    if count == 0 then Ok(ptr) else
    var (_, ptr1) :- ReadU32(ptr);
    var (length, ptr2) :- ReadU32(ptr1);
    if length <= |ptr2| then SkipSamples(count - 1, ptr2[length..]) else Fail(Io)
  }

  function SkipStamps(count: nat, ptr: seq<byte>): Outcome<seq<byte>> {
    if count == 0 then Ok(ptr) else
    var (_, ptr1) :- ReadU64(ptr);
    var (nsamples, ptr2) :- ReadU32(ptr1);
    var ptr3 :- SkipSamples(nsamples, ptr2);
    SkipStamps(count - 1, ptr3)
  }

  lemma {:induction false} SkipSamplesStops(count: nat, ptr: seq<byte>)
    ensures SkipSamples(count, ptr)
         == match ParseSamples(count, ptr)
            case Ok((_, rest)) => Ok(rest)
            case Fail(e) => Fail(e)
            case Panic => Panic
  {
    hide U32, U64;
    if count > 0 && ReadU32(ptr).Ok? {
      var ptr1 := ReadU32(ptr).value.1;
      if ReadU32(ptr1).Ok? {
        var (length, ptr2) := ReadU32(ptr1).value;
        if length <= |ptr2| {
          SkipSamplesStops(count - 1, ptr2[length..]);
        }
      }
    }
  }

  lemma {:induction false} SkipStampsStops(count: nat, ptr: seq<byte>)
    ensures SkipStamps(count, ptr)
         == match ParseStamps(count, ptr) { case Ok((_, rest)) => Ok(rest) case Fail(e) => Fail(e) case Panic => Panic }
  {
    hide U32, U64;
    if count > 0 && ReadU64(ptr).Ok? {
      var ptr1 := ReadU64(ptr).value.1;
      if ReadU32(ptr1).Ok? {
        var (nsamples, ptr2) := ReadU32(ptr1).value;
        SkipSamplesStops(nsamples, ptr2);
        if SkipSamples(nsamples, ptr2).Ok? {
          SkipStampsStops(count - 1, SkipSamples(nsamples, ptr2).value);
        }
      }
    }
  }

  /** The validator's inner loop: steps over `nsamples` samples without keeping them. */
  method SkipSampleBlock(ptr: Cursor, nsamples: u32) returns (r: Outcome<()>)
    modifies ptr
    ensures r.Ok? ==> SkipSamples(nsamples, old(ptr.data)) == Ok(ptr.data)
    ensures !r.Ok? ==> r == Fail(Io) && SkipSamples(nsamples, old(ptr.data)) == Fail(Io)
  {
    hide U32;
    for j := 0 to nsamples
      invariant SkipSamples(nsamples, old(ptr.data)) == SkipSamples(nsamples - j, ptr.data)
    {
      var _ :- ptr.TakeU32();
      var length :- ptr.TakeU32();
      if |ptr.data| >= length {
        ptr.data := ptr.data[length..];
      } else {
        return Fail(Io);
      }
    }
    r := Ok(());
  }

  /** Accepts a message exactly when the reference reading does, and keeps its bytes. */
  method NewNotification(data: seq<byte>) returns (r: Outcome<Notification>)
    ensures r.Ok? <==> Parse(data).Ok?
    ensures r.Ok? ==> r.value.Valid() && r.value.data == data
    ensures !r.Ok? ==> r == Fail(Io)
  {
    if |data| < HEADER_SIZE + 8 {
      return Fail(Io);
    }
    hide U32, U64;
    ghost var count, body := U32(data[42..46]), data[BODY_START..];
    SkipStampsStops(count, body);
    var ptr := new Cursor(data[HEADER_SIZE + 4..]);
    assert ptr.data[..4] == data[42..46] && ptr.data[4..] == body;
    var read := ptr.TakeU32();
    var nstamps := read.value;
    for i := 0 to nstamps
      invariant SkipStamps(count, body) == SkipStamps(nstamps - i, ptr.data)
    {
      var _ :- ptr.TakeU64();
      var nsamples :- ptr.TakeU32();
      var _ :- SkipSampleBlock(ptr, nsamples);
    }
    if ptr.data == [] {
      r := Ok(Notification(data, nstamps));
    } else {
      r := Fail(Io);
    }
  }

  // ---- The iterator ------------------------------------------------------------------------

  /** The samples an iterator in the given state still owes, or a failure if it would run out of bytes. */
  ghost function Owed(data: seq<byte>, timestamp: u64, stampsLeft: nat, samplesLeft: nat): Outcome<seq<Sample>> {
    var (samples, rest) :- ParseSamples(samplesLeft, data);
    var (stamps, rest') :- ParseStamps(stampsLeft, rest);
    if rest' == [] then Ok(Stamped(timestamp, samples) + Flatten(stamps)) else Fail(Io)
  }

  /** One sample is read off the front, under the current stamp's timestamp. */
  lemma OwedSample(data: seq<byte>, timestamp: u64, stampsLeft: nat, samplesLeft: nat)
    returns (handle: u32, length: u32, ptr: seq<byte>)
    requires samplesLeft > 0 && Owed(data, timestamp, stampsLeft, samplesLeft).Ok?
    ensures ReadU32(data).Ok? && ReadU32(ReadU32(data).value.1) == Ok((length, ptr))
    ensures ReadU32(data).value.0 == handle && length <= |ptr|
    ensures Owed(ptr[length..], timestamp, stampsLeft, samplesLeft - 1).Ok?
    ensures Owed(data, timestamp, stampsLeft, samplesLeft).value
         == [Sample(handle, timestamp, ptr[..length])]
             + Owed(ptr[length..], timestamp, stampsLeft, samplesLeft - 1).value
  {
    hide U32, U64, Flatten, Stamped;
    var ptr1;
    handle, ptr1 := ReadU32(data).value.0, ReadU32(data).value.1;
    length, ptr := ReadU32(ptr1).value.0, ReadU32(ptr1).value.1;
    var raw := RawSample(handle, ptr[..length]);
    var samples := ParseSamples(samplesLeft - 1, ptr[length..]).value.0;
    assert ParseSamples(samplesLeft, data).value.0 == [raw] + samples;
    StampedCons(timestamp, raw, samples);
  }

  lemma StampedCons(timestamp: u64, raw: RawSample, samples: seq<RawSample>)
    ensures Stamped(timestamp, [raw] + samples)
            == [Sample(raw.handle, timestamp, raw.data)] + Stamped(timestamp, samples)
  {
    assert ([raw] + samples)[1..] == samples;
  }

  lemma FlattenCons(stamp: Stamp, stamps: seq<Stamp>)
    ensures Flatten([stamp] + stamps) == Stamped(stamp.timestamp, stamp.samples) + Flatten(stamps)
  {
    assert ([stamp] + stamps)[1..] == stamps;
  }

  /** Between stamps, the next timestamp and sample count are read. */
  lemma OwedStamp(data: seq<byte>, timestamp: u64, stampsLeft: nat)
    returns (timestamp': u64, nsamples: u32, ptr: seq<byte>)
    requires stampsLeft > 0 && Owed(data, timestamp, stampsLeft, 0).Ok?
    ensures ReadU64(data).Ok? && ReadU32(ReadU64(data).value.1) == Ok((nsamples, ptr))
    ensures ReadU64(data).value.0 == timestamp'
    ensures Owed(data, timestamp, stampsLeft, 0) == Owed(ptr, timestamp', stampsLeft - 1, nsamples)
  {
    hide U32, U64;
    var ptr1;
    timestamp', ptr1 := ReadU64(data).value.0, ReadU64(data).value.1;
    nsamples, ptr := ReadU32(ptr1).value.0, ReadU32(ptr1).value.1;
    var (samples, ptr2) := ParseSamples(nsamples, ptr).value;
    var stamps := ParseStamps(stampsLeft - 1, ptr2).value.0;
    assert ParseStamps(stampsLeft, data).value.0 == [Stamp(timestamp', samples)] + stamps;
    FlattenCons(Stamp(timestamp', samples), stamps);
    assert Stamped(timestamp, []) + Flatten([Stamp(timestamp', samples)] + stamps)
           == Stamped(timestamp', samples) + Flatten(stamps);
  }

  lemma NothingOwed(data: seq<byte>, timestamp: u64)
    requires Owed(data, timestamp, 0, 0).Ok?
    ensures data == [] && Owed(data, timestamp, 0, 0).value == []
  {
  }

  class SampleIter {
    var data: seq<byte>
    var curTimestamp: u64
    var stampsLeft: u32
    var samplesLeft: u32

    /** Every read that is left succeeds, and together they consume every byte that is left. */
    ghost predicate Valid()
      reads this
    {
      Owed(data, curTimestamp, stampsLeft, samplesLeft).Ok?
    }

    ghost function Remaining(): seq<Sample>
      requires Valid()
      reads this
    {
      Owed(data, curTimestamp, stampsLeft, samplesLeft).value
    }

    /** Starts at byte 46.  An accepted message owes exactly its samples, stamp by stamp. */
    constructor (notification: Notification)
      requires notification.Valid()
      ensures Valid() && Remaining() == Flatten(notification.Stamps())
    {
      data := notification.data[BODY_START..];
      curTimestamp := 0;
      stampsLeft := notification.nstamps;
      samplesLeft := 0;
      new;
      assert Stamped(0, []) + Flatten(notification.Stamps()) == Flatten(notification.Stamps());
    }

    /**
      * The unchecked step.  Its reads and its split are proof obligations here; it ends when
      * every byte has been consumed, and not before.
      */
    method Next() returns (r: Option<Sample>)
      requires Valid()
      modifies this
      ensures Valid()
      ensures r.None? <==> old(Remaining()) == []
      ensures r.None? ==> Remaining() == [] && data == []
      ensures r.Some? ==> old(Remaining()) == [r.value] + Remaining()
      ensures stampsLeft <= old(stampsLeft)
      ensures r.Some? ==> stampsLeft < old(stampsLeft) || samplesLeft < old(samplesLeft)
      decreases stampsLeft
    {
      hide Owed, U32, U64;
      if samplesLeft > 0 {
        ghost var _, _, _ := OwedSample(data, curTimestamp, stampsLeft, samplesLeft);
        var handle := U32(data[..4]);
        data := data[4..];
        var length := U32(data[..4]);
        data := data[4..];
        var sample := data[..length];
        data := data[length..];
        samplesLeft := samplesLeft - 1;
        r := Some(Sample(handle, curTimestamp, sample));
      } else if stampsLeft > 0 {
        ghost var _, _, _ := OwedStamp(data, curTimestamp, stampsLeft);
        curTimestamp := U64(data[..8]);
        data := data[8..];
        samplesLeft := U32(data[..4]);
        data := data[4..];
        stampsLeft := stampsLeft - 1;
        r := Next();
      } else {
        NothingOwed(data, curTimestamp);
        r := None;
      }
    }
  }

  /** Iterating an accepted message to its end never fails a read and gives its samples in order. */
  method CollectSamples(notification: Notification) returns (samples: seq<Sample>)
    requires notification.Valid()
    ensures samples == Flatten(notification.Stamps())
  {
    var iter := new SampleIter(notification);
    samples := [];
    while true
      invariant iter.Valid()
      invariant samples + iter.Remaining() == Flatten(notification.Stamps())
      decreases |iter.Remaining()|
    {
      ghost var owed := iter.Remaining();
      var next := iter.Next();
      if next.None? {
        return;
      }
      assert samples + owed == samples + [next.value] + iter.Remaining();
      samples := samples + [next.value];
    }
  }
}
