/** Requests and replies: building a request frame, judging a reply, and handing its data out. */
module Exchange {
  import opened Outcomes
  import opened Bytes
  import opened Frames

  datatype Command =
    | DevInfo | Read | Write | ReadWrite | ReadState | WriteControl
    | AddNotification | DeleteNotification | Notification
  {
    function Code(): u16 {
      match this
      case DevInfo => 1
      case Read => 2
      case Write => 3
      case ReadState => 4
      case WriteControl => 5
      case AddNotification => 6
      case DeleteNotification => 7
      case Notification => 8
      case ReadWrite => 9
    }
  }

  function Concat(bufs: seq<seq<byte>>): seq<byte> {
    if bufs == [] then [] else bufs[0] + Concat(bufs[1..])
  }

  lemma {:induction false} ConcatAppend(a: seq<seq<byte>>, b: seq<seq<byte>>)
    ensures Concat(a + b) == Concat(a) + Concat(b)
  {
    if a == [] {
      assert a + b == b;
    } else {
      assert (a + b)[1..] == a[1..] + b;
      ConcatAppend(a[1..], b);
    }
  }

  // ---- The request -------------------------------------------------------------------------

  function RequestHeader(source: AmsAddr, target: AmsAddr, cmd: Command, invokeId: u32, payloadLen: nat): AdsHeader
    requires AMS_HEADER_SIZE + payloadLen < U32_LIMIT
  {
    AdsHeader(0, AMS_HEADER_SIZE + payloadLen, target, source, cmd.Code(), 4, payloadLen, 0, invokeId)
  }

  function Request(source: AmsAddr, target: AmsAddr, cmd: Command, invokeId: u32, payload: seq<byte>)
    : Outcome<seq<byte>>
  {
    if AMS_HEADER_SIZE + |payload| >= U32_LIMIT then Fail(Overflow)
    else Ok(PutHeader(RequestHeader(source, target, cmd, invokeId, |payload|), payload))
  }

  // ---- The reply ---------------------------------------------------------------------------

  /**
    * The checks a caller makes on the reply it was given, in their order.  `first` is the length
    * of the first result buffer, if any.  The value is the data behind the result field.
    */
  function CheckReply(
    target: AmsAddr, cmd: Command, invokeId: u32, h: AdsHeader, payload: seq<byte>, first: Option<nat>)
    : Outcome<seq<byte>>
  {
    if h.src != target then Fail(BadReply(WrongSource, 0))
    else if h.command != cmd.Code() then Fail(BadReply(UnexpectedCommand, h.command))
    else if h.stateFlags != 5 then Fail(BadReply(UnexpectedFlags, h.stateFlags))
    else if h.invokeId != invokeId then Fail(BadReply(UnexpectedInvokeId, h.invokeId))
    else if h.errorCode != 0 then Fail(Ads(h.errorCode))
    else if |payload| < 4 then Panic
    else if U32(payload[..4]) != 0 then Fail(Ads(U32(payload[..4])))
    else if first.None? then Ok([])
    else if |payload| < first.value + 4 then Fail(BadReply(TooShort, |payload| % U32_LIMIT))
    else Ok(payload[4..])
  }

  /** From the target, and the answer to the request by its command, flags and invoke ID. */
  predicate IsReplyTo(target: AmsAddr, cmd: Command, invokeId: u32, h: AdsHeader) {
    h.src == target && h.command == cmd.Code() && h.stateFlags == 5 && h.invokeId == invokeId
  }

  lemma ResultField(payload: seq<byte>)
    ensures forall code: u32, data: seq<byte> :: payload == PutU32(code) + data ==>
              |payload| == 4 + |data| && U32(payload[..4]) == code && payload[4..] == data
    ensures 4 <= |payload| ==> payload == PutU32(U32(payload[..4])) + payload[4..]
  {
    hide U32, PutU32;
    forall code: u32, data: seq<byte> | payload == PutU32(code) + data
      ensures U32(payload[..4]) == code && payload[4..] == data
    {
      assert payload[..4] == PutU32(code);
    }
    if 4 <= |payload| {
      PutU32OfU32(payload[..4]);
      assert payload == payload[..4] + payload[4..];
    }
  }

  function Min(a: nat, b: nat): nat {
    if a < b then a else b
  }

  /** Data handed out to buffers of fixed lengths, front to back. */
  function Scatter(data: seq<byte>, bufs: seq<seq<byte>>): (r: seq<seq<byte>>)
    ensures |r| == |bufs|
  {
    if bufs == [] then [] else
    var n := Min(|bufs[0]|, |data|);
    [data[..n] + bufs[0][n..]] + Scatter(data[n..], bufs[1..])
  }

  lemma {:induction false} ScatterKeepsLengths(data: seq<byte>, bufs: seq<seq<byte>>)
    ensures |Concat(Scatter(data, bufs))| == |Concat(bufs)|
    ensures forall k :: 0 <= k < |bufs| ==> |Scatter(data, bufs)[k]| == |bufs[k]|
  {
    if bufs != [] {
      ScatterKeepsLengths(data[Min(|bufs[0]|, |data|)..], bufs[1..]);
      assert Scatter(data, bufs)[1..] == Scatter(data[Min(|bufs[0]|, |data|)..], bufs[1..]);
    }
  }

  /**
    * Seen as one long buffer, the result buffers begin with the reply data, as far as they reach,
    * and keep every later byte.
    */
  lemma {:induction false} ScatterIsOverwrite(data: seq<byte>, bufs: seq<seq<byte>>, i: nat)
    requires i < |Concat(bufs)|
    ensures |Concat(Scatter(data, bufs))| == |Concat(bufs)|
    ensures Concat(Scatter(data, bufs))[i] == if i < |data| then data[i] else Concat(bufs)[i]
  {
    ScatterKeepsLengths(data, bufs);
    var n := Min(|bufs[0]|, |data|);
    var more := Scatter(data[n..], bufs[1..]);
    assert Scatter(data, bufs)[1..] == more;
    if i >= |bufs[0]| {
      ScatterKeepsLengths(data[n..], bufs[1..]);
      ScatterIsOverwrite(data[n..], bufs[1..], i - |bufs[0]|);
    }
  }

  /** Where a buffer starts in the long buffer. */
  function Start(bufs: seq<seq<byte>>, k: nat): nat
    requires k <= |bufs|
  {
    if k == 0 then 0 else |bufs[0]| + Start(bufs[1..], k - 1)
  }

  lemma {:induction false} StartNext(bufs: seq<seq<byte>>, k: nat)
    requires k < |bufs|
    ensures Start(bufs, k + 1) == Start(bufs, k) + |bufs[k]|
  {
    if k > 0 {
      StartNext(bufs[1..], k - 1);
    }
  }

  lemma {:induction false} ScatterAt(data: seq<byte>, bufs: seq<seq<byte>>, k: nat)
    requires k < |bufs|
    ensures var t := Min(Start(bufs, k), |data|);
            var n := Min(|bufs[k]|, |data| - t);
            Scatter(data, bufs)[k] == data[t..t + n] + bufs[k][n..]
  {
    if k > 0 {
      var n := Min(|bufs[0]|, |data|);
      ScatterAt(data[n..], bufs[1..], k - 1);
      var t := Min(Start(bufs[1..], k - 1), |data[n..]|);
      assert n + t == Min(Start(bufs, k), |data|);
      SliceOfRest(data, n, t, Min(|bufs[k]|, |data[n..]| - t));
    }
  }

  lemma SliceOfRest(data: seq<byte>, n: nat, t: nat, m: nat)
    requires n + t + m <= |data|
    ensures data[n..][t..t + m] == data[n + t..n + t + m]
  {
  }

  // ---- The client --------------------------------------------------------------------------

  class Client {
    const source: AmsAddr
    const target: AmsAddr
    var invokeId: u32

    constructor (source: AmsAddr, target: AmsAddr)
      ensures this.source == source && this.target == target && invokeId == 1
    {
      this.source := source;
      this.target := target;
      invokeId := 1;
    }

    /** Takes an invoke ID, even when the request then turns out too long, and gathers the payload. */
    method BuildRequest(cmd: Command, payloadBufs: seq<seq<byte>>) returns (dispatched: u32, r: Outcome<seq<byte>>)
      modifies this
      ensures dispatched == old(invokeId) && invokeId == (old(invokeId) + 1) % U32_LIMIT
      ensures r == Request(source, target, cmd, dispatched, Concat(payloadBufs))
    {
      hide PutHeader;
      dispatched := invokeId;
      invokeId := (invokeId + 1) % U32_LIMIT;

      var payloadLen := 0;
      for i := 0 to |payloadBufs|
        invariant invokeId == (old(invokeId) + 1) % U32_LIMIT
        invariant payloadLen == |Concat(payloadBufs[..i])|
      {
        ConcatNext(payloadBufs, i);
        payloadLen := payloadLen + |payloadBufs[i]|;
      }
      assert payloadBufs[..|payloadBufs|] == payloadBufs;
      if AMS_HEADER_SIZE + payloadLen >= U32_LIMIT {
        return dispatched, Fail(Overflow);
      }
      var header := RequestHeader(source, target, cmd, dispatched, payloadLen);
      var buffer := PutHeader(header, []);
      for i := 0 to |payloadBufs|
        invariant invokeId == (old(invokeId) + 1) % U32_LIMIT
        invariant buffer == PutHeader(header, Concat(payloadBufs[..i]))
      {
        ConcatNext(payloadBufs, i);
        PutHeaderAppend(header, Concat(payloadBufs[..i]), payloadBufs[i]);
        buffer := buffer + payloadBufs[i];
      }
      r := Ok(buffer);
    }

    /**
      * Judges a reply and, if it is good, copies its data into the caller's buffers in place.
      * Returns the number of data bytes; a reply that is not good leaves every buffer alone.
      */
    method TakeReply(cmd: Command, dispatched: u32, h: AdsHeader, payload: seq<byte>, resultBufs: seq<array<byte>>)
      returns (r: Outcome<nat>)
      requires Distinct(resultBufs)
      modifies set b | b in resultBufs
      ensures var checked := CheckReply(target, cmd, dispatched, h, payload, FirstLength(resultBufs));
              && (checked.Ok? ==>
                    && r == Ok(|checked.value|)
                    && Contents(resultBufs) == Scatter(checked.value, old(Contents(resultBufs))))
              && (!checked.Ok? ==> r == Discard(checked) && Contents(resultBufs) == old(Contents(resultBufs)))
      ensures h.src != target ==> r == Fail(BadReply(WrongSource, 0))
      ensures h.src == target && h.command != cmd.Code() ==> r == Fail(BadReply(UnexpectedCommand, h.command))
      ensures h.src == target && h.command == cmd.Code() && h.stateFlags != 5 ==>
                r == Fail(BadReply(UnexpectedFlags, h.stateFlags))
      ensures h.src == target && h.command == cmd.Code() && h.stateFlags == 5 && h.invokeId != dispatched ==>
                r == Fail(BadReply(UnexpectedInvokeId, h.invokeId))
      ensures IsReplyTo(target, cmd, dispatched, h) && h.errorCode == 0 && |payload| < 4 ==> r == Panic
      ensures IsReplyTo(target, cmd, dispatched, h) && h.errorCode != 0 ==> r == Fail(Ads(h.errorCode))
      ensures forall code: u32, data: seq<byte> ::
                IsReplyTo(target, cmd, dispatched, h) && h.errorCode == 0 && payload == PutU32(code) + data ==>
                  r == (if code != 0 then Fail(Ads(code))
                        else if resultBufs == [] then Ok(0)
                        else if |data| < resultBufs[0].Length then Fail(BadReply(TooShort, (4 + |data|) % U32_LIMIT))
                        else Ok(|data|))
    {
      hide Scatter, Contents, U32, PutU32;
      ResultField(payload);
      ghost var before := Contents(resultBufs);
      if h.src != target {
        return Fail(BadReply(WrongSource, 0));
      }
      if h.command != cmd.Code() {
        return Fail(BadReply(UnexpectedCommand, h.command));
      }
      if h.stateFlags != 5 {
        return Fail(BadReply(UnexpectedFlags, h.stateFlags));
      }
      if h.invokeId != dispatched {
        return Fail(BadReply(UnexpectedInvokeId, h.invokeId));
      }
      if h.errorCode != 0 {
        return Fail(Ads(h.errorCode));
      }
      if |payload| < 4 {
        return Panic;
      }
      var result := U32(payload[..4]);
      if result != 0 {
        return Fail(Ads(result));
      }
      if resultBufs == [] {
        assert Scatter([], before) == [];
        return Ok(0);
      }
      if |payload| < resultBufs[0].Length + 4 {
        return Fail(BadReply(TooShort, |payload| % U32_LIMIT));
      }
      HandOut(payload[4..], resultBufs);
      r := Ok(|payload| - 4);
    }
  }

  /** The length of the first result buffer, if there is one. */
  function FirstLength(bufs: seq<array<byte>>): Option<nat> {
    if bufs == [] then None else Some(bufs[0].Length)
  }

  function Discard<T>(o: Outcome<T>): Outcome<nat>
    requires !o.Ok?
  {
    match o
    case Fail(e) => Fail(e)
    case Panic => Panic
  }

  lemma ConcatNext(bufs: seq<seq<byte>>, i: nat)
    requires i < |bufs|
    ensures Concat(bufs[..i + 1]) == Concat(bufs[..i]) + bufs[i]
  {
    assert bufs[..i + 1] == bufs[..i] + [bufs[i]];
    ConcatAppend(bufs[..i], [bufs[i]]);
    assert Concat([bufs[i]]) == bufs[i] + [];
  }

  function Contents(bufs: seq<array<byte>>): (r: seq<seq<byte>>)
    reads set b | b in bufs
    ensures |r| == |bufs| && forall i :: 0 <= i < |bufs| ==> r[i] == bufs[i][..]
  {
    if bufs == [] then [] else [bufs[0][..]] + Contents(bufs[1..])
  }

  predicate Distinct(bufs: seq<array<byte>>) {
    forall i, j :: 0 <= i < j < |bufs| ==> bufs[i] != bufs[j]
  }

  /** The scatter loop: copies consecutive pieces of the data over the front of each buffer. */
  method HandOut(data: seq<byte>, bufs: seq<array<byte>>)
    requires Distinct(bufs)
    modifies set b | b in bufs
    ensures Contents(bufs) == Scatter(data, old(Contents(bufs)))
  {
    hide Scatter, Start, Contents;
    ghost var before, after := Contents(bufs), Scatter(data, Contents(bufs));
    var taken, restLen := 0, |data|;
    assert Start(before, 0) == 0 by { StartZero(before); }
    for k := 0 to |bufs|
      invariant taken + restLen == |data| && taken == Min(Start(before, k), |data|)
      invariant forall j :: 0 <= j < k ==> bufs[j][..] == after[j]
      invariant forall j :: k <= j < |bufs| ==> bufs[j][..] == before[j]
    {
      StartNext(before, k);
      ScatterAt(data, before, k);
      var buf := bufs[k];
      var n := if buf.Length < restLen then buf.Length else restLen;
      CopyFront(buf, data[taken..taken + n]);
      taken := taken + n;
      restLen := restLen - n;
      if restLen == 0 {
        NothingLeft(data, before, k);
        assert Contents(bufs) == after;
        return;
      }
    }
    assert Contents(bufs) == after;
  }

  lemma StartZero(bufs: seq<seq<byte>>)
    ensures Start(bufs, 0) == 0
  {
  }

  lemma NothingLeft(data: seq<byte>, bufs: seq<seq<byte>>, k: nat)
    requires k < |bufs| && |data| <= Start(bufs, k + 1)
    ensures forall j :: k < j < |bufs| ==> Scatter(data, bufs)[j] == bufs[j]
  {
    hide Scatter, Start;
    forall j | k < j < |bufs|
      ensures Scatter(data, bufs)[j] == bufs[j]
    {
      StartGrows(bufs, k + 1, j);
      ScatterAt(data, bufs, j);
    }
  }

  lemma {:induction false} StartGrows(bufs: seq<seq<byte>>, i: nat, j: nat)
    requires i <= j <= |bufs|
    ensures Start(bufs, i) <= Start(bufs, j)
    decreases j
  {
    hide Start;
    if i < j {
      StartGrows(bufs, i, j - 1);
      StartNext(bufs, j - 1);
    }
  }

  method CopyFront(buf: array<byte>, piece: seq<byte>)
    requires |piece| <= buf.Length
    modifies buf
    ensures buf[..] == piece + old(buf[..])[|piece|..]
  {
    forall i | 0 <= i < |piece| {
      buf[i] := piece[i];
    }
  }

  // ---- Request and reply together ----------------------------------------------------------

  /** A peer's answer: addresses swapped, command and invoke ID echoed, flags 4 | 1, no error. */
  function Answer(request: AdsHeader, data: seq<byte>): Frame
    requires AMS_HEADER_SIZE + 4 + |data| < U32_LIMIT
  {
    Full(
      AdsHeader(0, AMS_HEADER_SIZE + 4 + |data|, request.src, request.dest, request.command, 5,
                4 + |data|, 0, request.invokeId),
      PutU32(0) + data)
  }

  /** A request frame reaches its target as one message, with its header and payload intact. */
  lemma RequestArrives(
    source: AmsAddr, target: AmsAddr, cmd: Command, invokeId: u32, payload: seq<byte>, rest: seq<byte>)
    requires Request(source, target, cmd, invokeId, payload).Ok? && cmd != Notification
    ensures ReadFrame(target, Request(source, target, cmd, invokeId, payload).value + rest)
         == Ok(([Reply(RequestHeader(source, target, cmd, invokeId, |payload|), payload)], rest))
  {
    hide PutHeader, ReadFrame;
    var h := RequestHeader(source, target, cmd, invokeId, |payload|);
    PutHeaderAppend(h, payload, rest);
    ReadOneFrame(target, Full(h, payload), rest);
  }

  /**
    * An answered request succeeds.  The answer comes off the stream as the reply to the invoke ID
    * of the request, passes every check, and yields the peer's data, as long as there is enough
    * for the first buffer; with less than that, it is rejected as too short.
    */
  lemma AnsweredRequest(source: AmsAddr, target: AmsAddr, cmd: Command, invokeId: u32, payload: seq<byte>,
                        data: seq<byte>, first: nat, rest: seq<byte>)
    requires Request(source, target, cmd, invokeId, payload).Ok? && AMS_HEADER_SIZE + 4 + |data| < U32_LIMIT
    requires cmd != Notification
    ensures var answer := Answer(RequestHeader(source, target, cmd, invokeId, |payload|), data);
            && answer.Consistent()
            && ReadFrame(source, answer.Encode(rest)) == Ok(([Reply(answer.header, answer.payload)], rest))
            && answer.header.invokeId == invokeId
            && CheckReply(target, cmd, invokeId, answer.header, answer.payload, Some(first))
            == (if first <= |data| then Ok(data) else Fail(BadReply(TooShort, 4 + |data|)))
            && CheckReply(target, cmd, invokeId, answer.header, answer.payload, None) == Ok([])
  {
    hide PutHeader, ReadFrame;
    var answer := Answer(RequestHeader(source, target, cmd, invokeId, |payload|), data);
    ReadOneFrame(source, answer, rest);
    assert answer.payload[..4] == PutU32(0) && answer.payload[4..] == data;
  }

  /** A request with the notification command can never be answered: no answer comes off as a reply. */
  lemma NotificationCommandIsUnanswerable(source: AmsAddr, request: AdsHeader, data: seq<byte>, rest: seq<byte>)
    requires AMS_HEADER_SIZE + 4 + |data| < U32_LIMIT && request.src == source
    ensures request.command == Notification.Code() <==>
              ReadFrame(source, Answer(request, data).Encode(rest)) == Ok(([], rest))
  {
    hide PutHeader, ReadFrame;
    var answer := Answer(request, data);
    assert 4 <= |answer.payload|;
    ReadOneFrame(source, answer, rest);
  }

  /**
    * Whatever a reply's bytes are, the caller either gets all data behind the result field of a
    * reply that is in every respect the answer to its request, or none.
    */
  lemma CheckReplyIff(target: AmsAddr, cmd: Command, invokeId: u32, h: AdsHeader, payload: seq<byte>, first: nat)
    ensures CheckReply(target, cmd, invokeId, h, payload, Some(first)).Ok? <==>
              exists data: seq<byte> ::
                && payload == PutU32(0) + data && first <= |data|
                && h.src == target && h.command == cmd.Code() && h.invokeId == invokeId
                && h.stateFlags == 5 && h.errorCode == 0
    ensures CheckReply(target, cmd, invokeId, h, payload, Some(first)).Ok? ==>
              payload == PutU32(0) + CheckReply(target, cmd, invokeId, h, payload, Some(first)).value
    ensures CheckReply(target, cmd, invokeId, h, payload, Some(first)).Panic? <==>
              && h.src == target && h.command == cmd.Code() && h.stateFlags == 5 && h.invokeId == invokeId
              && h.errorCode == 0 && |payload| < 4
  {
    hide PutU32;
    if 4 <= |payload| {
      PutU32OfU32(payload[..4]);
      assert payload == payload[..4] + payload[4..];
    }
    forall data: seq<byte> | payload == PutU32(0) + data
      ensures payload[..4] == PutU32(0) && payload[4..] == data
    {
    }
  }

  /**
    * What a caller is told, for every reply, by header and payload alone: each verdict is given exactly for
    * these replies.  The first field that is wrong decides; an error in the header, or else in the result
    * field, is reported with its code.
    */
  lemma VerdictIff(
    target: AmsAddr, cmd: Command, invokeId: u32, h: AdsHeader, payload: seq<byte>, first: Option<nat>, code: nat)
    ensures var r := CheckReply(target, cmd, invokeId, h, payload, first);
            && (r == Fail(BadReply(WrongSource, code)) <==> h.src != target && code == 0)
            && (r == Fail(BadReply(UnexpectedCommand, code)) <==>
                  h.src == target && h.command != cmd.Code() && code == h.command)
            && (r == Fail(BadReply(UnexpectedFlags, code)) <==>
                  h.src == target && h.command == cmd.Code() && h.stateFlags != 5 && code == h.stateFlags)
            && (r == Fail(BadReply(UnexpectedInvokeId, code)) <==>
                  && h.src == target && h.command == cmd.Code() && h.stateFlags == 5 && h.invokeId != invokeId
                  && code == h.invokeId)
            && (r == Fail(Ads(code)) <==>
                  && IsReplyTo(target, cmd, invokeId, h) && code != 0
                  && (h.errorCode == code || (h.errorCode == 0 && ResultIs(code, payload))))
            && (r == Panic <==> IsReplyTo(target, cmd, invokeId, h) && h.errorCode == 0 && |payload| < 4)
            && (r == Fail(BadReply(TooShort, code)) <==>
                  && IsReplyTo(target, cmd, invokeId, h) && h.errorCode == 0 && ResultIs(0, payload)
                  && first.Some? && |payload| < first.value + 4 && code == |payload| % 0x1_0000_0000)
            && (r.Ok? <==>
                  && IsReplyTo(target, cmd, invokeId, h) && h.errorCode == 0 && ResultIs(0, payload)
                  && (first.Some? ==> first.value + 4 <= |payload|))
  {
    hide U32, PutU32;
    ResultField(payload);
  }

  /** The payload starts with this number. */
  ghost predicate ResultIs(code: nat, payload: seq<byte>) {
    code < U32_LIMIT && exists data: seq<byte> :: payload == PutU32(code) + data
  }

  /** A reply that is in every respect the answer but for its missing result field. */
  lemma BareReplyPanics(source: AmsAddr, target: AmsAddr, cmd: Command, invokeId: u32, first: nat)
    ensures var h := AdsHeader(0, 32, source, target, cmd.Code(), 5, 0, 0, invokeId);
            CheckReply(target, cmd, invokeId, h, [], Some(first)) == Panic
  {
  }
}
