/**
  * The reply to a query for one type by name: an entry behind its own length, in a buffer of fixed
  * size, possibly cut short.
  */
module TypeReplies {
  import opened Outcomes
  import opened Bytes
  import opened Formats
  import opened ShortLayouts
  import opened TypeInfo
  import opened TypeSections
  import opened RpcMethods
  import opened TypeEntries
  import opened TypeInventory
  import opened ShortEntries

  const REPLY_BUFFER := 4096

  function Lesser(a: nat, b: nat): nat {
    if a < b then a else b
  }

  /**
    * The announced length is only trusted as far as there are bytes.  One below four makes the
    * slice that follows start after its end.
    */
  function ReadReply(lib: Foreign, reply: seq<byte>): Outcome<Type> {
    if |reply| < 4 then Fail(BadReply(TooShort, |reply|)) else
    var end := Lesser(U32(reply[..4]), |reply|);
    if end < 4 then Panic else ReadNamedType(lib, reply[4..end])
  }

  /** The buffer is sliced at the length that the device reports, which it need not have filled. */
  function ReadReported(lib: Foreign, buffer: seq<byte>, reported: nat): Outcome<Type> {
    if reported > |buffer| then Panic else ReadReply(lib, buffer[..reported])
  }

  /** What the first `k` bytes of an entry come to. */
  ghost function OutcomeOfCut(lib: Foreign, w: WireType, k: nat): Outcome<Type> {
    if ContentSize(lib, w) <= k then Ok(MeaningOfType(lib, w))
    else if InsideFieldOrMethod(lib, w, k) then Panic
    else Fail(Io)
  }

  lemma CutEntry(lib: Foreign, w: WireType, k: nat)
    requires TypeFits(lib, w) && k <= |PutType(lib, w)|
    ensures ReadNamedType(lib, PutType(lib, w)[..k]) == OutcomeOfCut(lib, w, k)
    ensures OutcomeOfCut(lib, w, k) == Panic <==> InsideFieldOrMethod(lib, w, k)
  {
    hide ReadNamedType, TypeFits, PutType, MeaningOfType, ContentSize, TypePanics, InsideFieldOrMethod;
    CutType(lib, w, k);
    TypePanicsIff(lib, w, k);
    PanicsInsideContent(lib, w, k);
  }

  lemma PanicsInsideContent(lib: Foreign, w: WireType, k: nat)
    ensures TypePanics(lib, w, k) ==> k < ContentSize(lib, w)
  {
    hide SomePanics, PartsPanic, SizeOfHeader, SizeOfParts;
  }

  /**
    * Any laid-out entry, with anything behind it, cut anywhere: fewer than four bytes are an error;
    * otherwise the reply is read as what the entry means when all but trailing bytes are there, panics
    * when the cut lies inside a field or a method, and is an error everywhere else.
    */
  lemma ReplyRoundTrip(lib: Foreign, w: WireType, rest: seq<byte>, n: nat)
    requires TypeFits(lib, w) && |PutType(lib, w)| + 4 < U32_LIMIT && n <= |PutEntry(PutType(lib, w), rest)|
    ensures ReadReply(lib, PutEntry(PutType(lib, w), rest)[..n])
         == if n < 4 then Fail(BadReply(TooShort, n)) else OutcomeOfCut(lib, w, Lesser(n - 4, |PutType(lib, w)|))
    ensures |PutType(lib, w)| + 4 <= n ==>
            ReadReply(lib, PutEntry(PutType(lib, w), rest)[..n]) == Ok(MeaningOfType(lib, w))
  {
    hide U32, PutU32, TypeFits, PutType, ReadNamedType, OutcomeOfCut, MeaningOfType;
    var entry := PutType(lib, w);
    assert entry[..|entry|] == entry;
    ReadPutType(lib, w);
    var reply := PutEntry(entry, rest)[..n];
    if 4 <= n {
      var k := Lesser(n - 4, |entry|);
      PartOfReply(PutU32(|entry| + 4), entry, rest, n, k);
      assert reply[..4] == PutU32(|entry| + 4);
      CutEntry(lib, w, k);
    }
  }

  lemma PartOfReply(length: seq<byte>, entry: seq<byte>, rest: seq<byte>, n: nat, k: nat)
    requires |length| == 4 && k <= |entry| && k + 4 <= n <= 4 + |entry| + |rest|
    ensures (length + (entry + rest))[..n][..4] == length
    ensures (length + (entry + rest))[..n][4..k + 4] == entry[..k]
  {
  }

  /**
    * Whatever length is announced in front of whatever part of an entry, the reply panics exactly
    * when the length is below four or the bytes it covers end inside a field or a method.
    */
  lemma ReplyPanicsIff(lib: Foreign, w: WireType, announced: u32, k: nat)
    requires TypeFits(lib, w) && k <= |PutType(lib, w)|
    ensures ReadReply(lib, PutU32(announced) + PutType(lib, w)[..k]) == Panic <==>
              announced < 4 || InsideFieldOrMethod(lib, w, Lesser(announced - 4, k))
  {
    hide U32, PutU32, TypeFits, PutType, ReadNamedType, OutcomeOfCut, InsideFieldOrMethod;
    var front := PutType(lib, w)[..k];
    var reply := PutU32(announced) + front;
    assert reply[..4] == PutU32(announced);
    if 4 <= announced {
      var seen := Lesser(announced - 4, k);
      assert reply[4..seen + 4] == front[..seen] == PutType(lib, w)[..seen];
      CutEntry(lib, w, seen);
    }
  }

  /**
    * An entry that a device has put into the buffer as far as it goes: a report of more bytes than
    * the buffer has panics, and a report of those it has reads the entry cut at the buffer's end.
    */
  lemma ReportedReply(lib: Foreign, w: WireType, entry: seq<byte>, buffer: seq<byte>, reported: nat)
    requires TypeFits(lib, w) && |PutType(lib, w)| + 4 < U32_LIMIT && entry == PutEntry(PutType(lib, w), [])
    requires Delivered(entry, buffer)
    ensures 4096 < reported ==> ReadReported(lib, buffer, reported) == Panic
    ensures reported == Lesser(|entry|, 4096) ==>
              ReadReported(lib, buffer, reported) == OutcomeOfCut(lib, w, Lesser(|PutType(lib, w)|, 4092))
  {
    hide PutU32, ReadReply, TypeFits, PutType, OutcomeOfCut;
    if reported == Lesser(|entry|, REPLY_BUFFER) {
      assert buffer[..reported] == entry[..reported];
      ReplyRoundTrip(lib, w, [], reported);
    }
  }

  predicate Delivered(entry: seq<byte>, buffer: seq<byte>) {
    |buffer| == REPLY_BUFFER && entry[..Lesser(|entry|, REPLY_BUFFER)] <= buffer
  }

  // ---- Two replies that panic --------------------------------------------------------------

  /** A reply that announces two bytes. */
  lemma ShortReplyPanics(lib: Foreign)
    ensures ReadReply(lib, [2, 0, 0, 0]) == Panic
  {
  }

  const BLANK := WireHeader([0, 0, 0, 0, 0, 0, 0, 0], 0, 0, 0, 0, 0, Texts([0], [0], [0]), [])
  const NO_PARTS := WireParts([], [], [], [])
  const ONE_FIELD :=
    WireType(1, BLANK.(subItems := 1), [WireField(1, BLANK, NO_PARTS, [])], NO_PARTS, [], [])

  predicate NoFlags(flags: u32) {
    && !Flag(flags, FLAG_GUID) && !Flag(flags, FLAG_COPY_MASK) && !Flag(flags, FLAG_METHOD_INFOS)
    && !Flag(flags, FLAG_ATTRIBUTES) && !Flag(flags, FLAG_ENUM_INFOS)
  }

  lemma BlankParts(lib: Foreign, rest: seq<byte>)
    ensures NoFlags(0) && PartsFit(lib, 0, 0, NO_PARTS)
    ensures SizeOfParts(lib, 0, NO_PARTS) == 0 && PutParts(lib, 0, 0, NO_PARTS, rest) == rest
  {
    hide Methods, Attributes, Guid, Raw, MethodsCut, CountedCut, RawCut;
  }

  lemma BlankHeader(lib: Foreign, subItems: u16, rest: seq<byte>)
    ensures HeaderFits(BLANK.(subItems := subItems)) && SizeOfHeader(BLANK.(subItems := subItems)) == 37
    ensures |PutHeader(BLANK.(subItems := subItems), rest)| == 37 + |rest|
  {
    hide Dimension, PutHeader;
    CutHeader(lib, BLANK.(subItems := subItems), rest, 0);
  }

  lemma OneFieldFits(lib: Foreign)
    ensures TypeFits(lib, ONE_FIELD)
    ensures FieldsStart(ONE_FIELD) == 41 && FieldSizes(lib, ONE_FIELD.fields) == [45]
    ensures |PutType(lib, ONE_FIELD)| == ContentSize(lib, ONE_FIELD) == 86
  {
    hide PutU32, PutParts, PartsFit, PutHeader, HeaderFits, SizeOfParts, Enums, Flag, SizeOfHeader, PutType;
    var f := ONE_FIELD.fields[0];
    BlankParts(lib, []);
    BlankHeader(lib, 0, []);
    BlankHeader(lib, 1, []);
    assert |PutField(lib, f)| == 41;
    assert FieldSizes(lib, ONE_FIELD.fields) == [45];
    assert ONE_FIELD.fields[1..] == [];
    assert SizeOfAll(FieldCut(lib).size, ONE_FIELD.fields) == 45 + SizeOfAll(FieldCut(lib).size, []);
    CutType(lib, ONE_FIELD, 0);
  }

  /** A type with one field, of whose 90 bytes the first 49 arrive: the field's length, and nothing behind it. */
  lemma CutReplyPanics(lib: Foreign)
    ensures |PutEntry(PutType(lib, ONE_FIELD), [])| == 90
    ensures ReadReply(lib, PutEntry(PutType(lib, ONE_FIELD), [])[..49]) == Panic
  {
    hide PutU32, PutType, TypeFits, ReadReply, ContentSize, FieldSizes, FieldsStart;
    OneFieldFits(lib);
    ReplyRoundTrip(lib, ONE_FIELD, [], 49);
    assert EntryStart(FieldSizes(lib, ONE_FIELD.fields), 0) == 0;
    assert InsideEntry(FieldSizes(lib, ONE_FIELD.fields), 4);
  }
}
