/**
  * Byte formats: a reader together with the layout it reads.  A format is sound when reading what
  * was laid out gives its meaning and stops at its end, and complete when everything the reader
  * accepts is the layout of something.
  */
module Formats {
  import opened Outcomes
  import opened Bytes

  /** `W` is what is on the wire, `T` what the reader makes of it.  `put` writes in front of further bytes. */
  datatype Format<!W, !T> = Format(
    read: seq<byte> -> Outcome<(T, seq<byte>)>,
    put: (W, seq<byte>) -> seq<byte>,
    valid: W -> bool,
    meaning: W -> T)

  ghost predicate Sound<W(!new), T>(f: Format<W, T>) {
    forall w: W, rest: seq<byte> :: f.valid(w) ==> f.read(f.put(w, rest)) == Ok((f.meaning(w), rest))
  }

  ghost predicate Complete<W(!new), T>(f: Format<W, T>) {
    forall ptr: seq<byte> :: f.read(ptr).Ok? ==> exists w: W :: Wrote(f, w, ptr)
  }

  ghost predicate Wrote<W, T>(f: Format<W, T>, w: W, ptr: seq<byte>)
    requires f.read(ptr).Ok?
  {
    f.valid(w) && f.put(w, f.read(ptr).value.1) == ptr && f.meaning(w) == f.read(ptr).value.0
  }

  /** Lengths are written truncated to their field, as a cast does. */
  function PutLength8(n: int): (bs: seq<byte>)
    ensures |bs| == 1
  {
    [n % 0x100]
  }

  function PutLength16(n: int): (bs: seq<byte>)
    ensures |bs| == 2
  {
    PutU16(n % 0x1_0000)
  }

  lemma ReadPutLength8(n: byte, rest: seq<byte>)
    ensures ReadU8(PutLength8(n) + rest) == Ok((n, rest))
  {
    assert ([n] + rest)[1..] == rest;
  }

  lemma PutReadLength8(bs: seq<byte>)
    requires ReadU8(bs).Ok?
    ensures PutLength8(ReadU8(bs).value.0) + ReadU8(bs).value.1 == bs
  {
    assert [bs[0]] + bs[1..] == bs;
  }

  lemma ReadPutLength16(n: u16, rest: seq<byte>)
    ensures ReadU16(PutLength16(n) + rest) == Ok((n, rest))
  {
    ReadPutU16(n, rest);
  }

  lemma PutReadLength16(bs: seq<byte>)
    requires ReadU16(bs).Ok?
    ensures PutLength16(ReadU16(bs).value.0) + ReadU16(bs).value.1 == bs
  {
    PutReadU16(bs);
  }

  // ---- A known number of items -------------------------------------------------------------

  function ReadMany<T>(read: seq<byte> -> Outcome<(T, seq<byte>)>, count: nat, ptr: seq<byte>)
    : Outcome<(seq<T>, seq<byte>)>
  {
    if count == 0 then Ok(([], ptr)) else
    var (item, ptr1) :- read(ptr);
    var (items, rest) :- ReadMany(read, count - 1, ptr1);
    Ok(([item] + items, rest))
  }

  function PutMany<W>(put: (W, seq<byte>) -> seq<byte>, ws: seq<W>, rest: seq<byte>): seq<byte> {
    if ws == [] then rest else put(ws[0], PutMany(put, ws[1..], rest))
  }

  function Meanings<W, T>(meaning: W -> T, ws: seq<W>): (r: seq<T>)
    ensures |r| == |ws| && forall i :: 0 <= i < |r| ==> r[i] == meaning(ws[i])
  {
    if ws == [] then [] else [meaning(ws[0])] + Meanings(meaning, ws[1..])
  }

  predicate AllValid<W>(valid: W -> bool, ws: seq<W>) {
    forall i :: 0 <= i < |ws| ==> valid(ws[i])
  }

  lemma {:induction false} ManySound<W(!new), T>(f: Format<W, T>, ws: seq<W>, rest: seq<byte>)
    requires Sound(f) && AllValid(f.valid, ws)
    ensures ReadMany(f.read, |ws|, PutMany(f.put, ws, rest)) == Ok((Meanings(f.meaning, ws), rest))
  {
    if ws != [] {
      ManySound(f, ws[1..], rest);
      assert f.valid(ws[0]);
    }
  }

  lemma {:induction false} ManyComplete<W(!new), T>(f: Format<W, T>, count: nat, ptr: seq<byte>) returns (ws: seq<W>)
    requires Complete(f) && ReadMany(f.read, count, ptr).Ok?
    ensures |ws| == count && AllValid(f.valid, ws)
    ensures PutMany(f.put, ws, ReadMany(f.read, count, ptr).value.1) == ptr
    ensures Meanings(f.meaning, ws) == ReadMany(f.read, count, ptr).value.0
  {
    if count == 0 {
      ws := [];
    } else {
      var w :| Wrote(f, w, ptr);
      var (item, ptr1) := f.read(ptr).value;
      var more := ManyComplete(f, count - 1, ptr1);
      ws := [w] + more;
      assert ws[1..] == more;
    }
  }

  /** A reader that is pickier than the format's own item by item is so for all of them. */
  ghost predicate Picks<W(!new), T>(f: Format<W, T>, read: seq<byte> -> Outcome<(T, seq<byte>)>, picked: W -> bool) {
    forall w: W, rest: seq<byte> :: f.valid(w) ==>
      && (read(f.put(w, rest)).Ok? <==> picked(w))
      && (read(f.put(w, rest)).Ok? ==> read(f.put(w, rest)).value == (f.meaning(w), rest))
  }

  lemma {:induction false} ManyPicks<W(!new), T>(
    f: Format<W, T>, read: seq<byte> -> Outcome<(T, seq<byte>)>, picked: W -> bool, ws: seq<W>, rest: seq<byte>)
    requires Picks(f, read, picked) && AllValid(f.valid, ws)
    ensures var r := ReadMany(read, |ws|, PutMany(f.put, ws, rest));
            && (r.Ok? <==> AllValid(picked, ws))
            && (r.Ok? ==> r.value == (Meanings(f.meaning, ws), rest))
  {
    if ws != [] {
      assert f.valid(ws[0]);
      ManyPicks(f, read, picked, ws[1..], rest);
      assert forall i :: 0 <= i < |ws[1..]| ==> ws[1..][i] == ws[i + 1];
      assert forall i :: 1 <= i < |ws| ==> ws[i] == ws[1..][i - 1];
    }
  }

  /** One more item, as a loop reads them. */
  lemma ReadManyStep<T>(read: seq<byte> -> Outcome<(T, seq<byte>)>, count: nat, ptr: seq<byte>, done: seq<T>)
    requires count > 0
    ensures AddTo(done, ReadMany(read, count, ptr))
         == match read(ptr)
            case Ok((item, ptr1)) => AddTo(done + [item], ReadMany(read, count - 1, ptr1))
            case Fail(e) => Fail(e)
            case Panic => Panic
  {
    if read(ptr).Ok? {
      var (item, ptr1) := read(ptr).value;
      var more := ReadMany(read, count - 1, ptr1);
      if more.Ok? {
        assert done + ([item] + more.value.0) == done + [item] + more.value.0;
      }
    }
  }

  function AddTo<T>(done: seq<T>, more: Outcome<(seq<T>, seq<byte>)>): Outcome<(seq<T>, seq<byte>)> {
    var (items, rest) :- more;
    Ok((done + items, rest))
  }

  // ---- A count of two bytes, then that many items ------------------------------------------

  function ReadCounted<T>(read: seq<byte> -> Outcome<(T, seq<byte>)>, ptr: seq<byte>): Outcome<(seq<T>, seq<byte>)> {
    var (count, ptr1) :- ReadU16(ptr);
    ReadMany(read, count, ptr1)
  }

  function Counted<W, T>(f: Format<W, T>): Format<seq<W>, seq<T>> {
    Format(
      ptr => ReadCounted(f.read, ptr),
      (ws, rest) => PutLength16(|ws|) + PutMany(f.put, ws, rest),
      ws => |ws| < 0x1_0000 && AllValid(f.valid, ws),
      ws => Meanings(f.meaning, ws))
  }

  lemma CountedSound<W(!new), T>(f: Format<W, T>)
    requires Sound(f)
    ensures Sound(Counted(f))
  {
    hide ReadU16, PutU16, ReadMany, PutMany, Meanings;
    var g := Counted(f);
    forall ws: seq<W>, rest: seq<byte> | g.valid(ws)
      ensures g.read(g.put(ws, rest)) == Ok((g.meaning(ws), rest))
    {
      ReadPutU16(|ws|, PutMany(f.put, ws, rest));
      ManySound(f, ws, rest);
    }
  }

  lemma CountedComplete<W(!new), T>(f: Format<W, T>)
    requires Complete(f)
    ensures Complete(Counted(f))
  {
    hide ReadU16, PutU16, ReadMany, PutMany, Meanings;
    var g := Counted(f);
    forall ptr: seq<byte> | g.read(ptr).Ok?
      ensures exists ws: seq<W> :: Wrote(g, ws, ptr)
    {
      PutReadU16(ptr);
      var (count, ptr1) := ReadU16(ptr).value;
      var ws := ManyComplete(f, count, ptr1);
      assert Wrote(g, ws, ptr);
    }
  }

  // ---- Sections that a flag selects, and raw bytes -----------------------------------------

  function ReadIf<T>(flag: bool, read: seq<byte> -> Outcome<(T, seq<byte>)>, ptr: seq<byte>)
    : Outcome<(Option<T>, seq<byte>)>
  {
    if !flag then Ok((None, ptr)) else
    var (item, rest) :- read(ptr);
    Ok((Some(item), rest))
  }

  function PutIf<W>(flag: bool, put: (W, seq<byte>) -> seq<byte>, w: W, rest: seq<byte>): seq<byte> {
    if flag then put(w, rest) else rest
  }

  function MeaningIf<W, T>(flag: bool, meaning: W -> T, w: W): Option<T> {
    if flag then Some(meaning(w)) else None
  }

  lemma IfSound<W(!new), T>(flag: bool, f: Format<W, T>, w: W, rest: seq<byte>)
    requires Sound(f) && (flag ==> f.valid(w))
    ensures ReadIf(flag, f.read, PutIf(flag, f.put, w, rest)) == Ok((MeaningIf(flag, f.meaning, w), rest))
  {
  }

  /** What a flag leaves out can be anything, here `other`. */
  lemma IfComplete<W(!new), T>(flag: bool, f: Format<W, T>, other: W, ptr: seq<byte>) returns (w: W)
    requires Complete(f) && ReadIf(flag, f.read, ptr).Ok?
    ensures flag ==> f.valid(w)
    ensures PutIf(flag, f.put, w, ReadIf(flag, f.read, ptr).value.1) == ptr
    ensures MeaningIf(flag, f.meaning, w) == ReadIf(flag, f.read, ptr).value.0
  {
    if flag {
      w :| Wrote(f, w, ptr);
    } else {
      w := other;
    }
  }

  function Raw(n: nat): Format<seq<byte>, seq<byte>> {
    Format(ptr => Take(n, ptr), (bytes: seq<byte>, rest) => bytes + rest, bytes => |bytes| == n, bytes => bytes)
  }

  lemma RawSound(n: nat)
    ensures Sound(Raw(n))
  {
    var f := Raw(n);
    forall bytes: seq<byte>, rest: seq<byte> | f.valid(bytes)
      ensures f.read(f.put(bytes, rest)) == Ok((f.meaning(bytes), rest))
    {
      TakeAppend(bytes, rest);
    }
  }

  lemma RawComplete(n: nat)
    ensures Complete(Raw(n))
  {
    var f := Raw(n);
    forall ptr: seq<byte> | f.read(ptr).Ok?
      ensures exists bytes: seq<byte> :: Wrote(f, bytes, ptr)
    {
      assert ptr[..n] + ptr[n..] == ptr;
      assert Wrote(f, ptr[..n], ptr);
    }
  }

  // ---- Entries with a length ---------------------------------------------------------------

  /** What an entry's length can be when it does not even cover its own four bytes. */
  datatype Short = Rejects | Panics

  /** The bytes of an entry whose length, which counts its own four bytes, has been read. */
  function SplitEntry(short: Short, length: u32, ptr: seq<byte>): Outcome<(seq<byte>, seq<byte>)> {
    if length < 4 then (if short.Rejects? then Fail(BadReply(InvalidEntryLength, length)) else Panic)
    else if length - 4 <= |ptr| then Ok((ptr[..length - 4], ptr[length - 4..]))
    else Panic
  }

  /** What is inside an entry: it ends with the entry. */
  datatype Body<!W, !T> = Body(
    read: seq<byte> -> Outcome<T>,
    put: W -> seq<byte>,
    valid: W -> bool,
    meaning: W -> T)

  ghost predicate BodySound<W(!new), T>(b: Body<W, T>) {
    forall w: W :: b.valid(w) ==> b.read(b.put(w)) == Ok(b.meaning(w))
  }

  ghost predicate BodyComplete<W(!new), T>(b: Body<W, T>) {
    forall data: seq<byte> :: b.read(data).Ok? ==> exists w: W :: Holds(b, w, data)
  }

  ghost predicate Holds<W, T>(b: Body<W, T>, w: W, data: seq<byte>)
    requires b.read(data).Ok?
  {
    b.valid(w) && b.put(w) == data && b.meaning(w) == b.read(data).value
  }

  function ReadEntry<T>(short: Short, read: seq<byte> -> Outcome<T>, ptr: seq<byte>): Outcome<(T, seq<byte>)> {
    var (length, ptr1) :- ReadU32(ptr);
    var (entry, rest) :- SplitEntry(short, length, ptr1);
    var item :- read(entry);
    Ok((item, rest))
  }

  function PutEntry(entry: seq<byte>, rest: seq<byte>): seq<byte> {
    PutU32((|entry| + 4) % U32_LIMIT) + (entry + rest)
  }

  function Framed<W, T>(short: Short, b: Body<W, T>): Format<W, T> {
    Format(
      ptr => ReadEntry(short, b.read, ptr),
      (w, rest) => PutEntry(b.put(w), rest),
      w => b.valid(w) && |b.put(w)| + 4 < U32_LIMIT,
      b.meaning)
  }

  lemma SplitPutEntry(short: Short, entry: seq<byte>, rest: seq<byte>)
    requires |entry| + 4 < U32_LIMIT
    ensures ReadU32(PutEntry(entry, rest)) == Ok((|entry| + 4, entry + rest))
    ensures SplitEntry(short, |entry| + 4, entry + rest) == Ok((entry, rest))
  {
    hide PutU32, ReadU32;
    ReadPutU32(|entry| + 4, entry + rest);
    assert (entry + rest)[..|entry|] == entry && (entry + rest)[|entry|..] == rest;
  }

  lemma PutSplitEntry(short: Short, ptr: seq<byte>)
    requires ReadU32(ptr).Ok? && SplitEntry(short, ReadU32(ptr).value.0, ReadU32(ptr).value.1).Ok?
    ensures var (entry, rest) := SplitEntry(short, ReadU32(ptr).value.0, ReadU32(ptr).value.1).value;
            |entry| + 4 < U32_LIMIT && PutEntry(entry, rest) == ptr
  {
    hide PutU32, U32;
    var (length, ptr1) := ReadU32(ptr).value;
    PutReadU32(ptr);
    assert ptr1[..length - 4] + ptr1[length - 4..] == ptr1;
  }

  lemma FramedSound<W(!new), T>(short: Short, b: Body<W, T>)
    requires BodySound(b)
    ensures Sound(Framed(short, b))
  {
    hide ReadU32, SplitEntry, PutEntry;
    var f := Framed(short, b);
    forall w: W, rest: seq<byte> | f.valid(w)
      ensures f.read(f.put(w, rest)) == Ok((f.meaning(w), rest))
    {
      SplitPutEntry(short, b.put(w), rest);
    }
  }

  lemma FramedComplete<W(!new), T>(short: Short, b: Body<W, T>)
    requires BodyComplete(b)
    ensures Complete(Framed(short, b))
  {
    hide ReadU32, SplitEntry, PutEntry;
    var f := Framed(short, b);
    forall ptr: seq<byte> | f.read(ptr).Ok?
      ensures exists w: W :: Wrote(f, w, ptr)
    {
      PutSplitEntry(short, ptr);
      var (entry, rest) := SplitEntry(short, ReadU32(ptr).value.0, ReadU32(ptr).value.1).value;
      var w :| Holds(b, w, entry);
      assert Wrote(f, w, ptr);
    }
  }

  // ---- Entries up to the end of the data ---------------------------------------------------

  function ReadAll<T>(read: seq<byte> -> Outcome<T>, ptr: seq<byte>): Outcome<seq<T>>
    decreases |ptr|
  {
    if ptr == [] then Ok([]) else
    var (length, ptr1) :- ReadU32(ptr);
    var (entry, rest) :- SplitEntry(Panics, length, ptr1);
    var item :- read(entry);
    var items :- ReadAll(read, rest);
    Ok([item] + items)
  }

  function PutAll<W>(put: W -> seq<byte>, ws: seq<W>): seq<byte> {
    if ws == [] then [] else PutEntry(put(ws[0]), PutAll(put, ws[1..]))
  }

  predicate AllFit<W, T>(b: Body<W, T>, ws: seq<W>) {
    forall i :: 0 <= i < |ws| ==> b.valid(ws[i]) && |b.put(ws[i])| + 4 < U32_LIMIT
  }

  lemma {:induction false} AllSound<W(!new), T>(b: Body<W, T>, ws: seq<W>)
    requires BodySound(b) && AllFit(b, ws)
    ensures ReadAll(b.read, PutAll(b.put, ws)) == Ok(Meanings(b.meaning, ws))
  {
    hide ReadU32, SplitEntry, PutEntry;
    if ws != [] {
      var rest := PutAll(b.put, ws[1..]);
      assert b.valid(ws[0]);
      SplitPutEntry(Panics, b.put(ws[0]), rest);
      EntryNotEmpty(b.put(ws[0]), rest);
      AllSound(b, ws[1..]);
    }
  }

  lemma EntryNotEmpty(entry: seq<byte>, rest: seq<byte>)
    ensures PutEntry(entry, rest) != []
  {
  }

  lemma {:induction false} AllComplete<W(!new), T>(b: Body<W, T>, ptr: seq<byte>) returns (ws: seq<W>)
    requires BodyComplete(b) && ReadAll(b.read, ptr).Ok?
    ensures AllFit(b, ws) && PutAll(b.put, ws) == ptr && Meanings(b.meaning, ws) == ReadAll(b.read, ptr).value
    decreases |ptr|
  {
    hide ReadU32, SplitEntry, PutEntry;
    if ptr == [] {
      ws := [];
    } else {
      PutSplitEntry(Panics, ptr);
      var (entry, rest) := SplitEntry(Panics, ReadU32(ptr).value.0, ReadU32(ptr).value.1).value;
      var w :| Holds(b, w, entry);
      EntryIsLonger(entry, rest);
      var more := AllComplete(b, rest);
      ws := [w] + more;
      assert ws[1..] == more;
    }
  }

  lemma EntryIsLonger(entry: seq<byte>, rest: seq<byte>)
    ensures |rest| < |PutEntry(entry, rest)|
  {
  }
}
