/**
  * Layouts that are cut short: for each format, how many bytes of a layout it needs, and what
  * reading does with fewer.
  */
module ShortLayouts {
  import opened Outcomes
  import opened Bytes
  import opened Formats

  /**
    * `size` is the number of bytes a layout takes.  A layout that is cut inside them fails for want
    * of data, or panics where `panics` says so; further down, the cut only concerns what follows.
    */
  datatype Cutting<!W> = Cutting(size: W -> nat, panics: (W, nat) -> bool)

  ghost predicate Cuts<W(!new), T>(f: Format<W, T>, c: Cutting<W>) {
    forall w: W, rest: seq<byte>, k: nat :: f.valid(w) && k <= |f.put(w, rest)| ==> CutAt(f, c, w, rest, k)
  }

  ghost predicate CutAt<W, T>(f: Format<W, T>, c: Cutting<W>, w: W, rest: seq<byte>, k: nat)
    requires k <= |f.put(w, rest)|
  {
    && |f.put(w, rest)| == c.size(w) + |rest|
    && (k < c.size(w) ==> f.read(f.put(w, rest)[..k]) == CutShort(c.panics(w, k)))
    && (c.size(w) <= k ==> f.put(w, rest)[..k] == f.put(w, rest[..k - c.size(w)]))
  }

  /** What reading a layout that was cut comes to. */
  function CutShort<T>(panics: bool): Outcome<T> {
    if panics then Panic else Fail(Io)
  }

  // ---- Plain bytes -------------------------------------------------------------------------

  lemma CutFront(front: seq<byte>, rest: seq<byte>, k: nat)
    requires k <= |front + rest|
    ensures k < |front| ==> |(front + rest)[..k]| == k
    ensures |front| <= k ==> (front + rest)[..k] == front + rest[..k - |front|]
  {
  }

  lemma CutU8(n: byte, rest: seq<byte>, k: nat)
    requires k <= |PutLength8(n) + rest|
    ensures var cut := (PutLength8(n) + rest)[..k];
            if k < 1 then ReadU8(cut) == Fail(Io) else ReadU8(cut) == Ok((n, rest[..k - 1])) && k - 1 <= |rest|
  {
    CutFront(PutLength8(n), rest, k);
    if 1 <= k {
      ReadPutLength8(n, rest[..k - 1]);
    }
  }

  lemma CutU16(n: u16, rest: seq<byte>, k: nat)
    requires k <= |PutU16(n) + rest|
    ensures var cut := (PutU16(n) + rest)[..k];
            if k < 2 then ReadU16(cut) == Fail(Io) else ReadU16(cut) == Ok((n, rest[..k - 2])) && k - 2 <= |rest|
  {
    hide U16, PutU16;
    CutFront(PutU16(n), rest, k);
    if 2 <= k {
      ReadPutU16(n, rest[..k - 2]);
    }
  }

  lemma CutLength16(n: u16, rest: seq<byte>, k: nat)
    requires k <= |PutLength16(n) + rest|
    ensures var cut := (PutLength16(n) + rest)[..k];
            if k < 2 then ReadU16(cut) == Fail(Io) else ReadU16(cut) == Ok((n, rest[..k - 2])) && k - 2 <= |rest|
  {
    hide ReadU16, PutU16;
    CutU16(n, rest, k);
  }

  lemma CutU32(n: u32, rest: seq<byte>, k: nat)
    requires k <= |PutU32(n) + rest|
    ensures var cut := (PutU32(n) + rest)[..k];
            if k < 4 then ReadU32(cut) == Fail(Io) else ReadU32(cut) == Ok((n, rest[..k - 4])) && k - 4 <= |rest|
  {
    hide U32, PutU32;
    CutFront(PutU32(n), rest, k);
    if 4 <= k {
      ReadPutU32(n, rest[..k - 4]);
    }
  }

  lemma CutI32(n: i32, rest: seq<byte>, k: nat)
    requires k <= |PutI32(n) + rest|
    ensures var cut := (PutI32(n) + rest)[..k];
            if k < 4 then ReadI32(cut) == Fail(Io) else ReadI32(cut) == Ok((n, rest[..k - 4])) && k - 4 <= |rest|
  {
    hide U32, PutU32;
    CutU32(n % U32_LIMIT, rest, k);
    if 4 <= k {
      hide PutI32;
      CutFront(PutI32(n), rest, k);
      ReadPutI32(n, rest[..k - 4]);
    }
  }

  lemma CutBytes(bytes: seq<byte>, rest: seq<byte>, k: nat)
    requires k <= |bytes + rest|
    ensures var cut := (bytes + rest)[..k];
            if k < |bytes| then Take(|bytes|, cut) == Fail(Io)
            else Take(|bytes|, cut) == Ok((bytes, rest[..k - |bytes|])) && k - |bytes| <= |rest|
  {
    CutFront(bytes, rest, k);
    if |bytes| <= k {
      TakeAppend(bytes, rest[..k - |bytes|]);
    }
  }

  function RawCut(): Cutting<seq<byte>> {
    Cutting((bytes: seq<byte>) => |bytes|, (bytes, k) => false)
  }

  lemma RawCuts(n: nat)
    ensures Cuts(Raw(n), RawCut())
  {
    hide Take;
    var f, c := Raw(n), RawCut();
    forall bytes: seq<byte>, rest: seq<byte>, k: nat | f.valid(bytes) && k <= |f.put(bytes, rest)|
      ensures CutAt(f, c, bytes, rest, k)
    {
      CutBytes(bytes, rest, k);
      CutFront(bytes, rest, k);
    }
  }

  // ---- Several items -----------------------------------------------------------------------

  function SizeOfAll<W>(size: W -> nat, ws: seq<W>): nat {
    if ws == [] then 0 else size(ws[0]) + SizeOfAll(size, ws[1..])
  }

  /** The cut falls into one of the items, at a place where that item panics. */
  predicate SomePanics<W>(c: Cutting<W>, ws: seq<W>, k: nat) {
    ws != [] && if k < c.size(ws[0]) then c.panics(ws[0], k) else SomePanics(c, ws[1..], k - c.size(ws[0]))
  }

  lemma {:induction false} ManyCuts<W(!new), T>(f: Format<W, T>, c: Cutting<W>, ws: seq<W>, rest: seq<byte>, k: nat)
    requires Sound(f) && Cuts(f, c) && AllValid(f.valid, ws) && k <= |PutMany(f.put, ws, rest)|
    ensures |PutMany(f.put, ws, rest)| == SizeOfAll(c.size, ws) + |rest|
    ensures k < SizeOfAll(c.size, ws) ==>
              ReadMany(f.read, |ws|, PutMany(f.put, ws, rest)[..k]) == CutShort(SomePanics(c, ws, k))
    ensures SizeOfAll(c.size, ws) <= k ==>
              PutMany(f.put, ws, rest)[..k] == PutMany(f.put, ws, rest[..k - SizeOfAll(c.size, ws)])
  {
    if ws != [] {
      var more := PutMany(f.put, ws[1..], rest);
      assert f.valid(ws[0]) && CutAt(f, c, ws[0], more, k);
      var n := c.size(ws[0]);
      if n <= k {
        ManyCuts(f, c, ws[1..], rest, k - n);
        assert f.read(f.put(ws[0], more[..k - n])) == Ok((f.meaning(ws[0]), more[..k - n]));
      } else {
        ManyCuts(f, c, ws[1..], rest, 0);
      }
    }
  }

  lemma {:induction false} NoItemPanics<W(!new)>(c: Cutting<W>, ws: seq<W>, k: nat)
    requires forall w: W, k: nat :: !c.panics(w, k)
    ensures !SomePanics(c, ws, k)
  {
    if ws != [] {
      NoItemPanics(c, ws[1..], if c.size(ws[0]) <= k then k - c.size(ws[0]) else 0);
    }
  }

  function CountedCut<W>(c: Cutting<W>): Cutting<seq<W>> {
    Cutting((ws: seq<W>) => 2 + SizeOfAll(c.size, ws), (ws, k) => 2 <= k && SomePanics(c, ws, k - 2))
  }

  lemma CountedCuts<W(!new), T>(f: Format<W, T>, c: Cutting<W>)
    requires Sound(f) && Cuts(f, c)
    ensures Cuts(Counted(f), CountedCut(c))
  {
    hide ReadU16, PutU16, ReadMany, PutMany, SizeOfAll, SomePanics;
    var g, d := Counted(f), CountedCut(c);
    forall ws: seq<W>, rest: seq<byte>, k: nat | g.valid(ws) && k <= |g.put(ws, rest)|
      ensures CutAt(g, d, ws, rest, k)
    {
      var items := PutMany(f.put, ws, rest);
      CutU16(|ws|, items, k);
      CutFront(PutU16(|ws|), items, k);
      ManyCuts(f, c, ws, rest, if 2 <= k then k - 2 else 0);
    }
  }

  // ---- Sections and entries ----------------------------------------------------------------

  lemma IfCuts<W(!new), T>(flag: bool, f: Format<W, T>, c: Cutting<W>, w: W, rest: seq<byte>, k: nat)
    requires Cuts(f, c) && (flag ==> f.valid(w)) && k <= |PutIf(flag, f.put, w, rest)|
    ensures var n := SizeIf(flag, c, w);
            && |PutIf(flag, f.put, w, rest)| == n + |rest|
            && (k < n ==> ReadIf(flag, f.read, PutIf(flag, f.put, w, rest)[..k]) == CutShort(c.panics(w, k)))
            && (n <= k ==> PutIf(flag, f.put, w, rest)[..k] == PutIf(flag, f.put, w, rest[..k - n]))
  {
    if flag {
      assert CutAt(f, c, w, rest, k);
    }
  }

  /** A section that flags select, read from a layout that may be cut inside it or behind it. */
  lemma CutSection<W(!new), T>(flag: bool, f: Format<W, T>, c: Cutting<W>, w: W, rest: seq<byte>, k: nat)
    requires Sound(f) && Cuts(f, c) && (flag ==> f.valid(w)) && k <= |PutIf(flag, f.put, w, rest)|
    ensures |PutIf(flag, f.put, w, rest)| == SizeIf(flag, c, w) + |rest|
    ensures var n := SizeIf(flag, c, w);
            var r := ReadIf(flag, f.read, PutIf(flag, f.put, w, rest)[..k]);
            if k < n then r == CutShort(c.panics(w, k))
            else k - n <= |rest| && r == Ok((MeaningIf(flag, f.meaning, w), rest[..k - n]))
  {
    hide Sound, Cuts, ReadIf, PutIf, MeaningIf;
    IfCuts(flag, f, c, w, rest, k);
    var n := SizeIf(flag, c, w);
    if n <= k {
      IfSound(flag, f, w, rest[..k - n]);
    }
  }

  function SizeIf<W>(flag: bool, c: Cutting<W>, w: W): nat {
    if flag then c.size(w) else 0
  }

  /** An entry that announces more than is there panics as soon as its length has been read. */
  function FramedCut<W, T>(b: Body<W, T>): Cutting<W> {
    Cutting((w: W) => 4 + |b.put(w)|, (w, k) => 4 <= k)
  }

  lemma FramedCuts<W(!new), T>(short: Short, b: Body<W, T>)
    ensures Cuts(Framed(short, b), FramedCut(b))
  {
    hide ReadU32, PutU32;
    var f, c := Framed(short, b), FramedCut(b);
    forall w: W, rest: seq<byte>, k: nat | f.valid(w) && k <= |f.put(w, rest)|
      ensures CutAt(f, c, w, rest, k)
    {
      var entry := b.put(w);
      CutU32(|entry| + 4, entry + rest, k);
      CutFront(PutU32(|entry| + 4), entry + rest, k);
      if 4 <= k {
        CutFront(entry, rest, k - 4);
      }
    }
  }

  // ---- Where frames are --------------------------------------------------------------------

  /** Where entry `i` starts, among entries of the given sizes. */
  function EntryStart(sizes: seq<nat>, i: nat): nat
    requires i <= |sizes|
  {
    if i == 0 then 0 else sizes[0] + EntryStart(sizes[1..], i - 1)
  }

  /** Byte `k` lies in one of the entries, behind its length. */
  ghost predicate InsideEntry(sizes: seq<nat>, k: int) {
    exists i :: 0 <= i < |sizes| && EntryStart(sizes, i) + 4 <= k < EntryStart(sizes, i) + sizes[i]
  }

  lemma {:induction false} SomeEntryPanics<W, T>(b: Body<W, T>, ws: seq<W>, sizes: seq<nat>, k: nat)
    requires |sizes| == |ws| && forall i :: 0 <= i < |ws| ==> sizes[i] == FramedCut(b).size(ws[i])
    ensures SomePanics(FramedCut(b), ws, k) <==> InsideEntry(sizes, k)
  {
    if ws != [] {
      SomeEntryPanics(b, ws[1..], sizes[1..], if sizes[0] <= k then k - sizes[0] else 0);
      if k < sizes[0] {
        assert EntryStart(sizes, 0) == 0;
        forall i | 0 <= i < |sizes| && EntryStart(sizes, i) + 4 <= k < EntryStart(sizes, i) + sizes[i]
          ensures i == 0
        {
        }
      } else {
        EntriesAfterFirst(sizes, k);
      }
    }
  }

  lemma EntriesAfterFirst(sizes: seq<nat>, k: nat)
    requires sizes != [] && sizes[0] <= k
    ensures InsideEntry(sizes, k) <==> InsideEntry(sizes[1..], k - sizes[0])
  {
    var tail := sizes[1..];
    if i: nat :| i < |sizes| && EntryStart(sizes, i) + 4 <= k < EntryStart(sizes, i) + sizes[i] {
      assert i > 0;
      assert EntryStart(sizes, i) == sizes[0] + EntryStart(tail, i - 1) && sizes[i] == tail[i - 1];
    }
    if i: nat :| i < |tail| && EntryStart(tail, i) + 4 <= k - sizes[0] < EntryStart(tail, i) + tail[i] {
      assert EntryStart(sizes, i + 1) == sizes[0] + EntryStart(tail, i) && sizes[i + 1] == tail[i];
    }
  }

  lemma {:induction false} SizesAddUp<W, T>(b: Body<W, T>, ws: seq<W>, sizes: seq<nat>)
    requires |sizes| == |ws| && forall i :: 0 <= i < |ws| ==> sizes[i] == FramedCut(b).size(ws[i])
    ensures SizeOfAll(FramedCut(b).size, ws) == EntryStart(sizes, |sizes|)
  {
    if ws != [] {
      SizesAddUp(b, ws[1..], sizes[1..]);
    }
  }

  /** Inside the entries, a cut panics exactly where it lies inside one of them. */
  lemma EntriesPanicIff<W, T>(b: Body<W, T>, ws: seq<W>, sizes: seq<nat>, k: int)
    requires |sizes| == |ws| && forall i :: 0 <= i < |ws| ==> sizes[i] == 4 + |b.put(ws[i])|
    ensures InsideEntry(sizes, k) <==> 0 <= k < SizeOfAll(FramedCut(b).size, ws) && SomePanics(FramedCut(b), ws, k)
  {
    hide SomePanics, SizeOfAll;
    SizesAddUp(b, ws, sizes);
    if 0 <= k {
      SomeEntryPanics(b, ws, sizes, k);
    }
    forall i | 0 <= i < |sizes|
      ensures 0 <= EntryStart(sizes, i) && EntryStart(sizes, i) + sizes[i] <= EntryStart(sizes, |sizes|)
    {
      StartsGrow(sizes, i);
    }
  }

  lemma {:induction false} StartsGrow(sizes: seq<nat>, i: nat)
    requires i < |sizes|
    ensures EntryStart(sizes, i) + sizes[i] <= EntryStart(sizes, |sizes|)
  {
    if i > 0 {
      StartsGrow(sizes[1..], i - 1);
    } else {
      assert EntryStart(sizes, 0) == 0;
    }
  }
}
