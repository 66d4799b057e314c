/** The text form of AMS addresses. */
module NetIds {
  import opened Outcomes
  import opened Bytes
  import opened Strings
  import opened Frames

  datatype Invalid = BadByte | NotSixBytes | NotNetIdAndPort | BadPort

  datatype Parsed<+T> = Accepted(value: T) | Rejected(error: Invalid) {

    predicate IsFailure() {
      Rejected?
    }

    function PropagateFailure<U>(): Parsed<U>
      requires IsFailure()
    {
      Rejected(error)
    }

    function Extract(): T
      requires Accepted?
    {
      value
    }
  }

  // ---- Decimal numerals --------------------------------------------------------------------

  predicate IsDigit(c: char) {
    '0' <= c <= '9'
  }

  function DigitValue(c: char): nat
    requires IsDigit(c)
  {
    c as int - '0' as int
  }

  predicate AllDigits(s: string) {
    forall i :: 0 <= i < |s| ==> IsDigit(s[i])
  }

  function Value(digits: string): nat
    requires AllDigits(digits)
  {
    if digits == "" then 0 else 10 * Value(digits[..|digits| - 1]) + DigitValue(digits[|digits| - 1])
  }

  /** Integers are read as the standard library does: an optional plus sign, then digits, below the type's limit. */
  function ParseNumber(s: string, limit: nat): (r: Option<nat>)
    ensures r.Some? ==> r.value < limit
  {
    var digits := if |s| >= 2 && s[0] == '+' then s[1..] else s;
    if digits != "" && AllDigits(digits) && Value(digits) < limit then Some(Value(digits)) else None
  }

  function Numeral(n: nat): (s: string)
    ensures s != ""
  {
    var last := [('0' as int + n % 10) as char];
    if n < 10 then last else Numeral(n / 10) + last
  }

  lemma {:induction false} NumeralValue(n: nat)
    ensures AllDigits(Numeral(n)) && Value(Numeral(n)) == n
  {
    var s := Numeral(n);
    if n < 10 {
      assert s[..0] == "";
    } else {
      NumeralValue(n / 10);
      assert s[..|s| - 1] == Numeral(n / 10);
    }
  }

  lemma ParseNumeral(n: nat, limit: nat)
    requires n < limit
    ensures ParseNumber(Numeral(n), limit) == Some(n)
  {
    NumeralValue(n);
    assert IsDigit(Numeral(n)[0]);
  }

  /** Without a sign, and without a zero in front of further digits. */
  predicate Canonical(s: string) {
    s != "" && AllDigits(s) && (|s| > 1 ==> s[0] != '0')
  }

  lemma {:induction false} CanonicalNumeral(s: string)
    requires Canonical(s)
    ensures Numeral(Value(s)) == s && (s[0] != '0' ==> Value(s) > 0)
  {
    var front, last := s[..|s| - 1], s[|s| - 1];
    if |s| == 1 {
      assert front == "" && s == [last];
    } else {
      CanonicalNumeral(front);
      assert s == front + [last];
      assert Value(s) / 10 == Value(front) && Value(s) % 10 == DigitValue(last);
    }
  }

  lemma {:induction false} NumeralIsCanonical(n: nat)
    ensures Canonical(Numeral(n)) && (n > 0 ==> Numeral(n)[0] != '0')
  {
    NumeralValue(n);
    if n >= 10 {
      NumeralIsCanonical(n / 10);
      assert Numeral(n)[0] == Numeral(n / 10)[0];
    }
  }

  /** Of all the texts a number can be read from, it is written as the canonical one. */
  lemma WrittenAsReadIff(s: string, limit: nat)
    requires ParseNumber(s, limit).Some?
    ensures Numeral(ParseNumber(s, limit).value) == s <==> Canonical(s)
  {
    NumeralIsCanonical(ParseNumber(s, limit).value);
    if Canonical(s) {
      assert IsDigit(s[0]);
      CanonicalNumeral(s);
    }
  }

  lemma NumeralFree(n: nat, sep: char)
    requires !IsDigit(sep)
    ensures Free(Numeral(n), sep)
  {
    NumeralValue(n);
  }

  // ---- Net IDs -----------------------------------------------------------------------------

  function ParseBytes(parts: seq<string>): Parsed<seq<byte>> {
    if parts == [] then Accepted([]) else
    match ParseNumber(parts[0], 0x100)
    case None => Rejected(BadByte)
    case Some(n) =>
      var rest :- ParseBytes(parts[1..]);
      Accepted([n] + rest)
  }

  function ParseNetId(s: string): Parsed<NetId> {
    var bytes :- ParseBytes(Split(s, '.'));
    if |bytes| == 6 then Accepted(bytes) else Rejected(NotSixBytes)
  }

  function Numerals(bytes: seq<byte>): (r: seq<string>)
    ensures |r| == |bytes| && forall i :: 0 <= i < |r| ==> r[i] == Numeral(bytes[i])
  {
    if bytes == [] then [] else [Numeral(bytes[0])] + Numerals(bytes[1..])
  }

  function PrintNetId(id: NetId): string {
    Join(Numerals(id), '.')
  }

  lemma {:induction false} ParseBytesIff(parts: seq<string>)
    ensures ParseBytes(parts).Accepted? <==> forall i :: 0 <= i < |parts| ==> ParseNumber(parts[i], 0x100).Some?
    ensures ParseBytes(parts).Accepted? ==> |ParseBytes(parts).value| == |parts|
    ensures ParseBytes(parts).Accepted? ==>
              forall i :: 0 <= i < |parts| ==> ParseNumber(parts[i], 0x100) == Some(ParseBytes(parts).value[i])
    ensures ParseBytes(parts).Rejected? ==> ParseBytes(parts).error == BadByte
  {
    hide ParseNumber;
    if parts != [] {
      ParseBytesIff(parts[1..]);
      assert forall i :: 0 <= i < |parts[1..]| ==> parts[1..][i] == parts[i + 1];
      assert forall i :: 1 <= i < |parts| ==> parts[i] == parts[1..][i - 1];
    }
  }

  /** Every part has to be a byte, whatever their number; a wrong number of parts is only then reported. */
  lemma NetIdAcceptedIff(s: string)
    ensures ParseNetId(s) == Rejected(BadByte) <==>
              exists i :: 0 <= i < |Split(s, '.')| && ParseNumber(Split(s, '.')[i], 0x100).None?
    ensures ParseNetId(s).Accepted? <==>
              |Split(s, '.')| == 6 && forall i :: 0 <= i < 6 ==> ParseNumber(Split(s, '.')[i], 0x100).Some?
    ensures ParseNetId(s).Accepted? ==>
              forall i :: 0 <= i < 6 ==> ParseNumber(Split(s, '.')[i], 0x100) == Some(ParseNetId(s).value[i])
  {
    hide ParseNumber, Split;
    ParseBytesIff(Split(s, '.'));
  }

  lemma {:induction false} ParseNumerals(bytes: seq<byte>)
    ensures ParseBytes(Numerals(bytes)) == Accepted(bytes)
  {
    hide ParseNumber, Numeral;
    if bytes != [] {
      ParseNumeral(bytes[0], 0x100);
      ParseNumerals(bytes[1..]);
      assert [bytes[0]] + bytes[1..] == bytes;
    }
  }

  /** The printed form has exactly six parts between dots. */
  lemma PrintedParts(id: NetId)
    ensures Split(PrintNetId(id), '.') == Numerals(id)
  {
    hide Numeral, Split, Join;
    forall i | 0 <= i < 6
      ensures Free(Numerals(id)[i], '.')
    {
      NumeralFree(id[i], '.');
    }
    SplitJoin(Numerals(id), '.');
  }

  lemma NetIdRoundTrip(id: NetId)
    ensures ParseNetId(PrintNetId(id)) == Accepted(id)
  {
    hide Split, Numerals, PrintNetId;
    PrintedParts(id);
    ParseNumerals(id);
  }

  /** An accepted text is what its address prints as exactly when all its parts are canonical. */
  lemma NetIdWrittenAsReadIff(s: string)
    requires ParseNetId(s).Accepted?
    ensures PrintNetId(ParseNetId(s).value) == s <==>
            forall i :: 0 <= i < |Split(s, '.')| ==> Canonical(Split(s, '.')[i])
  {
    hide ParseNumber, Numeral, Split, Canonical, Join, ParseNetId;
    NetIdAcceptedIff(s);
    var id, parts := ParseNetId(s).value, Split(s, '.');
    forall i | 0 <= i < 6
      ensures Numerals(id)[i] == parts[i] <==> Canonical(parts[i])
    {
      WrittenAsReadIff(parts[i], 0x100);
    }
    PrintedParts(id);
    JoinSplit(s, '.');
    if forall i :: 0 <= i < |parts| ==> Canonical(parts[i]) {
      assert Numerals(id) == parts;
    }
  }

  lemma {:induction false} LeadingZero(digits: string)
    requires AllDigits(digits)
    ensures AllDigits("0" + digits) && Value("0" + digits) == Value(digits)
  {
    var s := "0" + digits;
    if digits == "" {
      assert s == "0" && s[..0] == "";
      assert Value(s) == 10 * Value("") + DigitValue('0');
    } else {
      assert s[..|s| - 1] == "0" + digits[..|digits| - 1];
      LeadingZero(digits[..|digits| - 1]);
    }
  }

  lemma OddNumerals(n: nat, limit: nat)
    requires n < limit
    ensures ParseNumber("+" + Numeral(n), limit) == Some(n) && ParseNumber("0" + Numeral(n), limit) == Some(n)
  {
    NumeralValue(n);
    LeadingZero(Numeral(n));
    assert ("+" + Numeral(n))[1..] == Numeral(n);
  }

  /** In front of any printed NetID, a plus sign or a zero is accepted and makes no difference. */
  lemma OddNetIdsAreAccepted(id: NetId)
    ensures ParseNetId("+" + PrintNetId(id)) == Accepted(id) && ParseNetId("0" + PrintNetId(id)) == Accepted(id)
  {
    hide ParseNumber, Numeral, PrintNetId, Numerals, ParseBytes;
    PrintedParts(id);
    OddFirstPart(id, '+');
    OddFirstPart(id, '0');
  }

  lemma OddFirstPart(id: NetId, front: char)
    requires front == '+' || front == '0'
    ensures ParseNetId([front] + PrintNetId(id)) == Accepted(id)
  {
    hide ParseNumber, Numeral, PrintNetId;
    var s := [front] + PrintNetId(id);
    PrintedParts(id);
    assert s[1..] == PrintNetId(id);
    var parts := Split(s, '.');
    assert parts == [[front] + Numerals(id)[0]] + Numerals(id)[1..];
    OddNumerals(id[0], 0x100);
    assert [front] == "+" || [front] == "0";
    ParseNumerals(id[1..]);
    assert parts[1..] == Numerals(id[1..]);
    assert [id[0]] + id[1..] == id;
  }

  method NetIdFromStr(s: string) returns (r: Parsed<NetId>)
    ensures r == ParseNetId(s)
  {
    hide ParseNumber, Split;
    var items := Split(s, '.');
    var bytes: seq<byte> := [];
    ghost var all := ParseBytes(items);
    assert items[0..] == items && (all.Accepted? ==> [] + all.value == all.value);
    for i := 0 to |items|
      invariant AddBytes(bytes, ParseBytes(items[i..])) == all
    {
      assert items[i..][1..] == items[i + 1..];
      var byte := ParseNumber(items[i], 0x100);
      if byte.None? {
        return Rejected(BadByte);
      }
      AddBytesStep(bytes, byte.value, ParseBytes(items[i + 1..]));
      bytes := bytes + [byte.value];
    }
    assert bytes + [] == bytes;
    r := if |bytes| == 6 then Accepted(bytes) else Rejected(NotSixBytes);
  }

  function AddBytes(done: seq<byte>, more: Parsed<seq<byte>>): Parsed<seq<byte>> {
    var bytes :- more;
    Accepted(done + bytes)
  }

  lemma AddBytesStep(done: seq<byte>, b: byte, more: Parsed<seq<byte>>)
    ensures more.Accepted? ==> AddBytes(done, Accepted([b] + more.value)) == AddBytes(done + [b], more)
  {
    if more.Accepted? {
      assert done + ([b] + more.value) == done + [b] + more.value;
    }
  }

  // ---- Addresses ---------------------------------------------------------------------------

  function ParseAddr(s: string): Parsed<AmsAddr> {
    var parts := Split(s, ':');
    if |parts| != 2 then Rejected(NotNetIdAndPort) else
    var netid :- ParseNetId(parts[0]);
    match ParseNumber(parts[1], 0x1_0000)
    case None => Rejected(BadPort)
    case Some(port) => Accepted(AmsAddr(netid, port))
  }

  function PrintAddr(a: AmsAddr): string {
    PrintNetId(a.netid) + ":" + Numeral(a.port)
  }

  lemma {:induction false} JoinFree(parts: seq<string>, sep: char, other: char)
    requires AllFree(parts, other) && sep != other
    ensures Free(Join(parts, sep), other)
  {
    if |parts| > 1 {
      JoinFree(parts[1..], sep, other);
    }
  }

  /** The printed form has exactly one colon. */
  lemma PrintedAddrParts(a: AmsAddr)
    ensures Split(PrintAddr(a), ':') == [PrintNetId(a.netid), Numeral(a.port)]
  {
    hide Numeral, Split, Join;
    forall i | 0 <= i < 6
      ensures Free(Numerals(a.netid)[i], ':')
    {
      NumeralFree(a.netid[i], ':');
    }
    JoinFree(Numerals(a.netid), '.', ':');
    NumeralFree(a.port, ':');
    SplitFree(Numeral(a.port), ':');
    SplitPrefix(PrintNetId(a.netid), Numeral(a.port), ':');
    assert PrintAddr(a) == PrintNetId(a.netid) + [':'] + Numeral(a.port);
  }

  lemma AddrRoundTrip(a: AmsAddr)
    ensures ParseAddr(PrintAddr(a)) == Accepted(a)
  {
    hide Split, Numeral, PrintNetId, PrintAddr, ParseNetId, ParseNumber;
    PrintedAddrParts(a);
    NetIdRoundTrip(a.netid);
    ParseNumeral(a.port, 0x1_0000);
  }

  function DigitChar(n: nat): char
    requires n < 10
  {
    "0123456789"[n]
  }

  lemma LastDigit(n: nat)
    ensures Numeral(n) == (if n < 10 then "" else Numeral(n / 10)) + [DigitChar(n % 10)]
  {
    var digits := "0123456789";
    assert forall k :: 0 <= k < 10 ==> digits[k] == ('0' as int + k) as char;
  }

  /** The numerals of bytes, digit by digit. */
  lemma ByteNumerals(n: byte)
    ensures Numeral(n) == if n < 10 then [DigitChar(n)]
                          else if n < 100 then [DigitChar(n / 10), DigitChar(n % 10)]
                          else [DigitChar(n / 100), DigitChar(n / 10 % 10), DigitChar(n % 10)]
  {
    hide Numeral, DigitChar;
    LastDigit(n);
    LastDigit(n / 10);
    LastDigit(n / 100);
    assert n / 10 / 10 == n / 100;
  }

  /** Different addresses never print alike. */
  lemma PrintIsInjective(a: AmsAddr, b: AmsAddr)
    requires PrintAddr(a) == PrintAddr(b)
    ensures a == b
  {
    hide PrintAddr, ParseAddr;
    AddrRoundTrip(a);
    AddrRoundTrip(b);
  }

  /** An accepted address is what it prints as exactly when its bytes and its port are canonical. */
  lemma AddrWrittenAsReadIff(s: string)
    requires ParseAddr(s).Accepted?
    ensures var parts := Split(s, ':');
            PrintAddr(ParseAddr(s).value) == s <==>
              && (forall i :: 0 <= i < |Split(parts[0], '.')| ==> Canonical(Split(parts[0], '.')[i]))
              && Canonical(parts[1])
  {
    hide ParseNetId, ParseNumber, Split, Numeral, PrintNetId, Canonical, Join;
    var a, parts := ParseAddr(s).value, Split(s, ':');
    NetIdWrittenAsReadIff(parts[0]);
    WrittenAsReadIff(parts[1], 0x1_0000);
    JoinSplit(s, ':');
    JoinTwo(parts, ':');
    assert PrintAddr(a) == PrintNetId(a.netid) + [':'] + Numeral(a.port);
    if PrintAddr(a) == s {
      PrintedAddrParts(a);
    }
  }

  lemma JoinTwo(parts: seq<string>, sep: char)
    requires |parts| == 2
    ensures Join(parts, sep) == parts[0] + [sep] + parts[1]
  {
    assert parts[1..] == [parts[1]];
  }
}
