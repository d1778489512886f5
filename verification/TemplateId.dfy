/** The textual long-poll id of a block template: the parent block's hash as printed, a dash,
    and the Unix time the template was made. */
module TemplateId {
  import opened Wire
  import opened Lists

  newtype Byte = b: int | 0 <= b < 256

  const HASH_SIZE: nat := 32
  const MAX_HASH_STRING: nat := 64
  const INT64_LIMIT: int := 0x8000_0000_0000_0000

  type HashBytes = h: seq<Byte> | |h| == HASH_SIZE witness Zeros(HASH_SIZE)

  datatype Decoded = Id(hash: HashBytes, time: int) | InvalidFormat

  function Zeros(n: nat): (r: seq<Byte>)
    ensures |r| == n
  {
    if n == 0 then [] else [0 as Byte] + Zeros(n - 1)
  }

  // ----- hexadecimal -----

  function HexDigit(n: nat): (c: char)
    requires n < 16
    ensures HexValue(c) == Some(n) && c != '-'
  {
    if n < 10 then '0' + n as char else 'a' + (n - 10) as char
  }

  /** Both cases are read; only lower case is written. */
  function HexValue(c: char): (r: Option<nat>)
    ensures r.Some? ==> r.value < 16
  {
    if '0' <= c <= '9' then Some((c - '0') as nat)
    else if 'a' <= c <= 'f' then Some((c - 'a') as nat + 10)
    else if 'A' <= c <= 'F' then Some((c - 'A') as nat + 10)
    else None
  }

  function HexEncode(bytes: seq<Byte>): (s: string)
    ensures |s| == 2 * |bytes|
  {
    if bytes == [] then ""
    else [HexDigit(bytes[0] as nat / 16), HexDigit(bytes[0] as nat % 16)] + HexEncode(bytes[1..])
  }

  function HexDecode(s: string): (r: Option<seq<Byte>>)
    requires |s| % 2 == 0
    ensures r.Some? ==> 2 * |r.value| == |s|
  {
    if s == [] then Some([])
    else
      var hi, lo, rest := HexValue(s[0]), HexValue(s[1]), HexDecode(s[2..]);
      if hi.Some? && lo.Some? && rest.Some?
      then Some([(16 * hi.value + lo.value) as Byte] + rest.value)
      else None
  }

  lemma {:induction false} HexRoundTrip(bytes: seq<Byte>)
    ensures HexDecode(HexEncode(bytes)) == Some(bytes)
    ensures '-' !in HexEncode(bytes)
  {
    if bytes != [] {
      HexRoundTrip(bytes[1..]);
      assert HexEncode(bytes)[2..] == HexEncode(bytes[1..]);
      assert bytes == [bytes[0]] + bytes[1..];
    }
  }

  /** Two lower-case digits for each byte, the high half first. */
  lemma {:induction false} HexEncodeAt(bytes: seq<Byte>, k: nat)
    requires k < |bytes|
    ensures HexEncode(bytes)[2 * k] == "0123456789abcdef"[bytes[k] / 16]
    ensures HexEncode(bytes)[2 * k + 1] == "0123456789abcdef"[bytes[k] % 16]
  {
    DigitIsLower(bytes[k] as nat / 16);
    DigitIsLower(bytes[k] as nat % 16);
    if k > 0 {
      HexEncodeAt(bytes[1..], k - 1);
    }
  }

  lemma DigitIsLower(n: nat)
    requires n < 16
    ensures HexDigit(n) == "0123456789abcdef"[n]
  {
  }

  // ----- hashes -----

  /** Hashes are printed with their bytes reversed. */
  function HashString(h: HashBytes): (s: string)
    ensures |s| == MAX_HASH_STRING
  {
    HexEncode(Reversed(h))
  }

  /** A short string stands for a hash with zero bytes at its end. */
  function ParseHash(s: string): (r: Option<HashBytes>) {
    if |s| > MAX_HASH_STRING then None
    else
      var decoded := HexDecode(if |s| % 2 == 0 then s else "0" + s);
      if decoded.None? then None
      else Some(Reversed(Zeros(HASH_SIZE - |decoded.value|) + decoded.value))
  }

  /** The last byte of a hash is printed first. */
  lemma HashStringAt(h: HashBytes, k: nat)
    requires k < 32
    ensures HashString(h)[2 * k] == "0123456789abcdef"[h[31 - k] / 16]
    ensures HashString(h)[2 * k + 1] == "0123456789abcdef"[h[31 - k] % 16]
  {
    ReversedAt(h, k);
    HexEncodeAt(Reversed(h), k);
  }

  lemma HashRoundTrip(h: HashBytes)
    ensures ParseHash(HashString(h)) == Some(h) && '-' !in HashString(h)
  {
    HexRoundTrip(Reversed(h));
    ReversedTwice(h);
    assert Zeros(0) + Reversed(h) == Reversed(h);
  }

  lemma {:induction false} ZerosAt(n: nat, i: nat)
    requires i < n
    ensures Zeros(n)[i] == 0
  {
    if i > 0 {
      ZerosAt(n - 1, i - 1);
    }
  }

  lemma ParseShort(bytes: seq<Byte>, n: nat)
    requires |bytes| + n == HASH_SIZE
    ensures ParseHash(HexEncode(bytes)) == Some(Reversed(Zeros(n) + bytes))
  {
    HexRoundTrip(bytes);
  }

  /** A short text names the last bytes printed, and those printed before them are zero. */
  lemma ShortHash(bytes: seq<Byte>, n: nat)
    requires |bytes| + n == 32
    ensures
      var r := ParseHash(HexEncode(bytes));
      r.Some? && Reversed(r.value)[n..] == bytes && forall i :: 0 <= i < n ==> Reversed(r.value)[i] == 0
  {
    ParseShort(bytes, n);
    var zeros := Zeros(n);
    ReversedTwice(zeros + bytes);
    forall i | 0 <= i < n
      ensures (zeros + bytes)[i] == 0
    {
      ZerosAt(n, i);
    }
  }

  /** A first digit on its own is a byte, capitals are read, and anything else is refused. */
  lemma OddHash(c: char)
    requires HexValue(c).Some?
    ensures ParseHash([c]) == ParseHash(['0', c])
    ensures HexValue('A') == Some(10) && HexValue('F') == Some(15) && HexValue('g') == None && HexValue('-') == None
  {
    assert "0" + [c] == ['0', c];
  }

  // ----- decimals -----

  function Decimal(n: nat): (s: string)
    ensures s != []
  {
    if n < 10 then [HexDigit(n)] else Decimal(n / 10) + [HexDigit(n % 10)]
  }

  function Printed(t: int): string {
    if t < 0 then "-" + Decimal(-t) else Decimal(t)
  }

  predicate IsDigit(c: char) {
    '0' <= c <= '9'
  }

  function Digits(s: string): Option<nat> {
    if s == [] then Some(0)
    else
      var n := |s| - 1;
      var front := Digits(s[..n]);
      if front.Some? && IsDigit(s[n]) then Some(10 * front.value + (s[n] - '0') as nat) else None
  }

  /** An optional sign and at least one digit, within 64 bits. */
  function ParseInt(s: string): Option<int> {
    if s == [] then None
    else
      var signed := s[0] == '+' || s[0] == '-';
      var digits := if signed then s[1..] else s;
      var value := Digits(digits);
      if digits == [] || value.None? then None
      else if s[0] == '-' then
        if value.value > INT64_LIMIT then None else Some(0 - value.value)
      else if value.value >= INT64_LIMIT then None
      else Some(value.value)
  }

  lemma {:induction false} DecimalRoundTrip(n: nat)
    ensures Digits(Decimal(n)) == Some(n)
    ensures forall c :: c in Decimal(n) ==> IsDigit(c)
  {
    var s := Decimal(n);
    assert s[|s| - 1] == HexDigit(n % 10);
    if n < 10 {
      assert s[..|s| - 1] == [] && Digits([]) == Some(0);
    } else {
      DecimalRoundTrip(n / 10);
      assert s[..|s| - 1] == Decimal(n / 10);
    }
  }

  lemma PrintedRoundTrip(t: int)
    requires -INT64_LIMIT <= t < INT64_LIMIT
    ensures ParseInt(Printed(t)) == Some(t)
  {
    if t >= 0 {
      DecimalRoundTrip(t);
      assert IsDigit(Decimal(t)[0]);
    } else {
      DecimalRoundTrip(-t);
      assert Printed(t)[1..] == Decimal(-t);
    }
  }

  /** Decimals are written with the highest digit first and a sign only when negative. */
  lemma PrintedExamples()
    ensures Printed(0) == "0" && Printed(120) == "120" && Printed(-9) == "-9"
  {
    assert Decimal(12) == "12" && Decimal(120) == "120";
  }

  /** The limits of what is read: signs, and 64 bits. */
  lemma ParseLimits(n: nat)
    ensures ParseInt(Decimal(n)) == (if n < 0x8000_0000_0000_0000 then Some(n) else None)
    ensures ParseInt("+" + Decimal(n)) == (if n < 0x8000_0000_0000_0000 then Some(n) else None)
    ensures ParseInt("-" + Decimal(n)) == (if n <= 0x8000_0000_0000_0000 then Some(0 - n) else None)
    ensures ParseInt("") == None && ParseInt("-") == None && ParseInt("+") == None
  {
    DecimalRoundTrip(n);
    SignedLimits(Decimal(n), n);
  }

  lemma SignedLimits(s: string, n: nat)
    requires s != [] && IsDigit(s[0]) && Digits(s) == Some(n)
    ensures ParseInt(s) == (if n < 0x8000_0000_0000_0000 then Some(n) else None)
    ensures ParseInt("+" + s) == (if n < 0x8000_0000_0000_0000 then Some(n) else None)
    ensures ParseInt("-" + s) == (if n <= 0x8000_0000_0000_0000 then Some(0 - n) else None)
  {
    assert ("+" + s)[1..] == s && ("-" + s)[1..] == s;
  }

  // ----- splitting on dashes -----

  function Split(s: string): (fields: seq<string>)
    ensures |fields| >= 1
  {
    if s == [] then [[]]
    else if s[0] == '-' then [[]] + Split(s[1..])
    else
      var rest := Split(s[1..]);
      [[s[0]] + rest[0]] + rest[1..]
  }

  lemma {:induction false} SplitNoDash(s: string)
    requires '-' !in s
    ensures Split(s) == [s]
  {
    if s != [] {
      SplitNoDash(s[1..]);
      assert s == [s[0]] + s[1..];
    }
  }

  lemma {:induction false} SplitAtDash(a: string, b: string)
    requires '-' !in a
    ensures Split(a + "-" + b) == [a] + Split(b)
  {
    if a == [] {
      assert (a + "-" + b)[1..] == b;
    } else {
      assert (a + "-" + b)[1..] == a[1..] + "-" + b;
      SplitAtDash(a[1..], b);
      assert ([a[1..]] + Split(b))[1..] == Split(b);
      assert a == [a[0]] + a[1..];
    }
  }

  function Join(fields: seq<string>): string {
    if fields == [] then ""
    else if |fields| == 1 then fields[0]
    else fields[0] + "-" + Join(fields[1..])
  }

  /** Splitting loses nothing and leaves no dash inside a field. */
  lemma {:induction false} SplitJoins(s: string)
    ensures Join(Split(s)) == s && forall i :: 0 <= i < |Split(s)| ==> '-' !in Split(s)[i]
  {
    if s != [] {
      var rest := Split(s[1..]);
      SplitJoins(s[1..]);
      assert s == [s[0]] + s[1..];
      if s[0] == '-' {
        assert Split(s)[1..] == rest;
      } else {
        assert Split(s)[1..] == rest[1..];
      }
    }
  }

  // ----- the id -----

  function Encode(prev: HashBytes, time: int): string {
    HashString(prev) + "-" + Printed(time)
  }

  function Decode(id: string): Decoded {
    var fields := Split(id);
    if |fields| != 2 then InvalidFormat
    else
      var hash, time := ParseHash(fields[0]), ParseInt(fields[1]);
      if hash.None? || time.None? then InvalidFormat else Id(hash.value, time.value)
  }

  /** The fields of an id. */
  lemma EncodedFields(prev: HashBytes, time: int)
    ensures Split(Encode(prev, time)) ==
      if time >= 0 then [HashString(prev), Printed(time)] else [HashString(prev), "", Decimal(-time)]
  {
    HashRoundTrip(prev);
    SplitAtDash(HashString(prev), Printed(time));
    DecimalRoundTrip(if time >= 0 then time else -time);
    if time >= 0 {
      SplitNoDash(Decimal(time));
    } else {
      SplitNoDash(Decimal(-time));
      assert Printed(time)[1..] == Decimal(-time);
    }
  }

  /** An id decodes to what it was made from exactly when the time is not negative; the sign of
      a negative time is taken for a second separator. */
  lemma RoundTripIff(prev: HashBytes, time: int)
    requires -INT64_LIMIT <= time < INT64_LIMIT
    ensures Decode(Encode(prev, time)) == (if time >= 0 then Id(prev, time) else InvalidFormat)
  {
    EncodedFields(prev, time);
    HashRoundTrip(prev);
    PrintedRoundTrip(time);
  }

  /** No string decodes to a negative time or to one outside 64 bits. */
  lemma DecodedTimeIsNatural(id: string)
    requires Decode(id).Id?
    ensures 0 <= Decode(id).time < INT64_LIMIT
  {
    SplitJoins(id);
    assert Split(id)[1][0] in Split(id)[1];
  }
}
