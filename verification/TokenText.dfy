/** Tokens as numbers and as text: the UUID fields, the generator's version and
    variant bits, and the textual form of section 3 of RFC 4122. */
module TokenText {
  import opened Bitwise
  import opened Bytes

  // ------------------------------------------------------------ byte order

  /** The number that bytes spell, most significant first. */
  function BigEndian(b: seq<Byte>): (v: nat)
  {
    if b == [] then 0 else BigEndian(b[..|b| - 1]) * 256 + b[|b| - 1]
  }

  lemma BigEndian2(b: seq<Byte>)
    requires |b| == 2
    ensures BigEndian(b) == b[0] as int * 0x100 + b[1] < 0x1_0000
  {
    assert b[..1][..0] == [];
    assert BigEndian(b[..1]) == b[0];
  }

  lemma BigEndian4(b: seq<Byte>)
    requires |b| == 4
    ensures BigEndian(b) == ((b[0] as int * 0x100 + b[1]) * 0x100 + b[2]) * 0x100 + b[3] < 0x1_0000_0000
  {
    assert b[..3][..2] == b[..2];
    BigEndian2(b[..2]);
    assert BigEndian(b[..3]) == BigEndian(b[..2]) * 256 + b[2];
  }

  /** The fields of a UUID: 32, 16, 16 and 16 bits, spelled by the first 10 bytes. */
  predicate HasFields(t: seq<Byte>, timeLow: nat, timeMid: nat, timeHighVer: nat, clockSeq: nat) {
    && |t| == TOKEN_SIZE
    && BigEndian(t[0..4]) == timeLow < 0x1_0000_0000 && BigEndian(t[4..6]) == timeMid < 0x1_0000
    && BigEndian(t[6..8]) == timeHighVer < 0x1_0000 && BigEndian(t[8..10]) == clockSeq < 0x1_0000
  }

  method Pack(token: array<Byte>, timeLow: nat, timeMid: nat, timeHighVer: nat, clockSeq: nat)
    requires token.Length == TOKEN_SIZE
    requires timeLow < 0x1_0000_0000 && timeMid < 0x1_0000 && timeHighVer < 0x1_0000 && clockSeq < 0x1_0000
    modifies token
    ensures HasFields(token[..], timeLow, timeMid, timeHighVer, clockSeq)
    ensures token[10..] == old(token[10..])
  {
    var low, mid, high, clock := timeLow, timeMid, timeHighVer, clockSeq;
    token[3] := low % 0x100;
    low := low / 0x100;
    token[2] := low % 0x100;
    low := low / 0x100;
    token[1] := low % 0x100;
    low := low / 0x100;
    token[0] := low % 0x100;

    token[5] := mid % 0x100;
    mid := mid / 0x100;
    token[4] := mid % 0x100;

    token[7] := high % 0x100;
    high := high / 0x100;
    token[6] := high % 0x100;

    token[9] := clock % 0x100;
    clock := clock / 0x100;
    token[8] := clock % 0x100;

    PackedFields(token[..], timeLow, timeMid, timeHighVer, clockSeq);
  }

  lemma Bytes16(v: nat)
    requires v < 0x1_0000
    ensures v / 0x100 % 0x100 * 0x100 + v % 0x100 == v
  {}

  lemma Bytes32(v: nat)
    requires v < 0x1_0000_0000
    ensures ((v / 0x100 / 0x100 / 0x100 % 0x100 * 0x100 + v / 0x100 / 0x100 % 0x100) * 0x100
             + v / 0x100 % 0x100) * 0x100 + v % 0x100 == v
  {}

  lemma PackedFields(t: seq<Byte>, low: nat, mid: nat, high: nat, clock: nat)
    requires |t| == TOKEN_SIZE && low < 0x1_0000_0000 && mid < 0x1_0000 && high < 0x1_0000 && clock < 0x1_0000
    requires t[0] == low / 0x100 / 0x100 / 0x100 % 0x100 && t[1] == low / 0x100 / 0x100 % 0x100
    requires t[2] == low / 0x100 % 0x100 && t[3] == low % 0x100
    requires t[4] == mid / 0x100 % 0x100 && t[5] == mid % 0x100
    requires t[6] == high / 0x100 % 0x100 && t[7] == high % 0x100
    requires t[8] == clock / 0x100 % 0x100 && t[9] == clock % 0x100
    ensures HasFields(t, low, mid, high, clock)
  {
    hide BigEndian;
    FieldsOf(t);
    Bytes32(low);
    Bytes16(mid);
    Bytes16(high);
    Bytes16(clock);
  }

  lemma FieldsOf(t: seq<Byte>)
    requires |t| == TOKEN_SIZE
    ensures HasFields(t, ((t[0] as int * 0x100 + t[1]) * 0x100 + t[2]) * 0x100 + t[3],
                      t[4] as int * 0x100 + t[5], t[6] as int * 0x100 + t[7], t[8] as int * 0x100 + t[9])
  {
    hide BigEndian;
    BigEndian4(t[0..4]);
    BigEndian2(t[4..6]);
    BigEndian2(t[6..8]);
    BigEndian2(t[8..10]);
  }

  method Unpack(token: array<Byte>) returns (timeLow: nat, timeMid: nat, timeHighVer: nat, clockSeq: nat)
    requires token.Length == TOKEN_SIZE
    ensures HasFields(token[..], timeLow, timeMid, timeHighVer, clockSeq)
  {
    var ptr := 0;
    timeLow := token[ptr];
    ptr := ptr + 1;
    timeLow := timeLow * 0x100 + token[ptr];
    ptr := ptr + 1;
    timeLow := timeLow * 0x100 + token[ptr];
    ptr := ptr + 1;
    timeLow := timeLow * 0x100 + token[ptr];
    ptr := ptr + 1;
    timeMid := token[ptr];
    ptr := ptr + 1;
    timeMid := timeMid * 0x100 + token[ptr];
    ptr := ptr + 1;
    timeHighVer := token[ptr];
    ptr := ptr + 1;
    timeHighVer := timeHighVer * 0x100 + token[ptr];
    ptr := ptr + 1;
    clockSeq := token[ptr];
    ptr := ptr + 1;
    clockSeq := clockSeq * 0x100 + token[ptr];
    FieldsOf(token[..]);
  }

  /** A generated token: random but for the version, 4, in the high bits of byte
      6 and the variant, binary 10, in those of byte 8 (section 4.4 of RFC 4122). */
  function Stamped(random: Token): (t: Token)
    ensures forall k :: 0 <= k < TOKEN_SIZE && k != 6 && k != 8 ==> t[k] == random[k]
    ensures t[6] / 0x10 == 4 && t[6] % 0x10 == random[6] % 0x10
    ensures t[8] / 0x40 == 2 && t[8] % 0x40 == random[8] % 0x40
  {
    random[6 := 0x40 + random[6] % 0x10][8 := 0x80 + random[8] % 0x40]
  }

  lemma LastByte(v: nat, x: Byte, w: nat, y: Byte)
    requires v * 0x100 + x == w * 0x100 + y
    ensures v == w && x == y
  {}

  lemma {:induction false} FieldDetermines(a: seq<Byte>, b: seq<Byte>)
    requires |a| == |b| && BigEndian(a) == BigEndian(b)
    ensures a == b
  {
    if a != [] {
      var n := |a| - 1;
      LastByte(BigEndian(a[..n]), a[n], BigEndian(b[..n]), b[n]);
      FieldDetermines(a[..n], b[..n]);
      assert a == a[..n] + [a[n]] && b == b[..n] + [b[n]];
    }
  }

  /** The fields determine the first ten bytes. */
  lemma FieldsDetermine(a: seq<Byte>, b: seq<Byte>, low: nat, mid: nat, high: nat, clock: nat)
    requires HasFields(a, low, mid, high, clock) && HasFields(b, low, mid, high, clock)
    ensures a[..10] == b[..10]
  {
    hide BigEndian;
    FieldDetermines(a[0..4], b[0..4]);
    FieldDetermines(a[4..6], b[4..6]);
    FieldDetermines(a[6..8], b[6..8]);
    FieldDetermines(a[8..10], b[8..10]);
    TenBytes(a);
    TenBytes(b);
  }

  lemma TenBytes(a: seq<Byte>)
    requires |a| >= 10
    ensures a[..10] == a[0..4] + a[4..6] + a[6..8] + a[8..10]
  {}

  /** `random` is what the random source delivers. */
  method Generate(token: array<Byte>, random: Token)
    requires token.Length == TOKEN_SIZE
    modifies token
    ensures token[..] == Stamped(random)
  {
    hide And, Or, BigEndian;
    forall k | 0 <= k < TOKEN_SIZE {
      token[k] := random[k];
    }
    assert token[..] == random;
    var timeLow, timeMid, timeHighVer, clockSeq := Unpack(token);
    StampedFields(random, timeLow, timeMid, timeHighVer, clockSeq);
    MasksAreArithmetic(clockSeq);
    MasksAreArithmetic(timeHighVer);
    clockSeq := Or(And(clockSeq, 0x3FFF), 0x8000);
    timeHighVer := Or(And(timeHighVer, 0x0FFF), 0x4000);
    Pack(token, timeLow, timeMid, timeHighVer, clockSeq);
    FieldsDetermine(token[..], Stamped(random), timeLow, timeMid, timeHighVer, clockSeq);
    assert token[..] == token[..][..10] + token[10..];
    assert Stamped(random) == Stamped(random)[..10] + random[10..];
  }

  lemma StampedShort(x: Byte, y: Byte)
    ensures (x as int * 0x100 + y) % 0x1000 + 0x4000 == (0x40 + x % 0x10) * 0x100 + y
    ensures (x as int * 0x100 + y) % 0x4000 + 0x8000 == (0x80 + x % 0x40) * 0x100 + y
  {}

  lemma StampedFields(random: Token, low: nat, mid: nat, high: nat, clock: nat)
    requires HasFields(random, low, mid, high, clock)
    ensures HasFields(Stamped(random), low, mid, high % 0x1000 + 0x4000, clock % 0x4000 + 0x8000)
  {
    hide BigEndian;
    FieldsOf(random);
    FieldsOf(Stamped(random));
    StampedShort(random[6], random[7]);
    StampedShort(random[8], random[9]);
  }

  // ------------------------------------------------------------------- text

  const TOKEN_STR_LEN := 36

  predicate IsHex(c: char) {
    '0' <= c <= '9' || 'a' <= c <= 'f' || 'A' <= c <= 'F'
  }

  function HexValue(c: char): (v: nat)
    requires IsHex(c)
    ensures v < 16
  {
    if '0' <= c <= '9' then c as int - '0' as int
    else if 'a' <= c <= 'f' then c as int - 'a' as int + 10
    else c as int - 'A' as int + 10
  }

  function HexDigit(v: nat): (c: char)
    requires v < 16
    ensures IsHex(c) && HexValue(c) == v && c == LowerChar(c)
  {
    if v < 10 then ('0' as int + v) as char else ('a' as int + v - 10) as char
  }

  function LowerChar(c: char): char {
    if 'A' <= c <= 'Z' then (c as int + 32) as char else c
  }

  function Lower(s: string): (r: string)
    ensures |r| == |s| && forall k :: 0 <= k < |s| ==> r[k] == LowerChar(s[k])
  {
    seq(|s|, k requires 0 <= k < |s| => LowerChar(s[k]))
  }

  lemma DigitOfValue(c: char)
    requires IsHex(c)
    ensures HexDigit(HexValue(c)) == LowerChar(c)
  {}

  /** The digits of both cases, by their values. */
  lemma HexAlphabet(v: nat)
    requires v < 16
    ensures HexDigit(v) == "0123456789abcdef"[v]
    ensures HexValue("0123456789abcdef"[v]) == v == HexValue("0123456789ABCDEF"[v])
  {}

  predicate IsDash(k: int) {
    k == 8 || k == 13 || k == 18 || k == 23
  }

  /** The grammar of section 3 of RFC 4122: 8-4-4-4-12 hexadecimal digits. */
  predicate Grammar(s: string) {
    |s| == TOKEN_STR_LEN
    && forall k :: 0 <= k < TOKEN_STR_LEN ==> if IsDash(k) then s[k] == '-' else IsHex(s[k])
  }

  /** Where the digits of byte k stand. */
  function DigitsAt(k: nat): (at: nat)
    requires k < TOKEN_SIZE
    ensures at + 1 < TOKEN_STR_LEN && !IsDash(at) && !IsDash(at + 1)
  {
    2 * k + (if k < 4 then 0 else if k < 6 then 1 else if k < 8 then 2 else if k < 10 then 3 else 4)
  }

  function Parsed(s: string): (t: Token)
    requires Grammar(s)
    ensures forall k :: 0 <= k < TOKEN_SIZE ==>
              t[k] == 16 * HexValue(s[DigitsAt(k)]) + HexValue(s[DigitsAt(k) + 1])
  {
    seq(TOKEN_SIZE, k requires 0 <= k < TOKEN_SIZE =>
      16 * HexValue(s[DigitsAt(k)]) + HexValue(s[DigitsAt(k) + 1]))
  }

  function HexPair(b: Byte): string {
    [HexDigit(b / 16), HexDigit(b % 16)]
  }

  function HexBytes(b: seq<Byte>): (s: string)
    ensures |s| == 2 * |b|
  {
    if b == [] then [] else HexBytes(b[..|b| - 1]) + HexPair(b[|b| - 1])
  }

  lemma {:induction false} HexBytesAt(b: seq<Byte>, k: nat)
    requires k < |b|
    ensures HexBytes(b)[2 * k] == HexDigit(b[k] / 16) && HexBytes(b)[2 * k + 1] == HexDigit(b[k] % 16)
  {
    if k < |b| - 1 {
      HexBytesAt(b[..|b| - 1], k);
    }
  }

  function Rendered(t: Token): (s: string)
  {
    HexBytes(t[0..4]) + "-" + HexBytes(t[4..6]) + "-" + HexBytes(t[6..8]) + "-" + HexBytes(t[8..10])
    + "-" + HexBytes(t[10..])
  }

  /** The five groups and the dashes between them. */
  lemma GroupsStand(a: string, b: string, c: string, d: string, e: string)
    requires |a| == 8 && |b| == |c| == |d| == 4 && |e| == 12
    ensures var s := a + "-" + b + "-" + c + "-" + d + "-" + e;
            && |s| == TOKEN_STR_LEN && s[8] == s[13] == s[18] == s[23] == '-'
            && s[..8] == a && s[9..13] == b && s[14..18] == c && s[19..23] == d && s[24..] == e
  {}

  /** Byte k is the j-th of a group of bytes whose digits stand at `at`. */
  lemma GroupByte(s: string, at: nat, b: seq<Byte>, j: nat)
    requires at + 2 * |b| <= |s| && s[at..at + 2 * |b|] == HexBytes(b) && j < |b|
    ensures s[at + 2 * j] == HexDigit(b[j] / 16) && s[at + 2 * j + 1] == HexDigit(b[j] % 16)
  {
    HexBytesAt(b, j);
    assert s[at + 2 * j] == s[at..at + 2 * |b|][2 * j];
    assert s[at + 2 * j + 1] == s[at..at + 2 * |b|][2 * j + 1];
  }

  lemma RenderedByte(t: Token, s: string, k: nat)
    requires k < TOKEN_SIZE && |s| == TOKEN_STR_LEN
    requires s[..8] == HexBytes(t[0..4]) && s[9..13] == HexBytes(t[4..6]) && s[14..18] == HexBytes(t[6..8])
    requires s[19..23] == HexBytes(t[8..10]) && s[24..] == HexBytes(t[10..])
    ensures s[DigitsAt(k)] == HexDigit(t[k] / 16) && s[DigitsAt(k) + 1] == HexDigit(t[k] % 16)
  {
    hide HexBytes, HexDigit;
    if k < 4 {
      GroupByte(s, 0, t[0..4], k);
    } else if k < 6 {
      GroupByte(s, 9, t[4..6], k - 4);
    } else if k < 8 {
      GroupByte(s, 14, t[6..8], k - 6);
    } else if k < 10 {
      GroupByte(s, 19, t[8..10], k - 8);
    } else {
      GroupByte(s, 24, t[10..], k - 10);
    }
  }

  lemma RenderedAt(t: Token)
    ensures |Rendered(t)| == TOKEN_STR_LEN
    ensures forall k :: 0 <= k < TOKEN_SIZE ==>
              Rendered(t)[DigitsAt(k)] == HexDigit(t[k] / 16) && Rendered(t)[DigitsAt(k) + 1] == HexDigit(t[k] % 16)
    ensures forall k :: 0 <= k < TOKEN_STR_LEN && IsDash(k) ==> Rendered(t)[k] == '-'
  {
    hide HexBytes, HexDigit, DigitsAt;
    GroupsStand(HexBytes(t[0..4]), HexBytes(t[4..6]), HexBytes(t[6..8]), HexBytes(t[8..10]), HexBytes(t[10..]));
    forall k | 0 <= k < TOKEN_SIZE
      ensures Rendered(t)[DigitsAt(k)] == HexDigit(t[k] / 16)
      ensures Rendered(t)[DigitsAt(k) + 1] == HexDigit(t[k] % 16)
    {
      RenderedByte(t, Rendered(t), k);
    }
  }

  /** Every position is a dash or one of the digits of a byte. */
  lemma DigitsCover(j: nat) returns (k: nat)
    requires j < TOKEN_STR_LEN && !IsDash(j)
    ensures k < TOKEN_SIZE && (j == DigitsAt(k) || j == DigitsAt(k) + 1)
  {
    k := if j < 8 then j / 2 else if j < 13 then (j - 1) / 2 else if j < 18 then (j - 2) / 2
         else if j < 23 then (j - 3) / 2 else (j - 4) / 2;
  }

  /** What is rendered is in the grammar and parses back to the same token. */
  lemma ParseInvertsRender(t: Token)
    ensures Grammar(Rendered(t)) && Parsed(Rendered(t)) == t
  {
    RenderedAt(t);
    var s := Rendered(t);
    forall j | 0 <= j < TOKEN_STR_LEN && !IsDash(j) ensures IsHex(s[j]) {
      var k := DigitsCover(j);
      assert s[DigitsAt(k)] == HexDigit(t[k] / 16);
    }
    assert Grammar(s);
    forall k | 0 <= k < TOKEN_SIZE ensures Parsed(s)[k] == t[k] {
      assert s[DigitsAt(k)] == HexDigit(t[k] / 16) && s[DigitsAt(k) + 1] == HexDigit(t[k] % 16);
    }
  }

  /** What is parsed renders to the same text in lower case. */
  lemma RenderIsLowerCase(s: string)
    requires Grammar(s)
    ensures Rendered(Parsed(s)) == Lower(s)
  {
    var t := Parsed(s);
    RenderedAt(t);
    forall j | 0 <= j < TOKEN_STR_LEN ensures Rendered(t)[j] == LowerChar(s[j]) {
      if !IsDash(j) {
        var k := DigitsCover(j);
        DigitOfValue(s[j]);
        assert t[k] / 16 == HexValue(s[DigitsAt(k)]) && t[k] % 16 == HexValue(s[DigitsAt(k) + 1]);
      }
    }
  }

  /** Two accepted texts name the same token exactly if they are equal up to
      upper and lower case. */
  lemma SameTokenIffSameText(s: string, u: string)
    requires Grammar(s) && Grammar(u)
    ensures Parsed(s) == Parsed(u) <==> Lower(s) == Lower(u)
  {
    RenderIsLowerCase(s);
    RenderIsLowerCase(u);
    if Lower(s) == Lower(u) {
      ParseInvertsRender(Parsed(s));
      ParseInvertsRender(Parsed(u));
    }
  }

  // ------------------------------------------------------------ the program

  /** The last w hexadecimal digits of v: `%0wx` for a value that fits. */
  function Hex(v: nat, w: nat): string {
    if w == 0 then "" else Hex(v / 16, w - 1) + [HexDigit(v % 16)]
  }

  lemma Nibbles(v: nat, x: Byte)
    ensures (v * 256 + x) / 16 == v * 16 + x / 16 && (v * 256 + x) % 16 == x % 16
    ensures (v * 16 + x / 16) / 16 == v && (v * 16 + x / 16) % 16 == x / 16
  {}

  lemma HexOfTwo(v: nat, x: Byte, w: nat)
    ensures Hex(v * 256 + x, w + 2) == Hex(v, w) + HexPair(x)
  {
    hide HexDigit;
    Nibbles(v, x);
    assert Hex(v * 256 + x, w + 2) == Hex(v * 16 + x / 16, w + 1) + [HexDigit(x % 16)];
    assert Hex(v * 16 + x / 16, w + 1) == Hex(v, w) + [HexDigit(x / 16)];
  }

  lemma {:induction false} HexOfBytes(b: seq<Byte>)
    ensures Hex(BigEndian(b), 2 * |b|) == HexBytes(b)
  {
    hide Hex, HexPair;
    if b == [] {
      assert Hex(0, 0) == "" by { HexOfNone(); }
    } else {
      HexOfBytes(b[..|b| - 1]);
      HexOfTwo(BigEndian(b[..|b| - 1]), b[|b| - 1], 2 * (|b| - 1));
    }
  }

  lemma HexOfNone()
    ensures Hex(0, 0) == ""
  {}

  lemma HexOfByte(x: Byte)
    ensures Hex(x, 2) == HexBytes([x])
  {
    HexOfBytes([x]);
    assert [x][..0] == [];
  }

  lemma {:induction false} HexBytesConcat(a: seq<Byte>, b: seq<Byte>)
    ensures HexBytes(a + b) == HexBytes(a) + HexBytes(b)
  {
    hide HexPair;
    if b == [] {
      assert a + b == a;
    } else {
      var n := |b| - 1;
      assert (a + b)[..|a| + n] == a + b[..n] && (a + b)[|a| + n] == b[n];
      HexBytesConcat(a, b[..n]);
      Associative(HexBytes(a), HexBytes(b[..n]), HexPair(b[n]));
    }
  }

  lemma HexAppends(b: seq<Byte>, x: Byte)
    ensures HexBytes(b + [x]) == HexBytes(b) + Hex(x, 2)
  {
    HexBytesConcat(b, [x]);
    HexOfByte(x);
  }

  /** The six node bytes. */
  lemma HexOfNode(b: seq<Byte>)
    requires |b| == 6
    ensures HexBytes(b) == Hex(b[0], 2) + Hex(b[1], 2) + Hex(b[2], 2) + Hex(b[3], 2) + Hex(b[4], 2) + Hex(b[5], 2)
  {
    HexOfFirst(b, 5);
    assert b[..6] == b;
    assert HexUpTo(b, 1) == Hex(b[0], 2) + Hex(b[1], 2);
    assert HexUpTo(b, 2) == HexUpTo(b, 1) + Hex(b[2], 2);
    assert HexUpTo(b, 3) == HexUpTo(b, 2) + Hex(b[3], 2);
    assert HexUpTo(b, 4) == HexUpTo(b, 3) + Hex(b[4], 2);
  }

  /** The same for the first n + 1 bytes. */
  function HexUpTo(b: seq<Byte>, n: nat): string
    requires n < |b|
  {
    if n == 0 then Hex(b[0], 2) else HexUpTo(b, n - 1) + Hex(b[n], 2)
  }

  lemma {:induction false} HexOfFirst(b: seq<Byte>, n: nat)
    requires n < |b|
    ensures HexBytes(b[..n + 1]) == HexUpTo(b, n)
  {
    assert b[..n + 1] == b[..n] + [b[n]];
    HexAppends(b[..n], b[n]);
    if n > 0 {
      HexOfFirst(b, n - 1);
    } else {
      assert b[..0] == [];
    }
  }

  lemma HexOfPair(b: seq<Byte>)
    requires |b| == 2
    ensures HexBytes(b) == Hex(b[0], 2) + Hex(b[1], 2)
  {
    HexOfByte(b[0]);
    HexOfByte(b[1]);
    HexBytesConcat([b[0]], [b[1]]);
    assert b == [b[0]] + [b[1]];
  }

  lemma HexOfField(b: seq<Byte>, v: nat, w: nat)
    requires w == 2 * |b| && v == BigEndian(b)
    ensures HexBytes(b) == Hex(v, w)
  {
    HexOfBytes(b);
  }

  /** A 16-bit field printed as two bytes. */
  lemma HexOfClock(b: seq<Byte>, v: nat)
    requires |b| == 2 && v == BigEndian(b)
    ensures HexBytes(b) == Hex(v / 0x100, 2) + Hex(v % 0x100, 2)
  {
    HexOfPair(b);
    BigEndian2(b);
    assert v / 0x100 == b[0] && v % 0x100 == b[1];
  }

  method ToString(token: array<Byte>) returns (out: string)
    requires token.Length == TOKEN_SIZE
    ensures out == Rendered(token[..])
  {
    var timeLow, timeMid, timeHighVer, clockSeq := Unpack(token);
    var low, mid, high := Hex(timeLow, 8), Hex(timeMid, 4), Hex(timeHighVer, 4);
    var clock := Hex(clockSeq / 0x100, 2) + Hex(clockSeq % 0x100, 2);
    var node := Hex(token[10], 2) + Hex(token[11], 2) + Hex(token[12], 2)
      + Hex(token[13], 2) + Hex(token[14], 2) + Hex(token[15], 2);
    ghost var t := token[..];
    HexOfField(t[0..4], timeLow, 8);
    HexOfField(t[4..6], timeMid, 4);
    HexOfField(t[6..8], timeHighVer, 4);
    HexOfClock(t[8..10], clockSeq);
    HexOfNode(t[10..]);
    out := low + "-" + mid + "-" + high + "-" + clock + "-" + node;
  }

  /** `strtoul` in base 16 on text that starts with a digit: the value of the
      digits up to the first other character. */
  function StrToUl(s: string, acc: nat): nat {
    if s == [] || !IsHex(s[0]) then acc else StrToUl(s[1..], acc * 16 + HexValue(s[0]))
  }

  /** Two digits are one byte more. */
  lemma StrToUlByte(s: string, b: seq<Byte>, x: Byte)
    requires |s| >= 2 && DigitsOf(s[0], s[1], x)
    ensures StrToUl(s, BigEndian(b)) == StrToUl(s[2..], BigEndian(b + [x]))
  {
    hide HexValue, IsHex, BigEndian;
    var v := BigEndian(b);
    var w := v * 16 + HexValue(s[0]);
    assert StrToUl(s, v) == StrToUl(s[1..], w);
    assert StrToUl(s[1..], w) == StrToUl(s[1..][1..], w * 16 + HexValue(s[1]));
    assert s[1..][1..] == s[2..];
    BigEndianAppends(b, x);
  }

  lemma BigEndianAppends(b: seq<Byte>, x: Byte)
    ensures BigEndian(b + [x]) == BigEndian(b) * 256 + x
  {
    assert (b + [x])[..|b|] == b;
  }

  /** Text s starts with the two digits of each of these bytes. */
  ghost predicate Spells(s: string, b: seq<Byte>) {
    |s| >= 2 * |b| && forall j :: 0 <= j < |b| ==> DigitsOf(s[2 * j], s[2 * j + 1], b[j])
  }

  predicate DigitsOf(c: char, d: char, x: Byte) {
    IsHex(c) && IsHex(d) && x == 16 * HexValue(c) + HexValue(d)
  }

  lemma SpellsRest(s: string, b: seq<Byte>)
    requires Spells(s, b) && b != []
    ensures |s| >= 2 * |b| >= 2 && DigitsOf(s[0], s[1], b[0]) && Spells(s[2..], b[1..])
  {
    hide DigitsOf;
    assert DigitsOf(s[2 * 0], s[2 * 0 + 1], b[0]);
    forall j | 0 <= j < |b| - 1 ensures DigitsOf(s[2..][2 * j], s[2..][2 * j + 1], b[1..][j]) {
      assert DigitsOf(s[2 * (j + 1)], s[2 * (j + 1) + 1], b[j + 1]);
    }
  }

  /** The digits of some bytes, up to another character or the end, read as the
      number the bytes spell. */
  lemma {:induction false} StrToUlBytes(s: string, b: seq<Byte>, before: seq<Byte>)
    requires Spells(s, b) && (|s| == 2 * |b| || !IsHex(s[2 * |b|]))
    ensures StrToUl(s, BigEndian(before)) == BigEndian(before + b)
  {
    hide BigEndian, Spells;
    if b == [] {
      assert before + b == before;
    } else {
      SpellsRest(s, b);
      StrToUlByte(s, before, b[0]);
      assert before + [b[0]] + b[1..] == before + b;
      assert |s| > 2 * |b| ==> s[2 * |b|] == s[2..][2 * |b[1..]|];
      StrToUlBytes(s[2..], b[1..], before + [b[0]]);
    }
  }

  /** Reading a field of the text gives the field of the token. */
  lemma FieldReads(s: string, lo: nat, hi: nat)
    requires Grammar(s) && lo < hi <= 10 && DigitsAt(lo) + 2 * (hi - lo) < TOKEN_STR_LEN
    requires IsDash(DigitsAt(lo) + 2 * (hi - lo))
    requires forall k :: lo <= k < hi ==> DigitsAt(k) == DigitsAt(lo) + 2 * (k - lo)
    ensures StrToUl(s[DigitsAt(lo)..], 0) == BigEndian(Parsed(s)[lo..hi])
  {
    hide StrToUl, BigEndian, HexValue, DigitsAt;
    var u, b := s[DigitsAt(lo)..], Parsed(s)[lo..hi];
    forall j | 0 <= j < |b| ensures DigitsOf(u[2 * j], u[2 * j + 1], b[j]) {
      var k := lo + j;
      assert DigitsAt(k) == DigitsAt(lo) + 2 * j;
      assert u[2 * j] == s[DigitsAt(k)] && u[2 * j + 1] == s[DigitsAt(k) + 1] && b[j] == Parsed(s)[k];
    }
    assert u[2 * |b|] == s[DigitsAt(lo) + 2 * |b|];
    StrToUlBytes(u, b, []);
    assert [] + b == b;
    BigEndianOfNone();
  }

  lemma BigEndianOfNone()
    ensures BigEndian([]) == 0
  {}

  /** The check of every character, the terminator included. */
  method CheckFormat(str: string) returns (ok: bool)
    requires |str| == TOKEN_STR_LEN
    ensures ok <==> Grammar(str)
  {
    var i := 0;
    while i <= TOKEN_STR_LEN
      invariant 0 <= i <= TOKEN_STR_LEN + 1
      invariant forall k :: 0 <= k < i && k < TOKEN_STR_LEN ==> if IsDash(k) then str[k] == '-' else IsHex(str[k])
    {
      if i == 8 || i == 13 || i == 18 || i == 23 {
        if str[i] != '-' {
          return false;
        }
      } else if i == TOKEN_STR_LEN {
        // the terminating NUL
      } else if !IsHex(str[i]) {
        return false;
      }
      i := i + 1;
    }
    return true;
  }

  /** The four numeric fields. */
  method ParseFields(token: array<Byte>, str: string)
    requires token.Length == TOKEN_SIZE && Grammar(str)
    modifies token
    ensures token[..10] == Parsed(str)[..10] && token[10..] == old(token[10..])
  {
    hide StrToUl, BigEndian, Parsed;
    FieldsRead(str);
    var timeLow := StrToUl(str, 0);
    var timeMid := StrToUl(str[9..], 0);
    var timeHighVer := StrToUl(str[14..], 0);
    var clockSeq := StrToUl(str[19..], 0);
    Pack(token, timeLow % 0x1_0000_0000, timeMid % 0x1_0000, timeHighVer % 0x1_0000, clockSeq % 0x1_0000);
    FieldsDetermine(token[..], Parsed(str), timeLow, timeMid, timeHighVer, clockSeq);
    assert token[..10] == token[..][..10];
  }

  lemma FieldsRead(s: string)
    requires Grammar(s)
    ensures HasFields(Parsed(s), StrToUl(s, 0), StrToUl(s[9..], 0), StrToUl(s[14..], 0), StrToUl(s[19..], 0))
  {
    hide StrToUl, BigEndian, Parsed, Grammar;
    FieldReads(s, 0, 4);
    FieldReads(s, 4, 6);
    FieldReads(s, 6, 8);
    FieldReads(s, 8, 10);
    assert s[0..] == s;
    FieldsOf(Parsed(s));
  }

  lemma NodeByteReads(s: string, k: nat)
    requires Grammar(s) && 10 <= k < TOKEN_SIZE
    ensures StrToUl([s[2 * k + 4], s[2 * k + 5]], 0) == Parsed(s)[k]
  {
    var u, b := [s[2 * k + 4], s[2 * k + 5]], [Parsed(s)[k]];
    assert DigitsAt(k) == 2 * k + 4;
    assert DigitsOf(u[0], u[1], b[0]);
    StrToUlBytes(u, b, []);
    assert [] + b == b && b[..0] == [];
  }

  /** The six node bytes. */
  method ParseNode(token: array<Byte>, str: string)
    requires token.Length == TOKEN_SIZE && Grammar(str) && token[..10] == Parsed(str)[..10]
    modifies token
    ensures token[..] == Parsed(str)
  {
    hide StrToUl, Parsed;
    assert |str| == TOKEN_STR_LEN;
    ghost var t := Parsed(str);
    forall k | 0 <= k < 10 ensures token[k] == t[k] {
      assert token[..10][k] == t[..10][k];
    }
    var cp := 24;
    var i := 10;
    while i < 16
      invariant 10 <= i <= 16 && cp == 2 * i + 4
      invariant forall k :: 0 <= k < i ==> token[k] == t[k]
    {
      NodeByteReads(str, i);
      var buf := [str[cp], str[cp + 1]];
      cp := cp + 2;
      token[i] := StrToUl(buf, 0) % 0x100;
      i := i + 1;
    }
    assert |t| == TOKEN_SIZE;
  }

  /** Accepts exactly the grammar, and then stores the token; otherwise the token
      is left alone. */
  method FromString(token: array<Byte>, str: string) returns (res: int)
    requires token.Length == TOKEN_SIZE
    modifies token
    ensures res == 0 || res == -1
    ensures res == 0 <==> Grammar(str)
    ensures token[..] == if res == 0 then Parsed(str) else old(token[..])
  {
    if |str| != TOKEN_STR_LEN {
      return -1;
    }
    var ok := CheckFormat(str);
    if !ok {
      return -1;
    }
    ParseFields(token, str);
    ParseNode(token, str);
    return 0;
  }
}
