/**
 src/common/auth/totp.ts: base32 secrets (section 6 of RFC 4648) and time-based one-time passwords (section 5.3 of
 RFC 4226 and section 4.2 of RFC 6238). HMAC-SHA-1 is any function with 20 output bytes; times are milliseconds and
 are divided exactly; upper-casing is that of ASCII.
 */
module Totp {
  import opened Prelude

  type Byte = b: nat | b < 256

  // ----- bits

  // The low `w` bits of v, high bit first: `toString(2).padStart(w, '0')` for v below 2 to the w.
  function Bits(v: nat, w: nat): (bits: seq<bool>)
    ensures |bits| == w
  {
    if w == 0 then [] else Bits(v / 2, w - 1) + [v % 2 == 1]
  }

  // `parseInt(bits, 2)`, and 0 for no bits.
  function Value(bits: seq<bool>): nat {
    if bits == [] then 0 else 2 * Value(bits[..|bits| - 1]) + (if bits[|bits| - 1] then 1 else 0)
  }

  function Pow2(w: nat): (p: nat)
    ensures p > 0
  {
    if w == 0 then 1 else 2 * Pow2(w - 1)
  }

  lemma {:induction false} ValueOfBits(v: nat, w: nat)
    requires v < Pow2(w)
    ensures Value(Bits(v, w)) == v
  {
    if w > 0 {
      ValueOfBits(v / 2, w - 1);
      assert Bits(v, w)[..w - 1] == Bits(v / 2, w - 1);
    }
  }

  lemma {:induction false} BitsOfValue(bits: seq<bool>)
    ensures Value(bits) < Pow2(|bits|) && Bits(Value(bits), |bits|) == bits
  {
    if bits != [] {
      BitsOfValue(bits[..|bits| - 1]);
      assert bits == bits[..|bits| - 1] + [bits[|bits| - 1]];
    }
  }

  // ----- regrouping

  function Spread(values: seq<nat>, w: nat): seq<bool> {
    if values == [] then [] else Bits(values[0], w) + Spread(values[1..], w)
  }

  lemma {:induction false} SpreadLength(values: seq<nat>, w: nat)
    ensures |Spread(values, w)| == |values| * w
  {
    hide Bits;
    if values != [] {
      SpreadLength(values[1..], w);
      OneMore(|values| - 1, w);
    }
  }

  lemma OneMore(n: nat, w: nat)
    ensures (n + 1) * w == n * w + w
  {
  }

  // Values of the whole groups of w bits; bits left over are dropped.
  function Groups(bits: seq<bool>, w: nat): seq<nat>
    requires w > 0
  {
    if |bits| < w then [] else [Value(bits[..w])] + Groups(bits[w..], w)
  }

  predicate Fit(values: seq<nat>, w: nat) {
    forall i | 0 <= i < |values| :: values[i] < Pow2(w)
  }

  lemma {:induction false} GroupsOfSpread(values: seq<nat>, w: nat, rest: seq<bool>)
    requires w > 0 && Fit(values, w) && |rest| < w
    ensures Groups(Spread(values, w) + rest, w) == values
  {
    hide Bits, Value, Pow2;
    var bits := Spread(values, w) + rest;
    if values == [] {
      assert bits == rest;
    } else {
      GroupsOfSpread(values[1..], w, rest);
      ValueOfBits(values[0], w);
      assert bits[..w] == Bits(values[0], w);
      assert bits[w..] == Spread(values[1..], w) + rest;
    }
  }

  lemma Reassociate(a: seq<bool>, b: seq<bool>, c: seq<bool>)
    ensures a + (b + c) == (a + b) + c
  {
  }

  lemma {:induction false} SpreadOfGroups(bits: seq<bool>, w: nat)
    requires w > 0
    ensures Fit(Groups(bits, w), w)
    ensures exists rest :: |rest| < w && bits == Spread(Groups(bits, w), w) + rest
  {
    hide Bits, Value, Pow2;
    if |bits| < w {
      assert bits == Spread([], w) + bits;
    } else {
      SpreadOfGroups(bits[w..], w);
      var rest :| |rest| < w && bits[w..] == Spread(Groups(bits[w..], w), w) + rest;
      BitsOfValue(bits[..w]);
      SpreadCons(Value(bits[..w]), Groups(bits[w..], w), w);
      Reassociate(bits[..w], Spread(Groups(bits[w..], w), w), rest);
      assert bits == bits[..w] + bits[w..];
    }
  }

  lemma SpreadCons(v: nat, values: seq<nat>, w: nat)
    ensures Spread([v] + values, w) == Bits(v, w) + Spread(values, w)
  {
    assert ([v] + values)[1..] == values;
  }

  lemma SpreadNone(w: nat)
    ensures Spread([], w) == []
  {
  }

  lemma {:induction false} SpreadSplits(a: seq<nat>, b: seq<nat>, w: nat)
    ensures Spread(a + b, w) == Spread(a, w) + Spread(b, w)
  {
    hide Bits, Spread;
    if a == [] {
      assert a + b == b;
      SpreadNone(w);
    } else {
      SpreadSplits(a[1..], b, w);
      assert a == [a[0]] + a[1..] && a + b == [a[0]] + (a[1..] + b);
      SpreadCons(a[0], a[1..], w);
      SpreadCons(a[0], a[1..] + b, w);
    }
  }

  // ----- base32

  const ALPHABET := "ABCDEFGHIJKLMNOPQRSTUVWXYZ234567"

  function Index(c: char): (i: int)
    ensures -1 <= i < 32
    ensures i >= 0 ==> ALPHABET[i] == c
  {
    if 'A' <= c <= 'Z' then c as int - 'A' as int
    else if '2' <= c <= '7' then c as int - '2' as int + 26
    else -1
  }

  lemma IndexOfSymbol(i: nat)
    requires i < 32
    ensures Index(ALPHABET[i]) == i
  {
  }

  function Symbols(values: seq<nat>): (s: string)
    requires Fit(values, 5)
    ensures |s| == |values|
    ensures forall i | 0 <= i < |s| :: s[i] == ALPHABET[values[i]]
  {
    assert Pow2(5) == 32;
    seq(|values|, i requires 0 <= i < |values| => ALPHABET[values[i]])
  }

  lemma GroupsFit(bits: seq<bool>, w: nat)
    requires w > 0
    ensures Fit(Groups(bits, w), w)
  {
    SpreadOfGroups(bits, w);
  }

  function Encode(bytes: seq<Byte>): string {
    GroupsFit(Spread(bytes, 8), 5);
    Symbols(Groups(Spread(bytes, 8), 5))
  }

  // The letters stand for 0 to 25 and the digits from 2 on for 26 to 31.
  lemma AlphabetIs(v: nat)
    requires v < 32
    ensures ALPHABET[v] == if v < 26 then 'A' + v as char else '2' + (v - 26) as char
  {
  }

  // The byte 0x66 is 01100 110: its high five bits make a symbol, and what is left over is dropped.
  lemma EncodeExample()
    ensures Encode([0x66]) == "M"
  {
    FirstBits();
    hide Spread, Groups, Pow2;
    GroupsFit(Spread([0x66], 8), 5);
    assert Symbols([12]) == "M";
  }

  lemma SpreadOne(v: nat, w: nat)
    ensures Spread([v], w) == Bits(v, w)
  {
    assert Spread([v][1..], w) == [];
  }

  lemma BitsSnoc(v: nat, w: nat)
    requires w > 0
    ensures Bits(v, w) == Bits(v / 2, w - 1) + [v % 2 == 1]
  {
  }

  lemma BitsOfF()
    ensures Bits(0x66, 8) == Bits(12, 5) + [true, true, false]
    ensures Fit([12], 5)
  {
    assert Pow2(5) == 32;
    hide Bits, Pow2;
    BitsSnoc(0x66, 8);
    BitsSnoc(0x33, 7);
    BitsSnoc(0x19, 6);
    assert Bits(12, 5) + [true] + [true] + [false] == Bits(12, 5) + [true, true, false];
  }

  lemma FirstBits()
    ensures Groups(Spread([0x66], 8), 5) == [12]
  {
    hide Bits, Fit, Spread, Groups;
    var rest := [true, true, false];
    BitsOfF();
    SpreadOne(0x66, 8);
    SpreadOne(12, 5);
    GroupsOfSpread([12], 5, rest);
  }

  function Upper(c: char): char {
    if 'a' <= c <= 'z' then c - 'a' + 'A' else c
  }

  // The values of the characters that count.
  function Values(s: string): (values: seq<nat>)
    ensures Fit(values, 5)
  {
    assert Pow2(5) == 32;
    if s == [] then []
    else
      var i := Index(Upper(s[|s| - 1]));
      Values(s[..|s| - 1]) + if i >= 0 then [i] else []
  }

  function Decode(s: string): seq<nat> {
    Groups(Spread(Values(s), 5), 8)
  }

  lemma {:induction false} ValuesSplit(a: string, b: string)
    ensures Values(a + b) == Values(a) + Values(b)
  {
    if b == [] {
      assert a + b == a;
    } else {
      ValuesSplit(a, b[..|b| - 1]);
      assert (a + b)[..|a + b| - 1] == a + b[..|b| - 1];
    }
  }

  lemma {:induction false} ValuesOfSymbols(values: seq<nat>)
    requires Fit(values, 5)
    ensures Values(Symbols(values)) == values
  {
    hide Index, Upper, Pow2;
    if values != [] {
      var n := |values| - 1;
      ValuesOfSymbols(values[..n]);
      assert Symbols(values)[..n] == Symbols(values[..n]);
      ValueOfSymbol(values[n]);
      assert values == values[..n] + [values[n]];
    }
  }

  lemma ValueOfSymbol(v: nat)
    requires v < Pow2(5)
    ensures v < 32 && Index(Upper(ALPHABET[v])) == v
  {
    IndexOfSymbol(v);
  }

  // Decoding an encoding gives the bytes back, except the last one unless their number is a multiple of five.
  lemma DecodeEncode(bytes: seq<Byte>)
    ensures Decode(Encode(bytes)) == if |bytes| % 5 == 0 then bytes else bytes[..|bytes| - 1]
  {
    hide Bits, Value, Pow2, Spread, Groups, Symbols, Values;
    var bits := Spread(bytes, 8);
    var groups := Groups(bits, 5);
    SpreadOfGroups(bits, 5);
    var dropped :| |dropped| < 5 && bits == Spread(groups, 5) + dropped;
    ValuesOfSymbols(groups);
    var kept := if |bytes| % 5 == 0 then bytes else bytes[..|bytes| - 1];
    assert bytes == kept + bytes[|kept|..];
    SpreadSplits(kept, bytes[|kept|..], 8);
    SpreadLength(bytes, 8);
    SpreadLength(kept, 8);
    SpreadLength(groups, 5);
    KeptBits(|bytes|, |groups|, |dropped|, |kept|);
    var rest := Spread(groups, 5)[|kept| * 8..];
    assert Spread(groups, 5) == bits[..|groups| * 5];
    assert Spread(groups, 5) == Spread(kept, 8) + rest;
    BytesFit(kept);
    GroupsOfSpread(kept, 8, rest);
  }

  lemma BytesFit(bytes: seq<Byte>)
    ensures Fit(bytes, 8)
  {
    assert Pow2(8) == 256;
  }

  lemma KeptBits(n: nat, groups: nat, dropped: nat, kept: nat)
    requires n * 8 == groups * 5 + dropped && dropped < 5
    requires kept == if n % 5 == 0 then n else n - 1
    ensures kept * 8 <= groups * 5 < kept * 8 + 8
  {
  }

  // So secrets whose length is a multiple of five, such as the generated 20 bytes, are told apart by their encoding.
  lemma EncodeInjective(a: seq<Byte>, b: seq<Byte>)
    requires |a| % 5 == 0 && |b| % 5 == 0 && Encode(a) == Encode(b)
    ensures a == b
  {
    DecodeEncode(a);
    DecodeEncode(b);
  }

  // The other way round a text comes back, in capitals and without ignored characters, exactly when the characters
  // that count come in eights.
  lemma EncodeDecode(s: string)
    ensures var bytes := Decode(s); Fit(bytes, 8) && (forall i | 0 <= i < |bytes| :: bytes[i] < 256)
    ensures Encode(Decode(s)) == Symbols(Values(s)) <==> |Values(s)| % 8 == 0
  {
    hide Bits, Value, Spread, Groups, Symbols, Values;
    var values := Values(s);
    var bits := Spread(values, 5);
    var bytes := Decode(s);
    EightBits();
    SpreadOfGroups(bits, 8);
    SpreadLength(values, 5);
    SpreadLength(bytes, 8);
    var dropped :| |dropped| < 8 && bits == Spread(bytes, 8) + dropped;
    EncodeLength(bytes);
    if |values| % 8 == 0 {
      assert dropped == [] by {
        NoneDropped(|values|, |bytes|, |dropped|);
      }
      assert bits + [] == bits && Spread(bytes, 8) == bits;
      GroupsOfSpread(values, 5, []);
    } else {
      SomeDropped(|values|, |bytes|, |dropped|);
    }
  }

  lemma EightBits()
    ensures Pow2(8) == 256
  {
    assert Pow2(4) == 16;
  }

  lemma NoneDropped(values: nat, bytes: nat, dropped: nat)
    requires values % 8 == 0 && values * 5 == bytes * 8 + dropped && dropped < 8
    ensures dropped == 0
  {
    var q := values / 8;
    assert values == 8 * q;
    assert dropped == 8 * (5 * q - bytes);
  }

  lemma SomeDropped(values: nat, bytes: nat, dropped: nat)
    requires values % 8 != 0 && values * 5 == bytes * 8 + dropped && dropped < 8
    ensures bytes * 8 < values * 5
  {
  }

  lemma EncodeLength(bytes: seq<Byte>)
    ensures |Encode(bytes)| * 5 <= |bytes| * 8
  {
    hide Bits, Value, Spread, Groups;
    var groups := Groups(Spread(bytes, 8), 5);
    SpreadOfGroups(Spread(bytes, 8), 5);
    SpreadLength(bytes, 8);
    SpreadLength(groups, 5);
  }

  // What a character of a secret counts for, if anything: capital or small letters 0 to 25, digits from 2 on 26 to 31.
  lemma CharacterIs(c: char)
    ensures Index(Upper(c)) ==
            if 'A' <= c <= 'Z' then c as int - 'A' as int
            else if 'a' <= c <= 'z' then c as int - 'a' as int
            else if '2' <= c <= '7' then c as int - '2' as int + 26
            else -1
  {
    var u := Upper(c);
    if 'A' <= u <= 'Z' {
      AlphabetIs(u as nat - 'A' as nat);
      IndexOfSymbol(u as nat - 'A' as nat);
    } else if '2' <= u <= '7' {
      AlphabetIs(u as nat - '2' as nat + 26);
      IndexOfSymbol(u as nat - '2' as nat + 26);
    } else if Index(u) >= 0 {
      AlphabetIs(Index(u));
    }
  }

  // Case, characters outside the alphabet and trailing padding do not matter.
  lemma DecodeIgnores(a: string, c: char, b: string)
    ensures Index(Upper(c)) < 0 ==> Decode(a + [c] + b) == Decode(a + b)
    ensures Decode(a + [Upper(c)] + b) == Decode(a + [c] + b)
  {
    hide Values, Index, Upper;
    ValuesSplit(a + [c], b);
    ValuesSplit(a, [c]);
    ValuesSplit(a + [Upper(c)], b);
    ValuesSplit(a, [Upper(c)]);
    ValuesSplit(a, b);
    ValuesOfOne(c);
    assert Values(a) + [] == Values(a);
  }

  lemma ValuesOfOne(c: char)
    ensures Index(Upper(c)) < 0 ==> Values([c]) == []
    ensures Values([Upper(c)]) == Values([c])
  {
    hide Index;
    assert [c][..0] == [] && [Upper(c)][..0] == [];
  }

  // Without the equals signs at the end.
  function Unpadded(s: string): string {
    if s != [] && s[|s| - 1] == '=' then Unpadded(s[..|s| - 1]) else s
  }

  lemma {:induction false} UnpaddedValues(s: string)
    ensures Values(Unpadded(s)) == Values(s)
  {
    if s != [] && s[|s| - 1] == '=' {
      UnpaddedValues(s[..|s| - 1]);
      assert Values(s[..|s| - 1]) + [] == Values(s[..|s| - 1]);
    }
  }

  // ----- the loops

  method GroupBits(bits: seq<bool>, w: nat) returns (values: seq<nat>)
    requires w > 0
    ensures values == Groups(bits, w)
  {
    values := [];
    var i := 0;
    while i + w <= |bits|
      invariant 0 <= i <= |bits|
      invariant values + Groups(bits[i..], w) == Groups(bits, w)
    {
      assert bits[i..][..w] == bits[i..i + w] && bits[i..][w..] == bits[i + w..];
      values := values + [Value(bits[i..i + w])];
      i := i + w;
    }
    assert values + [] == values;
  }

  method SpreadBits(values: seq<nat>, w: nat) returns (bits: seq<bool>)
    ensures bits == Spread(values, w)
  {
    bits := [];
    for i := 0 to |values|
      invariant bits == Spread(values[..i], w)
    {
      assert values[..i + 1] == values[..i] + [values[i]];
      SpreadSplits(values[..i], [values[i]], w);
      assert Spread([values[i]], w) == Bits(values[i], w) + [];
      bits := bits + Bits(values[i], w);
    }
    assert values[..|values|] == values;
  }

  method ToBase32(bytes: seq<Byte>) returns (output: string)
    ensures output == Encode(bytes)
  {
    var bits := SpreadBits(bytes, 8);
    var values := GroupBits(bits, 5);
    GroupsFit(bits, 5);
    assert Pow2(5) == 32;
    output := "";
    for i := 0 to |values|
      invariant |output| == i && forall j | 0 <= j < i :: output[j] == ALPHABET[values[j]]
    {
      output := output + [ALPHABET[values[i]]];
    }
  }

  method FromBase32(secret: string) returns (bytes: seq<nat>)
    ensures bytes == Decode(secret)
  {
    hide Spread, Groups, Index, Upper;
    var end := |secret|;
    assert secret[..end] == secret;
    while end > 0 && secret[end - 1] == '='
      invariant 0 <= end <= |secret|
      invariant Unpadded(secret[..end]) == Unpadded(secret)
    {
      assert secret[..end][..end - 1] == secret[..end - 1];
      end := end - 1;
    }
    var normalized := secret[..end];
    UnpaddedValues(secret);
    var values: seq<nat> := [];
    for i := 0 to |normalized|
      invariant values == Values(normalized[..i])
    {
      assert normalized[..i + 1][..i] == normalized[..i];
      var index := Index(Upper(normalized[i]));
      if index >= 0 {
        values := values + [index];
      }
    }
    assert normalized[..|normalized|] == normalized;
    var bits := SpreadBits(values, 5);
    bytes := GroupBits(bits, 8);
  }

  // ----- one-time passwords

  const WORD: nat := 0x1_0000_0000
  const STEP_MS := 30_000

  // The latest `Date` and more; counters stay far below 2 to the 53.
  const MAX_TIME := 8_640_000_000_000_000

  datatype Error = RangeError

  // `writeUInt32BE`.
  function BigEndian(v: nat): (bytes: seq<Byte>)
    requires v < WORD
    ensures |bytes| == 4
  {
    [v / 0x100_0000, v / 0x1_0000 % 256, v / 256 % 256, v % 256]
  }

  function ReadBigEndian(bytes: seq<Byte>): nat {
    if bytes == [] then 0 else 256 * ReadBigEndian(bytes[..|bytes| - 1]) + bytes[|bytes| - 1]
  }

  lemma FourBytes(v: nat)
    requires v < WORD
    ensures v / 0x100_0000 < 256
    ensures ((v / 0x100_0000 * 256 + v / 0x1_0000 % 256) * 256 + v / 256 % 256) * 256 + v % 256 == v
  {
    assert v / 256 / 256 == v / 0x1_0000 && v / 256 / 256 / 256 == v / 0x100_0000;
  }

  predicate InRange(counter: int) {
    0 <= counter < WORD * WORD
  }

  // The eight counter bytes, written as two words: writing throws when the high word is out of range.
  function CounterBytes(counter: int): Result<seq<Byte>, Error> {
    if 0 <= counter / WORD < WORD then Ok(BigEndian(counter / WORD) + BigEndian(counter % WORD)) else Err(RangeError)
  }

  lemma ReadSnoc(s: seq<Byte>, b: Byte)
    ensures ReadBigEndian(s + [b]) == 256 * ReadBigEndian(s) + b
  {
    assert (s + [b])[..|s|] == s;
  }

  lemma ReadNothing()
    ensures ReadBigEndian([]) == 0
  {
  }

  lemma ReadWord(s: seq<Byte>, v: nat)
    requires v < WORD
    ensures ReadBigEndian(s + BigEndian(v)) == ReadBigEndian(s) * WORD + v
  {
    hide ReadBigEndian;
    FourBytes(v);
    var b := BigEndian(v);
    ReadSnoc(s, b[0]);
    ReadSnoc(s + [b[0]], b[1]);
    ReadSnoc(s + [b[0]] + [b[1]], b[2]);
    ReadSnoc(s + [b[0]] + [b[1]] + [b[2]], b[3]);
    assert s + b == s + [b[0]] + [b[1]] + [b[2]] + [b[3]];
  }

  // Splitting the counter in two words loses nothing, and fails exactly outside 64 bits: for a negative counter.
  lemma CounterLossless(counter: int)
    ensures CounterBytes(counter).Ok? <==> InRange(counter)
    ensures InRange(counter) ==>
      |CounterBytes(counter).value| == 8 && ReadBigEndian(CounterBytes(counter).value) == counter
  {
    hide ReadBigEndian, BigEndian;
    if InRange(counter) {
      ReadWord([], counter / WORD);
      ReadWord(BigEndian(counter / WORD), counter % WORD);
      assert [] + BigEndian(counter / WORD) == BigEndian(counter / WORD);
      ReadNothing();
    }
  }

  // A message authentication code of 20 bytes.
  ghost predicate TwentyBytes(hmac: (seq<nat>, seq<nat>) -> seq<Byte>) {
    forall key, message :: |hmac(key, message)| == 20
  }

  // Dynamic truncation: the bit operations take disjoint bits, so they are sums here.
  function Truncate(mac: seq<Byte>): (n: nat)
    requires |mac| == 20
    ensures n < 0x8000_0000
  {
    var offset := mac[19] % 16;
    var a: nat, b: nat, c: nat, d: nat := mac[offset], mac[offset + 1], mac[offset + 2], mac[offset + 3];
    a % 128 * 0x100_0000 + b * 0x1_0000 + c * 0x100 + d
  }

  // The four bytes from the place that the low half of the last byte names, read in order, without their top bit.
  lemma TruncateReads(mac: seq<Byte>)
    requires |mac| == 20
    ensures var k := mac[19] % 16; Truncate(mac) == ReadBigEndian(mac[k..k + 4]) % 0x8000_0000
  {
    hide ReadBigEndian;
    var k := mac[19] % 16;
    var a, b, c, d := mac[k], mac[k + 1], mac[k + 2], mac[k + 3];
    ReadNothing();
    ReadSnoc([], a);
    ReadSnoc([] + [a], b);
    ReadSnoc([] + [a] + [b], c);
    ReadSnoc([] + [a] + [b] + [c], d);
    assert mac[k..k + 4] == [] + [a] + [b] + [c] + [d];
    var n := a * 0x100_0000 + b * 0x1_0000 + c * 0x100 + d;
    assert n == a / 128 * 0x8000_0000 + Truncate(mac);
    assert n % 0x8000_0000 == Truncate(mac);
  }

  function Digit(n: nat): (c: char)
    requires n < 10
    ensures '0' <= c <= '9' && c as int - '0' as int == n
  {
    '0' + n as char
  }

  function Decimal(n: nat): string {
    if n < 10 then [Digit(n)] else Decimal(n / 10) + [Digit(n % 10)]
  }

  function PadStart(s: string, w: nat): string
    decreases w - |s|
  {
    if |s| >= w then s else PadStart("0" + s, w)
  }

  function Code(n: nat): string {
    PadStart(Decimal(n % 1_000_000), 6)
  }

  predicate AllDigits(s: string) {
    forall i | 0 <= i < |s| :: '0' <= s[i] <= '9'
  }

  predicate SixDigits(s: string) {
    |s| == 6 && AllDigits(s)
  }

  function Number(s: string): int {
    if s == "" then 0 else 10 * Number(s[..|s| - 1]) + (s[|s| - 1] as int - '0' as int)
  }

  function Pow10(k: nat): nat {
    if k == 0 then 1 else 10 * Pow10(k - 1)
  }

  lemma NumberSnoc(s: string, c: char)
    ensures Number(s + [c]) == 10 * Number(s) + (c as int - '0' as int) && Number("") == 0
  {
    assert (s + [c])[..|s|] == s;
  }

  lemma {:induction false} DecimalShape(n: nat, k: nat)
    requires k > 0 && n < Pow10(k)
    ensures 0 < |Decimal(n)| <= k && AllDigits(Decimal(n)) && Number(Decimal(n)) == n
  {
    hide Number, Digit;
    if n < 10 {
      NumberSnoc("", Digit(n));
      assert "" + [Digit(n)] == [Digit(n)];
    } else {
      DecimalShape(n / 10, k - 1);
      NumberSnoc(Decimal(n / 10), Digit(n % 10));
    }
  }

  lemma {:induction false} LeadingZero(s: string)
    ensures Number("0" + s) == Number(s)
  {
    if s == "" {
      assert "0"[..0] == "";
    } else {
      LeadingZero(s[..|s| - 1]);
      assert ("0" + s)[..|s|] == "0" + s[..|s| - 1];
    }
  }

  lemma {:induction false} PadShape(s: string, w: nat)
    requires AllDigits(s)
    ensures |PadStart(s, w)| == Max(|s|, w) && AllDigits(PadStart(s, w)) && Number(PadStart(s, w)) == Number(s)
    decreases w - |s|
  {
    hide Number;
    if |s| < w {
      LeadingZero(s);
      PadShape("0" + s, w);
    }
  }

  // Every code is six digits, and reads as the truncated value modulo a million.
  lemma CodeShape(n: nat)
    ensures SixDigits(Code(n)) && Number(Code(n)) == n % 1_000_000
  {
    hide Decimal, PadStart, Number;
    assert Pow10(6) == 1_000_000 by {
      assert Pow10(3) == 1000;
    }
    DecimalShape(n % 1_000_000, 6);
    PadShape(Decimal(n % 1_000_000), 6);
  }

  function Hotp(hmac: (seq<nat>, seq<nat>) -> seq<Byte>, secret: string, counter: int): (r: Result<string, Error>)
    requires TwentyBytes(hmac)
    ensures r.Ok? <==> InRange(counter)
    ensures r.Ok? ==> SixDigits(r.value)
  {
    CounterLossless(counter);
    match CounterBytes(counter)
    case Err(e) => Err(e)
    case Ok(bytes) =>
      var n := Truncate(hmac(Decode(secret), bytes));
      CodeShape(n);
      Ok(Code(n))
  }

  // A code is the truncated authentication code, under the decoded secret, of the eight bytes that hold the counter.
  lemma HotpIs(hmac: (seq<nat>, seq<nat>) -> seq<Byte>, secret: string, counter: int)
    requires TwentyBytes(hmac) && 0 <= counter < 0x1_0000_0000_0000_0000
    ensures Hotp(hmac, secret, counter).Ok?
    ensures exists message: seq<Byte> ::
      && |message| == 8 && ReadBigEndian(message) == counter
      && var mac := hmac(Decode(secret), message);
        var k, code := mac[19] % 16, Hotp(hmac, secret, counter).value;
        && |code| == 6 && AllDigits(code)
        && Number(code) == ReadBigEndian(mac[k..k + 4]) % 0x8000_0000 % 1_000_000
  {
    hide Truncate, Code, ReadBigEndian, Number, CounterBytes, Decode;
    CounterLossless(counter);
    var message := CounterBytes(counter).value;
    var mac := hmac(Decode(secret), message);
    TruncateReads(mac);
    CodeShape(Truncate(mac));
  }

  // The example of section 5.4 of RFC 4226.
  lemma RfcExample()
    ensures var mac := [0x1f, 0x86, 0x98, 0x69, 0x0e, 0x02, 0xca, 0x16, 0x61, 0x85,
                        0x50, 0xef, 0x7f, 0x19, 0xda, 0x8e, 0x94, 0x5b, 0x55, 0x5a];
      Truncate(mac) == 0x50ef_7f19 && Number(Code(Truncate(mac))) == 872_921
  {
    hide Number, Code;
    CodeShape(0x50ef_7f19);
  }

  function Generate(hmac: (seq<nat>, seq<nat>) -> seq<Byte>, secret: string, at: int): Result<string, Error>
    requires TwentyBytes(hmac)
  {
    Hotp(hmac, secret, at / STEP_MS)
  }

  function Trimmed(s: string): string {
    if s == "" then "" else Trimmed(s[..|s| - 1]) + if IsSpace(s[|s| - 1]) then "" else [s[|s| - 1]]
  }

  // The counters from low to high whose code this is.
  ghost predicate CodeBetween(hmac: (seq<nat>, seq<nat>) -> seq<Byte>, secret: string, code: string, low: int,
                              high: int)
    requires TwentyBytes(hmac)
  {
    exists counter | low <= counter <= high :: Hotp(hmac, secret, counter) == Ok(code)
  }

  // Six digits are accepted exactly when they are the code of a counter in the window; the first counter being
  // negative fails instead.
  ghost function Verdict(hmac: (seq<nat>, seq<nat>) -> seq<Byte>, secret: string, code: string, at: int, window: nat)
    : Result<bool, Error>
    requires TwentyBytes(hmac)
  {
    var counter := at / STEP_MS;
    if !SixDigits(Trimmed(code)) then Ok(false)
    else if counter < window then Err(RangeError)
    else Ok(CodeBetween(hmac, secret, Trimmed(code), counter - window, counter + window))
  }

  method VerifyTotp(hmac: (seq<nat>, seq<nat>) -> seq<Byte>, secret: string, code: string, at: int, window: nat)
    returns (r: Result<bool, Error>)
    requires TwentyBytes(hmac) && at < MAX_TIME && window < WORD
    ensures r == Verdict(hmac, secret, code, at, window)
  {
    hide Trimmed, SixDigits, Hotp;
    var trimmed := Trimmed(code);
    if !SixDigits(trimmed) {
      return Ok(false);
    }
    var counter := at / STEP_MS;
    var size: int := window;
    var offset := -size;
    while offset <= size
      invariant -size <= offset <= size + 1
      invariant offset > -size ==> counter >= size
      invariant !CodeBetween(hmac, secret, trimmed, counter - window, counter + offset - 1)
    {
      var expected := Hotp(hmac, secret, counter + offset);
      if expected.Err? {
        return Err(RangeError);
      }
      if expected.value == trimmed {
        return Ok(true);
      }
      offset := offset + 1;
    }
    r := Ok(false);
  }

  lemma {:induction false} DigitsTrimmed(s: string)
    requires AllDigits(s)
    ensures Trimmed(s) == s
  {
    hide IsSpace, Trimmed;
    if s == "" {
      TrimmedSnoc("", ' ');
    } else {
      var front, c := s[..|s| - 1], s[|s| - 1];
      DigitsTrimmed(front);
      DigitIsNoSpace(c);
      TrimmedSnoc(front, c);
      assert s == front + [c];
    }
  }

  lemma DigitIsNoSpace(c: char)
    requires '0' <= c <= '9'
    ensures !IsSpace(c)
  {
  }

  lemma TrimmedSnoc(s: string, c: char)
    ensures Trimmed(s + [c]) == Trimmed(s) + if IsSpace(c) then "" else [c]
    ensures Trimmed("") == ""
  {
    assert (s + [c])[..|s|] == s;
  }

  lemma {:induction false} TrimmedSplits(a: string, b: string)
    ensures Trimmed(a + b) == Trimmed(a) + Trimmed(b)
  {
    hide IsSpace, Trimmed;
    if b == "" {
      assert a + b == a;
      TrimmedSnoc("", ' ');
    } else {
      var front, c := b[..|b| - 1], b[|b| - 1];
      TrimmedSplits(a, front);
      TrimmedSnoc(a + front, c);
      TrimmedSnoc(front, c);
      assert a + b == a + front + [c] && b == front + [c];
    }
  }

  // Spaces anywhere in the code do not matter.
  lemma SpacesIgnored(hmac: (seq<nat>, seq<nat>) -> seq<Byte>, secret: string, a: string, c: char, b: string, at: int,
                      window: nat)
    requires TwentyBytes(hmac) && IsSpace(c)
    ensures Verdict(hmac, secret, a + [c] + b, at, window) == Verdict(hmac, secret, a + b, at, window)
  {
    hide CodeBetween, SixDigits;
    TrimmedSplits(a + [c], b);
    TrimmedSplits(a, [c]);
    TrimmedSplits(a, b);
    assert Trimmed([c]) == Trimmed("");
    assert Trimmed(a) + "" == Trimmed(a);
  }

  // With the default window a code is accepted at every later or earlier time at most one step away, from the first
  // step on; before that every six-digit code fails.
  lemma AcceptedNearby(hmac: (seq<nat>, seq<nat>) -> seq<Byte>, secret: string, t: int, now: int)
    requires TwentyBytes(hmac) && 0 <= t < MAX_TIME && 0 <= now < MAX_TIME && now - 30_000 <= t <= now + 30_000
    ensures Generate(hmac, secret, t).Ok?
    ensures Verdict(hmac, secret, Generate(hmac, secret, t).value, now, 1) ==
            if now >= 30_000 then Ok(true) else Err(RangeError)
  {
    hide Hotp, Trimmed;
    DigitsTrimmed(Generate(hmac, secret, t).value);
    assert now / STEP_MS - 1 <= t / STEP_MS <= now / STEP_MS + 1;
    assert Hotp(hmac, secret, t / STEP_MS) == Ok(Generate(hmac, secret, t).value);
  }
}
