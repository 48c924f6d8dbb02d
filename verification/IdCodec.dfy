/**
 The base32hex codec of the typed ids: lowercase and unpadded, section 7 of RFC
 4648.
 */
module IdCodec {
  import opened Domain
  import opened Names

  type Byte = x: int | 0 <= x < 256

  // ----- bit strings, most significant bit first

  type Bits = seq<bool>

  function Pow2(k: nat): nat
    ensures Pow2(k) > 0
  {
    if k == 0 then 1 else 2 * Pow2(k - 1)
  }

  /** The `k` low bits of `v`. */
  function BitsOf(v: nat, k: nat): (s: Bits)
    ensures |s| == k
  {
    if k == 0 then [] else BitsOf(v / 2, k - 1) + [v % 2 == 1]
  }

  lemma {:induction false} BitsInjective(v: nat, w: nat, k: nat)
    requires v < Pow2(k) && w < Pow2(k) && BitsOf(v, k) == BitsOf(w, k)
    ensures v == w
    decreases k
  {
    if k > 0 {
      assert BitsOf(v / 2, k - 1) == BitsOf(v, k)[..k - 1] && BitsOf(w / 2, k - 1) == BitsOf(w, k)[..k - 1];
      BitsInjective(v / 2, w / 2, k - 1);
      assert BitsOf(v, k)[k - 1] == BitsOf(w, k)[k - 1];
    }
  }

  // ----- the meaning of an encoding

  function Zeros(k: nat): Bits {
    seq(k, i => false)
  }

  function Stream(bytes: seq<Byte>): (s: Bits)
    ensures |s| == 8 * |bytes|
  {
    if bytes == [] then [] else Stream(bytes[..|bytes| - 1]) + BitsOf(bytes[|bytes| - 1], 8)
  }

  predicate AreDigits(ds: seq<nat>) {
    forall i :: 0 <= i < |ds| ==> ds[i] < 32
  }

  function DigitStream(ds: seq<nat>): (s: Bits)
    ensures |s| == 5 * |ds|
  {
    if ds == [] then [] else DigitStream(ds[..|ds| - 1]) + BitsOf(ds[|ds| - 1], 5)
  }

  /** The digits spell the bytes' bits, filled up with fewer than five zeros. */
  ghost predicate Encodes(bytes: seq<Byte>, ds: seq<nat>) {
    && AreDigits(ds)
    && 0 <= 5 * |ds| - 8 * |bytes| < 5
    && DigitStream(ds) == Stream(bytes) + Zeros(5 * |ds| - 8 * |bytes|)
  }

  /** The bytes are as many whole ones as the digits' bits hold; fewer than eight bits are left over. */
  ghost predicate Decodes(ds: seq<nat>, bytes: seq<Byte>) {
    && AreDigits(ds)
    && 0 <= 5 * |ds| - 8 * |bytes| < 8
    && Stream(bytes) == DigitStream(ds)[..8 * |bytes|]
  }

  function Leftover(ds: seq<nat>): Bits {
    var s := DigitStream(ds);
    s[8 * (|s| / 8)..]
  }

  /** Canonical: the leftover is fewer than five bits, all zero. */
  ghost predicate Canonical(ds: seq<nat>) {
    |Leftover(ds)| < 5 && Leftover(ds) == Zeros(|Leftover(ds)|)
  }

  lemma {:induction false} StreamInjective(a: seq<Byte>, b: seq<Byte>)
    requires |a| == |b| && Stream(a) == Stream(b)
    ensures a == b
    decreases |a|
  {
    if a != [] {
      var x, y := a[..|a| - 1], b[..|b| - 1];
      var v, w := a[|a| - 1], b[|b| - 1];
      SplitEqual(Stream(x), BitsOf(v, 8), Stream(y), BitsOf(w, 8));
      StreamInjective(x, y);
      Powers();
      BitsInjective(v, w, 8);
      SameSequence(a, b);
    }
  }

  lemma {:induction false} DigitStreamInjective(a: seq<nat>, b: seq<nat>)
    requires AreDigits(a) && AreDigits(b) && |a| == |b| && DigitStream(a) == DigitStream(b)
    ensures a == b
    decreases |a|
  {
    if a != [] {
      var x, y := a[..|a| - 1], b[..|b| - 1];
      var v, w := a[|a| - 1], b[|b| - 1];
      SplitEqual(DigitStream(x), BitsOf(v, 5), DigitStream(y), BitsOf(w, 5));
      DigitStreamInjective(x, y);
      Powers();
      BitsInjective(v, w, 5);
      SameSequence(a, b);
    }
  }

  lemma SameSequence<T>(a: seq<T>, b: seq<T>)
    requires |a| == |b| > 0 && a[..|a| - 1] == b[..|b| - 1] && a[|a| - 1] == b[|b| - 1]
    ensures a == b
  {
    assert a == a[..|a| - 1] + [a[|a| - 1]] && b == b[..|b| - 1] + [b[|b| - 1]];
  }

  lemma SplitEqual(a: Bits, b: Bits, c: Bits, d: Bits)
    requires a + b == c + d && |a| == |c|
    ensures a == c && b == d
  {
    assert a == (a + b)[..|a|] && c == (c + d)[..|c|];
    assert b == (a + b)[|a|..] && d == (c + d)[|c|..];
  }

  lemma Powers()
    ensures Pow2(0) == 1 && Pow2(1) == 2 && Pow2(2) == 4 && Pow2(3) == 8 && Pow2(4) == 16 && Pow2(5) == 32
    ensures Pow2(6) == 64 && Pow2(7) == 128 && Pow2(8) == 256
  {
    assert Pow2(3) == 8;
    assert Pow2(6) == 64;
  }

  /** Decoding an encoding gives the bytes back. */
  lemma RoundTrip(bytes: seq<Byte>, ds: seq<nat>, back: seq<Byte>)
    requires Encodes(bytes, ds) && Decodes(ds, back)
    ensures back == bytes
  {
    Powers();
    assert DigitStream(ds)[..8 * |bytes|] == Stream(bytes);
    StreamInjective(back, bytes);
  }

  /** Encoding a decoding gives the digits back exactly when they are canonical. */
  lemma ReencodesIffCanonical(ds: seq<nat>, bytes: seq<Byte>, again: seq<nat>)
    requires Decodes(ds, bytes) && Encodes(bytes, again)
    ensures again == ds <==> Canonical(ds)
  {
    Powers();
    var s := DigitStream(ds);
    assert |s| / 8 == |bytes|;
    assert s == Stream(bytes) + Leftover(ds);
    if again == ds {
      assert Leftover(ds) == s[8 * |bytes|..];
      assert (Stream(bytes) + Zeros(5 * |ds| - 8 * |bytes|))[8 * |bytes|..] == Zeros(5 * |ds| - 8 * |bytes|);
    }
    if Canonical(ds) {
      assert |again| == |ds|;
      DigitStreamInjective(again, ds);
    }
  }

  // ----- the 64-bit buffer, by halving

  const WORD := 0x1_0000_0000_0000_0000

  function Shl(x: nat, k: nat): nat {
    if k == 0 then x else 2 * Shl(x, k - 1)
  }

  function Shr(x: nat, k: nat): nat {
    if k == 0 then x else Shr(x / 2, k - 1)
  }

  function Low(x: nat, k: nat): nat {
    if k == 0 then 0 else 2 * Low(x / 2, k - 1) + x % 2
  }

  lemma QuotientUnique(m: nat, k: nat, r: nat)
    requires r < m
    ensures (k * m + r) / m == k && (k * m + r) % m == r
  {
    var x := k * m + r;
    var d := k - x / m;
    assert x == (x / m) * m + x % m;
    assert d * m == x % m - r by { assert d * m == k * m - (x / m) * m; }
    assert 0 < d * m + m && d * m < m;
    assert d >= 1 ==> d * m >= m;
    assert d <= -1 ==> d * m + m <= 0;
  }

  /** Halving commutes with division and remainder by a doubled number. */
  lemma Halves(x: nat, p: nat)
    requires p > 0
    ensures x / (2 * p) == (x / 2) / p && x % (2 * p) == 2 * ((x / 2) % p) + x % 2
  {
    var k, r := (x / 2) / p, (x / 2) % p;
    assert x == k * (2 * p) + (2 * r + x % 2) by { assert x / 2 == k * p + r; Doubled(k, p); }
    QuotientUnique(2 * p, k, 2 * r + x % 2);
  }

  lemma Doubled(x: nat, p: nat)
    ensures 2 * (x * p) == x * (2 * p)
  {
  }

  lemma {:induction false} HalvingIsDivision(x: nat, k: nat)
    ensures Shr(x, k) == x / Pow2(k) && Low(x, k) == x % Pow2(k)
    decreases k
  {
    if k > 0 {
      HalvingIsDivision(x / 2, k - 1);
      Halves(x, Pow2(k - 1));
    }
  }

  lemma {:induction false} LowBound(x: nat, k: nat)
    ensures Low(x, k) < Pow2(k)
    decreases k
  {
    if k > 0 { LowBound(x / 2, k - 1); }
  }

  lemma {:induction false} ShlIsProduct(x: nat, k: nat)
    ensures Shl(x, k) == x * Pow2(k)
    decreases k
  {
    if k > 0 {
      ShlIsProduct(x, k - 1);
      Doubled(x, Pow2(k - 1));
    }
  }

  lemma {:induction false} PowSum(a: nat, b: nat)
    ensures Pow2(a + b) == Pow2(a) * Pow2(b)
    decreases a
  {
    if a > 0 {
      PowSum(a - 1, b);
      Doubled(Pow2(b), Pow2(a - 1));
    }
  }

  /** The buffer's operations are the shifts and masks of 64-bit words. */
  lemma WordArithmetic(x: nat, k: nat, v: nat, w: nat)
    ensures ShiftedIn(x, v, w) == (x * Pow2(w) + v) % WORD
    ensures CutOut(x, k, w) == (x / Pow2(k)) % Pow2(w)
  {
    WordIsPower();
    ShlIsProduct(x, w);
    HalvingIsDivision(Shl(x, w) + v, 64);
    HalvingIsDivision(x, k);
    HalvingIsDivision(Shr(x, k), w);
  }

  lemma WordIsPower()
    ensures Pow2(64) == WORD
  {
    Powers();
    PowSum(8, 8);
    PowSum(16, 16);
    PowSum(32, 32);
  }

  /** Reducing to `n` bits keeps the low ones. */
  lemma {:induction false} LowKeepsBits(x: nat, n: nat, k: nat)
    requires k <= n
    ensures BitsOf(Low(x, n), k) == BitsOf(x, k)
    decreases k
  {
    if k > 0 { LowKeepsBits(x / 2, n - 1, k - 1); }
  }

  /** Shifting `w` bits in puts them behind the ones already there. */
  lemma {:induction false} ShiftIn(x: nat, v: nat, w: nat, k: nat)
    requires v < Pow2(w)
    ensures BitsOf(Shl(x, w) + v, k + w) == BitsOf(x, k) + BitsOf(v, w)
    decreases w
  {
    if w == 0 {
      assert BitsOf(x, k) + [] == BitsOf(x, k);
    } else {
      ShiftIn(x, v / 2, w - 1, k);
      assert (Shl(x, w) + v) / 2 == Shl(x, w - 1) + v / 2;
      Associate(BitsOf(x, k), BitsOf(v / 2, w - 1), [v % 2 == 1]);
    }
  }

  /** Shifting right uncovers the upper bits. */
  lemma {:induction false} ShiftOut(x: nat, j: nat, k: nat)
    ensures BitsOf(x, j + k) == BitsOf(Shr(x, k), j) + BitsOf(x, k)
    decreases k
  {
    if k == 0 {
      assert BitsOf(x, j) + [] == BitsOf(x, j);
    } else {
      ShiftOut(x / 2, j, k - 1);
    }
  }

  /** The pending bits are the lowest ones of the buffer. */
  ghost predicate Pending(buffer: nat, rest: Bits) {
    rest == BitsOf(buffer, |rest|)
  }

  /** `(buffer << w) | v` in 64 bits. */
  function ShiftedIn(buffer: nat, v: nat, w: nat): nat {
    Low(Shl(buffer, w) + v, 64)
  }

  /** `buffer >> k`, cut to `w` bits. */
  function CutOut(buffer: nat, k: nat, w: nat): nat {
    Low(Shr(buffer, k), w)
  }

  /** What a shift loses at the top of the word is none of the pending bits. */
  lemma Feed(buffer: nat, rest: Bits, v: nat, w: nat)
    requires Pending(buffer, rest) && |rest| + w <= 64 && v < Pow2(w)
    ensures Pending(ShiftedIn(buffer, v, w), rest + BitsOf(v, w))
  {
    ShiftIn(buffer, v, w, |rest|);
    LowKeepsBits(Shl(buffer, w) + v, 64, |rest| + w);
  }

  lemma Draw(buffer: nat, rest: Bits, w: nat)
    requires Pending(buffer, rest) && w <= |rest|
    ensures BitsOf(CutOut(buffer, |rest| - w, w), w) == rest[..w] && CutOut(buffer, |rest| - w, w) < Pow2(w)
    ensures Pending(buffer, rest[w..])
  {
    var k := |rest| - w;
    ShiftOut(buffer, w, k);
    LowBound(Shr(buffer, k), w);
    LowKeepsBits(Shr(buffer, k), w, w);
    assert rest[..w] == BitsOf(Shr(buffer, k), w) && rest[w..] == BitsOf(buffer, k);
  }

  // ----- text

  const ALPHABET := "0123456789abcdefghijklmnopqrstuv"

  function DigitChar(d: nat): char
    requires d < 32
  {
    ALPHABET[d]
  }

  function CharDigit(c: char): Option<nat> {
    if '0' <= c <= '9' then Some(c as int - '0' as int)
    else if 'a' <= c <= 'v' then Some(c as int - 'a' as int + 10)
    else None
  }

  function Spelled(ds: seq<nat>): string
    requires AreDigits(ds)
  {
    if ds == [] then "" else Spelled(ds[..|ds| - 1]) + [DigitChar(ds[|ds| - 1])]
  }

  /** Every character is a digit. */
  predicate IsText(text: string) {
    forall i :: 0 <= i < |text| ==> CharDigit(text[i]).Some?
  }

  function DigitsOf(text: string): (ds: seq<nat>)
    requires IsText(text)
    ensures |ds| == |text| && AreDigits(ds)
  {
    if text == "" then [] else DigitsOf(text[..|text| - 1]) + [CharDigit(text[|text| - 1]).value]
  }

  lemma CharOfDigit(d: nat)
    requires d < 32
    ensures CharDigit(DigitChar(d)) == Some(d)
  {
  }

  /** The digits are 0 to 9 and a to v, in that order and in lower case only, by their ASCII codes. */
  lemma Alphabet(c: char)
    ensures var code := c as int;
      CharDigit(c) ==
      if 48 <= code <= 57 then Some(code - 48) else if 97 <= code <= 118 then Some(code - 97 + 10) else None
    ensures CharDigit(c).Some? ==> CharDigit(c).value < 32 && DigitChar(CharDigit(c).value) == c
  {
  }

  lemma ReadOneMore(text: string, c: char)
    requires IsText(text) && CharDigit(c).Some?
    ensures IsText(text + [c]) && DigitsOf(text + [c]) == DigitsOf(text) + [CharDigit(c).value]
  {
    assert (text + [c])[..|text|] == text;
  }

  lemma {:induction false} DigitsOfSpelled(ds: seq<nat>)
    requires AreDigits(ds)
    ensures |Spelled(ds)| == |ds| && IsText(Spelled(ds)) && DigitsOf(Spelled(ds)) == ds
  {
    if ds != [] {
      var init, last := ds[..|ds| - 1], ds[|ds| - 1];
      DigitsOfSpelled(init);
      OneMoreSpelled(Spelled(init), init, last);
      assert ds == init + [last];
    }
  }

  lemma OneMoreSpelled(text: string, ds: seq<nat>, d: nat)
    requires IsText(text) && DigitsOf(text) == ds && d < 32
    ensures IsText(text + [DigitChar(d)]) && DigitsOf(text + [DigitChar(d)]) == ds + [d]
  {
    CharOfDigit(d);
    ReadOneMore(text, DigitChar(d));
  }

  // ----- encoding

  datatype Encoder = Encoder(buffer: nat, bits: nat, ds: seq<nat>)

  /** Emits digits while five bits are pending. */
  function Drain(e: Encoder): Encoder
    decreases e.bits
  {
    if e.bits < 5 then e
    else Drain(Encoder(e.buffer, e.bits - 5, e.ds + [CutOut(e.buffer, e.bits - 5, 5)]))
  }

  function FeedByte(e: Encoder, b: Byte): Encoder {
    Drain(Encoder(ShiftedIn(e.buffer, b, 8), e.bits + 8, e.ds))
  }

  function FeedBytes(src: seq<Byte>): Encoder {
    if src == [] then Encoder(0, 0, []) else FeedByte(FeedBytes(src[..|src| - 1]), src[|src| - 1])
  }

  function Flush(e: Encoder): seq<nat>
    requires e.bits <= 5
  {
    if e.bits == 0 then e.ds else e.ds + [CutOut(ShiftedIn(e.buffer, 0, 5 - e.bits), 0, 5)]
  }

  /** The digits so far and the pending bits spell the bits `s`. */
  ghost predicate Holds(e: Encoder, s: Bits) {
    AreDigits(e.ds) && DigitStream(e.ds) + BitsOf(e.buffer, e.bits) == s
  }

  lemma EmitDigit(buffer: nat, bits: nat, ds: seq<nat>)
    requires bits >= 5 && AreDigits(ds)
    ensures var d := CutOut(buffer, bits - 5, 5);
      AreDigits(ds + [d]) && DigitStream(ds + [d]) + BitsOf(buffer, bits - 5) == DigitStream(ds) + BitsOf(buffer, bits)
  {
    Powers();
    var rest := BitsOf(buffer, bits);
    Draw(buffer, rest, 5);
    var d := CutOut(buffer, bits - 5, 5);
    assert (ds + [d])[..|ds|] == ds;
    assert rest == rest[..5] + rest[5..];
  }

  lemma {:induction false} DrainHolds(e: Encoder, s: Bits)
    requires Holds(e, s)
    ensures Holds(Drain(e), s) && Drain(e).bits < 5
    decreases e.bits
  {
    if e.bits >= 5 {
      EmitDigit(e.buffer, e.bits, e.ds);
      DrainHolds(Encoder(e.buffer, e.bits - 5, e.ds + [CutOut(e.buffer, e.bits - 5, 5)]), s);
    }
  }

  lemma ShiftHolds(e: Encoder, s: Bits, b: nat, w: nat)
    requires Holds(e, s) && e.bits < 8 && w <= 8 && b < Pow2(w)
    ensures Holds(Encoder(ShiftedIn(e.buffer, b, w), e.bits + w, e.ds), s + BitsOf(b, w))
  {
    Feed(e.buffer, BitsOf(e.buffer, e.bits), b, w);
    Grown(DigitStream(e.ds), BitsOf(e.buffer, e.bits), BitsOf(b, w), s, BitsOf(ShiftedIn(e.buffer, b, w), e.bits + w));
  }

  lemma Grown(sofar: Bits, rest: Bits, more: Bits, s: Bits, now: Bits)
    requires sofar + rest == s && now == rest + more
    ensures sofar + now == s + more
  {
    Associate(sofar, rest, more);
  }

  lemma FeedHolds(e: Encoder, s: Bits, b: Byte)
    requires Holds(e, s) && e.bits < 5
    ensures Holds(FeedByte(e, b), s + BitsOf(b, 8)) && FeedByte(e, b).bits < 5
  {
    Powers();
    ShiftHolds(e, s, b, 8);
    DrainHolds(Encoder(ShiftedIn(e.buffer, b, 8), e.bits + 8, e.ds), s + BitsOf(b, 8));
  }

  lemma {:induction false} FeedBytesHolds(src: seq<Byte>)
    ensures Holds(FeedBytes(src), Stream(src)) && FeedBytes(src).bits < 5
  {
    if src != [] {
      FeedBytesHolds(src[..|src| - 1]);
      FeedHolds(FeedBytes(src[..|src| - 1]), Stream(src[..|src| - 1]), src[|src| - 1]);
    }
  }

  lemma {:induction false} ZeroBits(k: nat)
    ensures BitsOf(0, k) == Zeros(k)
  {
    if k > 0 { ZeroBits(k - 1); }
  }

  /** The last, incomplete group is filled up with zeros. */
  lemma FlushHolds(e: Encoder, s: Bits)
    requires Holds(e, s) && e.bits < 5
    ensures var ds := Flush(e); var pad := 5 * |ds| - |s|;
      AreDigits(ds) && 0 <= pad < 5 && DigitStream(ds) == s + Zeros(pad)
  {
    if e.bits == 0 {
      assert s + Zeros(0) == s && DigitStream(e.ds) + [] == DigitStream(e.ds);
    } else {
      var k, rest := 5 - e.bits, BitsOf(e.buffer, e.bits);
      Feed(e.buffer, rest, 0, k);
      ZeroBits(k);
      EmitDigit(ShiftedIn(e.buffer, 0, k), 5, e.ds);
      assert DigitStream(Flush(e)) + [] == DigitStream(Flush(e));
      assert DigitStream(e.ds) + (rest + Zeros(k)) == s + Zeros(k);
    }
  }

  function EncodedDigits(src: seq<Byte>): seq<nat> {
    FeedBytesHolds(src);
    Flush(FeedBytes(src))
  }

  /** The encoder spells the bytes' bits, five at a time, although its buffer drops bits at the top. */
  lemma EncodingMeans(src: seq<Byte>)
    ensures Encodes(src, EncodedDigits(src))
  {
    FeedBytesHolds(src);
    FlushHolds(FeedBytes(src), Stream(src));
  }

  function Encoded(src: seq<Byte>): string {
    EncodingMeans(src);
    Spelled(EncodedDigits(src))
  }

  lemma SpellMore(ds: seq<nat>, d: nat)
    requires AreDigits(ds) && d < 32
    ensures AreDigits(ds + [d]) && Spelled(ds + [d]) == Spelled(ds) + [ALPHABET[d]]
  {
    assert (ds + [d])[..|ds|] == ds;
  }

  lemma CutIsDigit(buffer: nat, k: nat)
    ensures CutOut(buffer, k, 5) < 32
  {
    Powers();
    LowBound(Shr(buffer, k), 5);
  }

  lemma FeedOneMore(src: seq<Byte>, i: nat)
    requires i < |src|
    ensures FeedBytes(src[..i + 1]) == FeedByte(FeedBytes(src[..i]), src[i])
    ensures FeedBytes(src[..i + 1]).bits < 5
  {
    assert src[..i + 1][..i] == src[..i];
    FeedBytesHolds(src[..i + 1]);
  }

  method EncodeBase32hex(src: seq<Byte>) returns (out: string)
    ensures out == Encoded(src)
  {
    out := "";
    var buffer: nat, bits: nat := 0, 0;
    ghost var ds: seq<nat> := [];
    for i := 0 to |src|
      invariant Encoder(buffer, bits, ds) == FeedBytes(src[..i]) && bits < 5
      invariant AreDigits(ds) && out == Spelled(ds)
    {
      FeedOneMore(src, i);
      buffer := ShiftedIn(buffer, src[i], 8);
      bits := bits + 8;
      while bits >= 5
        invariant Drain(Encoder(buffer, bits, ds)) == FeedBytes(src[..i + 1])
        invariant AreDigits(ds) && out == Spelled(ds)
      {
        bits := bits - 5;
        var d := CutOut(buffer, bits, 5);
        CutIsDigit(buffer, bits);
        SpellMore(ds, d);
        out, ds := out + [ALPHABET[d]], ds + [d];
      }
    }
    assert src[..|src|] == src;
    if bits > 0 {
      var d := CutOut(ShiftedIn(buffer, 0, 5 - bits), 0, 5);
      CutIsDigit(ShiftedIn(buffer, 0, 5 - bits), 0);
      SpellMore(ds, d);
      out := out + [ALPHABET[d]];
    }
  }

  // ----- decoding

  datatype IdError = WrongPrefix | TooLong | Malformed

  datatype Decoder = Decoder(buffer: nat, bits: nat, out: seq<Byte>)

  lemma CutIsByte(buffer: nat, k: nat)
    ensures CutOut(buffer, k, 8) < 256
  {
    Powers();
    LowBound(Shr(buffer, k), 8);
  }

  function FeedDigit(e: Decoder, d: nat): Decoder {
    var buffer, bits := ShiftedIn(e.buffer, d, 5), e.bits + 5;
    if bits < 8 then Decoder(buffer, bits, e.out)
    else
      CutIsByte(buffer, bits - 8);
      Decoder(buffer, bits - 8, e.out + [CutOut(buffer, bits - 8, 8)])
  }

  function FeedDigits(ds: seq<nat>): Decoder {
    if ds == [] then Decoder(0, 0, []) else FeedDigit(FeedDigits(ds[..|ds| - 1]), ds[|ds| - 1])
  }

  ghost predicate Reads(e: Decoder, s: Bits) {
    Stream(e.out) + BitsOf(e.buffer, e.bits) == s
  }

  lemma EmitByte(buffer: nat, bits: nat, bytes: seq<Byte>)
    requires bits >= 8
    ensures var b := CutOut(buffer, bits - 8, 8);
      b < 256 && Stream(bytes + [b]) + BitsOf(buffer, bits - 8) == Stream(bytes) + BitsOf(buffer, bits)
  {
    Powers();
    var rest := BitsOf(buffer, bits);
    Draw(buffer, rest, 8);
    var b := CutOut(buffer, bits - 8, 8);
    assert (bytes + [b])[..|bytes|] == bytes;
    assert rest == rest[..8] + rest[8..];
  }

  lemma FeedReads(e: Decoder, s: Bits, d: nat)
    requires Reads(e, s) && e.bits < 8 && d < 32
    ensures Reads(FeedDigit(e, d), s + BitsOf(d, 5)) && FeedDigit(e, d).bits < 8
  {
    Powers();
    var rest := BitsOf(e.buffer, e.bits);
    Feed(e.buffer, rest, d, 5);
    Associate(Stream(e.out), rest, BitsOf(d, 5));
    if e.bits + 5 >= 8 { EmitByte(ShiftedIn(e.buffer, d, 5), e.bits + 5, e.out); }
  }

  lemma {:induction false} FeedDigitsReads(ds: seq<nat>)
    requires AreDigits(ds)
    ensures Reads(FeedDigits(ds), DigitStream(ds)) && FeedDigits(ds).bits < 8
  {
    if ds != [] {
      FeedDigitsReads(ds[..|ds| - 1]);
      FeedReads(FeedDigits(ds[..|ds| - 1]), DigitStream(ds[..|ds| - 1]), ds[|ds| - 1]);
    }
  }

  /** The decoder reads the digits' bits eight at a time and leaves fewer than eight unread. */
  lemma DecodingMeans(ds: seq<nat>)
    requires AreDigits(ds)
    ensures Decodes(ds, FeedDigits(ds).out) && |FeedDigits(ds).out| == 5 * |ds| / 8
  {
    FeedDigitsReads(ds);
    var e := FeedDigits(ds);
    assert (Stream(e.out) + BitsOf(e.buffer, e.bits))[..8 * |e.out|] == Stream(e.out);
  }

  function Decoded(text: string, maxBytes: nat): Result<seq<Byte>, IdError> {
    if text == "" || !IsText(text) then Err(Malformed)
    else
      var out := FeedDigits(DigitsOf(text)).out;
      if |out| > maxBytes then Err(TooLong) else Ok(out)
  }

  lemma ReadMore(input: string, i: nat)
    requires i < |input| && IsText(input[..i]) && CharDigit(input[i]).Some?
    ensures IsText(input[..i + 1])
    ensures FeedDigits(DigitsOf(input[..i + 1])) ==
            FeedDigit(FeedDigits(DigitsOf(input[..i])), CharDigit(input[i]).value)
  {
    assert input[..i + 1][..i] == input[..i];
    assert DigitsOf(input[..i + 1])[..i] == DigitsOf(input[..i]);
  }

  /** Rejects empty text, foreign characters and payloads that are too long; leftover bits go unread. */
  method DecodeBase32hex(input: string, maxBytes: nat) returns (r: Result<seq<Byte>, IdError>)
    ensures r == Decoded(input, maxBytes)
  {
    if input == "" {
      return Err(Malformed);
    }
    var out: seq<Byte> := [];
    var buffer: nat, bits: nat := 0, 0;
    for i := 0 to |input|
      invariant IsText(input[..i])
      invariant Decoder(buffer, bits, out) == FeedDigits(DigitsOf(input[..i])) && bits < 8
    {
      var value := CharDigit(input[i]);
      if value.None? {
        return Err(Malformed);
      }
      ReadMore(input, i);
      buffer := ShiftedIn(buffer, value.value, 5);
      bits := bits + 5;
      if bits >= 8 {
        bits := bits - 8;
        CutIsByte(buffer, bits);
        out := out + [CutOut(buffer, bits, 8)];
      }
    }
    assert input[..|input|] == input;
    if |out| > maxBytes {
      return Err(TooLong);
    }
    return Ok(out);
  }

  // ----- the laws

  /** Decoding an encoding gives back every non-empty byte string within the limit. */
  lemma DecodeEncode(bytes: seq<Byte>, limit: nat)
    requires bytes != [] && |bytes| <= limit
    ensures Decoded(Encoded(bytes), limit) == Ok(bytes)
  {
    EncodeShape(bytes);
    var ds := EncodedDigits(bytes);
    EncodingMeans(bytes);
    DecodingMeans(ds);
    RoundTrip(bytes, ds, FeedDigits(ds).out);
  }

  lemma EncodeShape(bytes: seq<Byte>)
    ensures IsText(Encoded(bytes)) && DigitsOf(Encoded(bytes)) == EncodedDigits(bytes)
    ensures |Encoded(bytes)| == (8 * |bytes| + 4) / 5
  {
    EncodingMeans(bytes);
    DigitsOfSpelled(EncodedDigits(bytes));
  }

  /** Encoding a decoding gives back the text exactly when it is canonical. */
  lemma EncodeDecode(text: string, limit: nat)
    requires Decoded(text, limit).Ok?
    ensures Encoded(Decoded(text, limit).value) == text <==> Canonical(DigitsOf(text))
  {
    var ds := DigitsOf(text);
    var bytes := FeedDigits(ds).out;
    DecodingMeans(ds);
    EncodingMeans(bytes);
    EncodeShape(bytes);
    ReencodesIffCanonical(ds, bytes, EncodedDigits(bytes));
    if EncodedDigits(bytes) == ds { SpelledDigitsOf(text); }
  }

  lemma {:induction false} SpelledDigitsOf(text: string)
    requires IsText(text)
    ensures Spelled(DigitsOf(text)) == text
  {
    if text != "" {
      var init, last := text[..|text| - 1], text[|text| - 1];
      SpelledDigitsOf(init);
      SpellMore(DigitsOf(init), CharDigit(last).value);
      DigitOfChar(last);
      assert text == init + [last];
    }
  }

  lemma DigitOfChar(c: char)
    requires CharDigit(c).Some?
    ensures DigitChar(CharDigit(c).value) == c
  {
  }
}
