/** rocksdb_benchmark_tool.cc: keys made of integers, and integers read back out of keys. A byte is a
    number below 256 and a shift by eight bits a multiplication or division by 256. */
module KeyCodec {
  import opened Arithmetic

  type Byte = b: nat | b < 256

  const WORD := 0x1_0000_0000_0000_0000    // numbers of 64 bits
  const HALF_WORD := 0x8000_0000_0000_0000
  const PADDING: Byte := 48                // '0'

  /** 256 to the power of k. */
  function Power(k: nat): (p: nat)
    ensures p > 0
  {
    if k == 0 then 1 else 256 * Power(k - 1)
  }

  /** The signed number with the low 64 bits of `x`. */
  function Signed(x: int): (r: int)
    ensures -HALF_WORD <= r < HALF_WORD
  {
    if x % WORD < HALF_WORD then x % WORD else x % WORD - WORD
  }

  /** The number that the bytes spell, the first one the most significant. */
  function Value(bytes: seq<Byte>): nat {
    if bytes == [] then 0 else Value(bytes[..|bytes| - 1]) * 256 + bytes[|bytes| - 1]
  }

  function BigEndian(v: nat, k: nat): (bytes: seq<Byte>)
    ensures |bytes| == k
  {
    if k == 0 then [] else BigEndian(v / 256, k - 1) + [v % 256]
  }

  function Filled(keySize: nat): nat {
    if keySize < 8 then keySize else 8
  }

  /** The key of `v`: the low bytes of v, padded on the right. */
  function Key(v: nat, keySize: nat): seq<Byte> {
    BigEndian(v, Filled(keySize)) + seq(keySize - Filled(keySize), _ => PADDING)
  }

  /** The order of keys in the store: bytes compared from the left. */
  predicate Before(a: seq<Byte>, b: seq<Byte>)
    requires |a| == |b|
  {
    a != [] && (a[0] < b[0] || (a[0] == b[0] && Before(a[1..], b[1..])))
  }

  // ---- arithmetic ----

  lemma DivMul(v: nat, n: nat)
    requires n > 0
    ensures v / 256 / n == v / (256 * n)
    ensures (v / 256) % n * 256 + v % 256 == v % (256 * n)
  {
    var high, low := v / 256, v % 256;
    var q, r := high / n, high % n;
    assert v == q * (256 * n) + (r * 256 + low) by {
      assert high == q * n + r;
      assert q * n * 256 == q * (256 * n);
    }
    assert r * 256 + low < 256 * n by {
      assert (n - 1 - r) * 256 >= 0;
    }
    ModUnique(q, r * 256 + low, 256 * n);
  }

  lemma {:induction false} BigEndianAt(v: nat, k: nat, i: nat)
    requires i < k
    ensures BigEndian(v, k)[i] == v / Power(k - 1 - i) % 256
  {
    if i < k - 1 {
      BigEndianAt(v / 256, k - 1, i);
      DivMul(v, Power(k - 2 - i));
    }
  }

  /** k bytes keep the number modulo 256 to the power of k. */
  lemma {:induction false} ValueOfBigEndian(v: nat, k: nat)
    ensures Value(BigEndian(v, k)) == v % Power(k)
  {
    if k > 0 {
      ValueOfBigEndian(v / 256, k - 1);
      DivMul(v, Power(k - 1));
    }
  }

  lemma PowerOfWord()
    ensures Power(8) == WORD
  {
    assert Power(4) == 0x1_0000_0000;
  }

  lemma SignedStep(x: int, b: int)
    ensures Signed(Signed(x) * 256 + b) == Signed(x * 256 + b)
  {
    var q := x / WORD;
    assert x == q * WORD + x % WORD;
    var k := if x % WORD < HALF_WORD then q else q + 1;
    assert x == k * WORD + Signed(x);
    assert x * 256 + b == (k * 256) * WORD + (Signed(x) * 256 + b);
    ModShift(k * 256, Signed(x) * 256 + b, WORD);
  }

  // ---- the two directions ----

  /** GenerateKeyFromInt without prefixes, on a little-endian machine. */
  method GenerateKeyFromInt(v: nat, key: array<Byte>)
    requires v < WORD
    modifies key
    ensures key[..] == Key(v, key.Length)
  {
    var keySize := key.Length;
    var fill := if keySize < 8 then keySize else 8;
    var i := 0;
    while i < fill
      invariant 0 <= i <= fill
      invariant forall j :: 0 <= j < i ==> key[j] == BigEndian(v, fill)[j]
    {
      BigEndianAt(v, fill, i);
      key[i] := v / Power(fill - i - 1) % 256;
      i := i + 1;
    }
    while i < keySize
      invariant fill <= i <= keySize
      invariant forall j :: 0 <= j < fill ==> key[j] == BigEndian(v, fill)[j]
      invariant forall j :: fill <= j < i ==> key[j] == PADDING
    {
      key[i] := PADDING;
      i := i + 1;
    }
  }

  /** ConvertKeyToInt: the bytes' number in 64 signed bits. */
  method ConvertKeyToInt(s: seq<Byte>, keySize: nat) returns (r: int)
    requires keySize <= |s|
    ensures r == Signed(Value(s[..keySize]))
  {
    r := 0;
    for t := 0 to keySize
      invariant r == Signed(Value(s[..t]))
    {
      assert s[..t + 1][..t] == s[..t];
      SignedStep(Value(s[..t]), s[t]);
      r := Signed(r * 256 + s[t]);
    }
  }

  /** What reading the filled bytes of a key gives back, for every size of key. */
  lemma ReadBack(v: nat, keySize: nat)
    ensures Value(Key(v, keySize)[..Filled(keySize)]) == v % Power(Filled(keySize))
  {
    assert Key(v, keySize)[..Filled(keySize)] == BigEndian(v, Filled(keySize));
    ValueOfBigEndian(v, Filled(keySize));
  }

  /** Eight bytes bring every 64-bit number back: as itself below 2^63, and as the signed number with
      the same bits from there on. */
  lemma RoundTrip(v: nat, keySize: nat)
    requires v < WORD && keySize >= 8
    ensures Signed(Value(Key(v, keySize)[..8])) == if v < HALF_WORD then v else v - WORD
  {
    ReadBack(v, keySize);
    PowerOfWord();
    ModFacts(v, WORD);
  }

  /** A shorter key brings exactly the numbers back that fit its bytes. */
  lemma ShortRoundTrip(v: nat, keySize: nat)
    requires v < WORD && keySize < 8
    ensures Signed(Value(Key(v, keySize)[..keySize])) == v <==> v < Power(keySize)
  {
    ReadBack(v, keySize);
    var p := Power(keySize);
    PowerBelow(keySize);
    ModFacts(v, p);
    ModFacts(v % p, WORD);
    assert v % p < p;
  }

  lemma {:induction false} PowerBelow(k: nat)
    requires k < 8
    ensures Power(k) < HALF_WORD
    decreases 8 - k
  {
    if k < 7 {
      PowerBelow(k + 1);
    } else {
      PowerOfWord();
    }
  }

  // ---- order ----

  /** Comparing one byte more on the right. */
  lemma {:induction false} BeforeSnoc(a: seq<Byte>, b: seq<Byte>, x: Byte, y: Byte)
    requires |a| == |b|
    ensures Before(a + [x], b + [y]) <==> Before(a, b) || (a == b && x < y)
  {
    if a != [] {
      assert (a + [x])[1..] == a[1..] + [x] && (b + [y])[1..] == b[1..] + [y];
      assert a == [a[0]] + a[1..] && b == [b[0]] + b[1..];
      BeforeSnoc(a[1..], b[1..], x, y);
    }
  }

  lemma {:induction false} Irreflexive(a: seq<Byte>)
    ensures !Before(a, a)
  {
    if a != [] { Irreflexive(a[1..]); }
  }

  /** Bytes compared from the left are numbers compared. */
  lemma {:induction false} OrderOfValues(a: seq<Byte>, b: seq<Byte>)
    requires |a| == |b|
    ensures Before(a, b) <==> Value(a) < Value(b)
    ensures a == b <==> Value(a) == Value(b)
  {
    if a != [] {
      var n := |a| - 1;
      OrderOfValues(a[..n], b[..n]);
      assert a == a[..n] + [a[n]] && b == b[..n] + [b[n]];
      BeforeSnoc(a[..n], b[..n], a[n], b[n]);
    }
  }

  lemma {:induction false} SamePadding(a: seq<Byte>, b: seq<Byte>, padding: seq<Byte>)
    requires |a| == |b|
    ensures Before(a + padding, b + padding) <==> Before(a, b)
  {
    if a == [] {
      assert a + padding == padding == b + padding;
      Irreflexive(padding);
    } else {
      assert (a + padding)[1..] == a[1..] + padding && (b + padding)[1..] == b[1..] + padding;
      SamePadding(a[1..], b[1..], padding);
    }
  }

  /** Keys of any size are ordered as the numbers modulo what their bytes hold. */
  lemma OrderOfKeys(v: nat, w: nat, keySize: nat)
    ensures var p := Power(Filled(keySize));
      Before(Key(v, keySize), Key(w, keySize)) <==> v % p < w % p
  {
    var k := Filled(keySize);
    SamePadding(BigEndian(v, k), BigEndian(w, k), seq(keySize - k, _ => PADDING));
    OrderOfValues(BigEndian(v, k), BigEndian(w, k));
    ValueOfBigEndian(v, k);
    ValueOfBigEndian(w, k);
  }

  /** With eight bytes or more the order of the keys is the order of the numbers, and no two numbers share a key. */
  lemma NumericOrder(v: nat, w: nat, keySize: nat)
    requires v < WORD && w < WORD && keySize >= 8
    ensures Before(Key(v, keySize), Key(w, keySize)) <==> v < w
    ensures Key(v, keySize) == Key(w, keySize) <==> v == w
  {
    OrderOfKeys(v, w, keySize);
    OrderOfKeys(w, v, keySize);
    PowerOfWord();
    ModFacts(v, WORD);
    ModFacts(w, WORD);
    Irreflexive(Key(v, keySize));
  }
}
