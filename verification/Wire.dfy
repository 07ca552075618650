/** What the bytes of a frame say, for a peer that knows only the layout: the order of the fields,
    most significant byte first, and the reading of the two float fields. */
module Wire {
  import opened Bundles
  import opened Crc32
  import opened Codec

  // ---- Byte order ----

  /** `s` comes before `t` byte by byte, the first difference deciding. */
  predicate Before(s: seq<bv8>, t: seq<bv8>)
    requires |s| == |t|
  {
    s != [] && (s[0] < t[0] || (s[0] == t[0] && Before(s[1..], t[1..])))
  }

  lemma BeforeStep(a: bv8, s: seq<bv8>, b: bv8, t: seq<bv8>)
    requires |s| == |t|
    ensures Before([a] + s, [b] + t) <==> a < b || (a == b && Before(s, t))
  {
    assert ([a] + s)[1..] == s && ([b] + t)[1..] == t;
  }

  lemma ByteOrder(m: U8, n: U8)
    ensures NatByte(m) < NatByte(n) <==> m < n
    ensures NatByte(m) == NatByte(n) <==> m == n
  {
    hide NatByte;
    ByteValues(NatByte(m), NatByte(n));
  }

  lemma ByteValues(a: bv8, b: bv8)
    ensures a < b <==> a as int < b as int
    ensures a == b <==> a as int == b as int
  {
  }

  lemma Two(a: bv8, b: bv8, c: bv8, d: bv8)
    ensures Before([a, b], [c, d]) <==> a < c || (a == c && b < d)
  {
    assert [a, b] == [a] + [b] && [c, d] == [c] + [d];
    BeforeStep(a, [b], c, [d]);
    BeforeStep(b, [], d, []);
    assert [b] + [] == [b] && [d] + [] == [d];
  }

  /** The smaller number is the earlier byte string: the most significant byte comes first. */
  lemma U16BigEndian(m: U16, n: U16)
    ensures Before(U16Bytes(m), U16Bytes(n)) <==> m < n
  {
    ByteOrder(m / 256, n / 256);
    ByteOrder(m % 256, n % 256);
    Two(NatByte(m / 256), NatByte(m % 256), NatByte(n / 256), NatByte(n % 256));
  }

  /** A long goes out as its upper word and then its lower word. */
  lemma U64IsTwoWords(v: bv64)
    ensures U64Bytes(v) == U32Bytes((v >> 32) as bv32) + U32Bytes((v & 0xFFFF_FFFF) as bv32)
  {
    HighBytes(v);
    LowBytes(v);
    var h, l := (v >> 32) as bv32, (v & 0xFFFF_FFFF) as bv32;
    assert U32Bytes(h) == U64Bytes(v)[..4] && U32Bytes(l) == U64Bytes(v)[4..];
  }

  lemma HighBytes(v: bv64)
    ensures var h := (v >> 32) as bv32;
      && (v >> 56) as bv8 == (h >> 24) as bv8 && ((v >> 48) & 0xFF) as bv8 == ((h >> 16) & 0xFF) as bv8
      && ((v >> 40) & 0xFF) as bv8 == ((h >> 8) & 0xFF) as bv8 && ((v >> 32) & 0xFF) as bv8 == (h & 0xFF) as bv8
  {
  }

  lemma LowBytes(v: bv64)
    ensures var l := (v & 0xFFFF_FFFF) as bv32;
      && ((v >> 24) & 0xFF) as bv8 == (l >> 24) as bv8 && ((v >> 16) & 0xFF) as bv8 == ((l >> 16) & 0xFF) as bv8
      && ((v >> 8) & 0xFF) as bv8 == ((l >> 8) & 0xFF) as bv8 && (v & 0xFF) as bv8 == (l & 0xFF) as bv8
  {
  }

  /** A word goes out with its most significant byte first. */
  lemma WordSample()
    ensures U32Bytes(0x0102_0304) == [1, 2, 3, 4]
  {
  }

  // ---- Layout ----

  /** Where everything lies in a frame: "DT", version 1, then the fields, the payload and the
      checksum of all before it. */
  lemma FrameLayout(b: Bundle)
    requires |b.payload| <= 160
    ensures var f, n := Frame(b), |b.payload|;
      && |f| == 45 + n && f[0] == 0x44 && f[1] == 0x54 && f[2] == 1
      && f[3..11] == U64Bytes(b.id) && f[11..15] == U32Bytes(b.src) && f[15..19] == U32Bytes(b.dst)
      && f[19..23] == U32Bytes(b.curr) && f[23..27] == U32Bytes(b.cust) && f[27..29] == U16Bytes(45 + n)
      && f[29] == NatByte(b.prio) && f[30] == NatByte(b.cls)
      && f[31..35] == U32Bytes(b.tGen) && f[35..39] == U32Bytes(b.ttl) && f[39..41] == U16Bytes(n)
      && f[41..41 + n] == b.payload && f[41 + n..] == U32Bytes(Crc(0, f[..41 + n]))
  {
    hide U32Bytes, U64Bytes, Crc, NatByte, Header;
    HeaderFields(b);
    MagicBytes();
    var f, h, n := Frame(b), Header(b), |b.payload|;
    assert forall i, j :: 0 <= i <= j <= 41 ==> f[i..j] == h[i..j];
    assert f[..41 + n] == h + b.payload;
    assert f[0..2][0] == f[0] && f[0..2][1] == f[1];
    hide U16Bytes;
  }

  lemma MagicBytes()
    ensures U16Bytes(MAGIC) == [0x44, 0x54]
  {
    SampleBytes();
    hide NatByte;
    SameByte(NatByte(68), 0x44);
    SameByte(NatByte(84), 0x54);
  }

  lemma SampleBytes()
    ensures 0x44 as bv8 as int == 68 && 0x54 as bv8 as int == 84
  {
  }

  // ---- Floats ----

  function Exponent(v: bv32): int { ((v >> 23) & 0xFF) as int }

  function Fraction(v: bv32): int { (v & 0x7F_FFFF) as int }

  function TwoTo(n: nat): nat { if n == 0 then 1 else 2 * TwoTo(n - 1) }

  lemma {:induction false} TwoToPositive(n: nat)
    ensures TwoTo(n) > 0
  {
    if n == 0 {
    } else {
      TwoToPositive(n - 1);
    }
  }

  function Scaled(m: int, e: int): real {
    if e >= 0 then m as real * TwoTo(e) as real
    else
      TwoToPositive(-e);
      m as real / TwoTo(-e) as real
  }

  predicate Finite(v: bv32) { Exponent(v) != 255 }

  /** The value of a finite pattern in the binary32 format of IEEE Std 754. */
  function Binary32(v: bv32): real
    requires Finite(v)
  {
    var magnitude := if Exponent(v) == 0 then Scaled(Fraction(v), -149)
                     else Scaled(Fraction(v) + 0x80_0000, Exponent(v) - 150);
    if v & 0x8000_0000 == 0 then magnitude else -magnitude
  }

  ghost predicate ReadsFloats(val: FloatReading) { forall v :: Finite(v) ==> val(v) == Binary32(v) }

  /** The lifetime every generated bundle gets reads as 3600 seconds. */
  lemma OneHour(val: FloatReading)
    requires ReadsFloats(val)
    ensures val(TTL_ONE_HOUR) == 3600.0 && val(0) == 0.0
  {
    OneHourBits();
    assert Binary32(TTL_ONE_HOUR) == 3600.0 by {
      TwelveTwos();
      assert Scaled(14745600, -12) == 3600.0;
    }
    assert Binary32(0) == 0.0 by {
      TwoToPositive(149);
    }
  }

  lemma OneHourBits()
    ensures Exponent(TTL_ONE_HOUR) == 138 && Fraction(TTL_ONE_HOUR) == 6356992 && TTL_ONE_HOUR & 0x8000_0000 == 0
    ensures Exponent(0) == 0 && Fraction(0) == 0 && 0 as bv32 & 0x8000_0000 == 0
  {
  }

  lemma TwelveTwos()
    ensures TwoTo(12) == 4096
  {
    assert TwoTo(4) == 16 && TwoTo(8) == 256;
  }
}
