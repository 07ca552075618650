/** Short bursts that run across the edge between a frame's body and its checksum. CRC-32 detects
    every burst of up to four bytes in what it covers; because the frame stores the checksum most
    significant byte first, exactly one pattern across the edge goes unnoticed. */
module Bursts {
  import opened Bundles
  import opened Crc32
  import opened Codec

  // ---- The register is linear ----

  lemma HalvesXor(x: bv32, y: bv32)
    ensures (x ^ y) >> 1 == (x >> 1) ^ (y >> 1)
    ensures (x ^ y) & 1 == 1 <==> (x & 1 == 1) != (y & 1 == 1)
  {
  }

  lemma XorRegroups(a: bv32, b: bv32, p: bv32)
    ensures (a ^ p) ^ (b ^ p) == a ^ b && (a ^ p) ^ b == (a ^ b) ^ p && a ^ (b ^ p) == (a ^ b) ^ p
    ensures a ^ 0 == a && b ^ 0 == b && (a ^ b) ^ 0 == a ^ b
  {
  }

  lemma ShiftXorRaw(x: bv32, y: bv32)
    ensures Shift(x ^ y) == Shift(x) ^ Shift(y)
  {
    HalvesXor(x, y);
    XorRegroups(x >> 1, y >> 1, 0xEDB8_8320);
  }

  lemma ShiftXor(x: bv32, y: bv32)
    ensures Shift(Xor(x, y)) == Xor(Shift(x), Shift(y))
  {
    hide Shift;
    ShiftXorRaw(x, y);
  }

  lemma {:induction false} ShiftByXor(x: bv32, y: bv32, k: nat)
    ensures ShiftBy(Xor(x, y), k) == Xor(ShiftBy(x, k), ShiftBy(y, k))
    decreases k
  {
    hide Shift, Xor;
    if k == 0 {
    } else {
      ShiftXor(x, y);
      ShiftByXor(Shift(x), Shift(y), k - 1);
    }
  }

  lemma SharedXor(r: bv32, x: bv32, y: bv32)
    ensures Xor(Xor(r, x), Xor(r, y)) == Xor(x, y) && Xor(Not(x), Not(y)) == Xor(x, y)
  {
  }

  /** How much a change in the last bytes covered changes the checksum: it depends on the changed
      bits alone. */
  lemma ChecksumDelta(pre: seq<bv8>, w: seq<bv8>, w': seq<bv8>)
    requires |w| == |w'| <= 4
    ensures Xor(Crc(0, pre + w), Crc(0, pre + w')) == ShiftBy(Xor(Pack(w), Pack(w')), 8 * |w|)
  {
    hide Shift, Xor, Not, Pack;
    var r := AbsorbAll(Not(0), pre);
    AbsorbAllSplit(Not(0), pre, w);
    AbsorbAllSplit(Not(0), pre, w');
    AbsorbPacked(r, w);
    AbsorbPacked(r, w');
    SharedXor(r, AbsorbAll(r, w), AbsorbAll(r, w'));
    ShiftByXor(Xor(r, Pack(w)), Xor(r, Pack(w')), 8 * |w|);
    SharedXor(r, Pack(w), Pack(w'));
  }

  // ---- Which changes leave the low end of the checksum alone ----

  /** One bit back through the register. */
  function Back(x: bv32): bv32 { if x >> 31 == 1 then ((x ^ 0xEDB8_8320) << 1) | 1 else x << 1 }

  function Back8(x: bv32): bv32 { Back(Back(Back(Back(Back(Back(Back(Back(x)))))))) }

  lemma BackShift(r: bv32)
    ensures Back(Shift(r)) == r
  {
  }

  lemma BackShift8(r: bv32)
    ensures Back8(Shift8(r)) == r
  {
    hide Shift, Back;
    var r1 := Shift(r);
    var r2 := Shift(r1);
    var r3 := Shift(r2);
    var r4 := Shift(r3);
    var r5 := Shift(r4);
    var r6 := Shift(r5);
    var r7 := Shift(r6);
    BackShift(r);
    BackShift(r1);
    BackShift(r2);
    BackShift(r3);
    BackShift(r4);
    BackShift(r5);
    BackShift(r6);
    BackShift(r7);
  }

  lemma OneByteShows(d: bv32)
    requires d >> 8 == 0 && Shift8(d) & 0xFF == 0
    ensures d == 0
  {
  }

  lemma TwoBytesHide(x: bv32, y: bv32)
    requires x >> 16 == 0 && y & 0xFFFF == 0 && Shift8(x) == Back8(y)
    ensures x == 0 || x == 0xD861
  {
  }

  lemma ThreeBytesShow(y: bv32)
    requires y & 0xFF_FFFF == 0 && Back8(Back8(Back8(y))) >> 24 == 0
    ensures y == 0
  {
  }

  lemma HiddenPattern()
    ensures Shift8(Shift8(0xD861)) == 0xF4EE_0000
  {
  }

  predicate HighZero(d: bv32, k: nat) { if k == 1 then d >> 8 == 0 else if k == 2 then d >> 16 == 0 else d >> 24 == 0 }

  predicate LowZero(e: bv32, k: nat) {
    if k == 1 then e & 0xFF == 0 else if k == 2 then e & 0xFFFF == 0 else e & 0xFF_FFFF == 0
  }

  lemma {:induction false} ShiftZero(k: nat)
    ensures ShiftBy(0, k) == 0
    decreases k
  {
    assert Shift(0) == 0;
    hide Shift;
    if k == 0 {
    } else {
      ShiftZero(k - 1);
    }
  }

  lemma ShiftByBytes(d: bv32)
    ensures ShiftBy(d, 8) == Shift8(d) && ShiftBy(d, 16) == Shift8(Shift8(d))
    ensures ShiftBy(d, 24) == Shift8(Shift8(Shift8(d)))
  {
    hide Shift8, Shift;
    ShiftByEight(d);
    ShiftByEight(Shift8(d));
    ShiftByEight(Shift8(Shift8(d)));
    ShiftByAdds(d, 8, 8);
    ShiftByAdds(d, 16, 8);
  }

  /** A change in the last one, two or three bytes covered leaves as many low bytes of the
      checksum alone only if it is one certain change in the last two. */
  lemma SilentChange(d: bv32, k: nat)
    requires 1 <= k <= 3 && HighZero(d, k) && LowZero(ShiftBy(d, 8 * k), k) && d != 0
    ensures k == 2 && d == 0xD861 && ShiftBy(d, 8 * k) == 0xF4EE_0000
  {
    hide Shift8, Back8, Shift;
    ShiftByBytes(d);
    if k == 1 {
      OneByteShows(d);
    } else if k == 2 {
      var y := Shift8(Shift8(d));
      BackShift8(Shift8(d));
      TwoBytesHide(d, y);
      HiddenPattern();
    } else {
      var y := Shift8(Shift8(Shift8(d)));
      BackShift8(Shift8(Shift8(d)));
      BackShift8(Shift8(d));
      BackShift8(d);
      ThreeBytesShow(y);
      ShiftZero(24);
      ShiftByInjective(d, 0, 24);
    }
  }

  // ---- The same for bytes ----

  lemma WordHigh(a: bv8, b: bv8, c: bv8, a': bv8, b': bv8, c': bv8)
    ensures Xor(Word(a, 0, 0, 0), Word(a', 0, 0, 0)) >> 8 == 0
    ensures Xor(Word(a, b, 0, 0), Word(a', b', 0, 0)) >> 16 == 0
    ensures Xor(Word(a, b, c, 0), Word(a', b', c', 0)) >> 24 == 0
  {
  }

  lemma PackHigh(w: seq<bv8>, w': seq<bv8>)
    requires 1 <= |w| == |w'| <= 3
    ensures HighZero(Xor(Pack(w), Pack(w')), |w|)
  {
    hide Xor, Word, Pack;
    PackIsWord(w);
    PackIsWord(w');
    WordHigh(ByteAt(w, 0), ByteAt(w, 1), ByteAt(w, 2), ByteAt(w', 0), ByteAt(w', 1), ByteAt(w', 2));
  }

  /** The word four bytes stand for, the first one highest. */
  function Big(a: bv8, b: bv8, c: bv8, d: bv8): bv32 {
    ((a as bv32) << 24) | ((b as bv32) << 16) | ((c as bv32) << 8) | (d as bv32)
  }

  lemma TailLowRaw(a: bv8, b: bv8, c: bv8, d: bv8, a': bv8, b': bv8, c': bv8)
    ensures Xor(Big(a, b, c, d), Big(a', b', c', d)) & 0xFF == 0
    ensures Xor(Big(a, b, c, d), Big(a', b', c, d)) & 0xFFFF == 0
    ensures Xor(Big(a, b, c, d), Big(a', b, c, d)) & 0xFF_FFFF == 0
  {
  }

  lemma TailLow(s: seq<bv8>, s': seq<bv8>, k: nat)
    requires |s| == |s'| == 4 && 1 <= k <= 3 && s[4 - k..] == s'[4 - k..]
    ensures LowZero(Xor(U32Of(s), U32Of(s')), k)
  {
    hide Xor, Big;
    forall i | 4 - k <= i < 4 ensures s[i] == s'[i] {
      assert s[i] == s[4 - k..][i - (4 - k)] && s'[i] == s'[4 - k..][i - (4 - k)];
    }
    BigIs(s);
    BigIs(s');
    TailLowRaw(s[0], s[1], s[2], s[3], s'[0], s'[1], s'[2]);
  }

  lemma BigIs(s: seq<bv8>)
    requires |s| == 4
    ensures U32Of(s) == Big(s[0], s[1], s[2], s[3])
  {
  }

  predicate PairFlipped(a: bv8, b: bv8, a': bv8, b': bv8) { a' == a ^ 0x61 && b' == b ^ 0xD8 }

  predicate SumFlipped(a: bv8, b: bv8, a': bv8, b': bv8) { a' == a ^ 0xF4 && b' == b ^ 0xEE }

  function Duo(a: bv8, b: bv8): bv32 { (a as bv32) | ((b as bv32) << 8) }

  lemma WordIsDuo(a: bv8, b: bv8)
    ensures Word(a, b, 0, 0) == Duo(a, b)
  {
    WordRaw(a, b, 0, 0);
    hide Word;
  }

  lemma HiddenDuo(a: bv8, b: bv8, a': bv8, b': bv8)
    ensures Duo(a, b) ^ Duo(a', b') == 0xD861 <==> a' == a ^ 0x61 && b' == b ^ 0xD8
  {
  }

  lemma HiddenBytes(a: bv8, b: bv8, a': bv8, b': bv8)
    ensures Xor(Word(a, b, 0, 0), Word(a', b', 0, 0)) == 0xD861 <==> PairFlipped(a, b, a', b')
  {
    hide Word, Duo;
    WordIsDuo(a, b);
    WordIsDuo(a', b');
    HiddenDuo(a, b, a', b');
  }

  lemma HiddenSum(a: bv8, b: bv8, c: bv8, d: bv8, a': bv8, b': bv8, c': bv8, d': bv8)
    ensures Xor(Big(a, b, c, d), Big(a', b', c', d')) == 0xF4EE_0000
            <==> SumFlipped(a, b, a', b') && c' == c && d' == d
    ensures Big(a, b, c, d) == Big(a', b', c', d') ==> a' == a && b' == b && c' == c && d' == d
  {
  }

  // ---- Frames ----

  /** `g` is `f` with some bytes changed, all inside a window of at most four, wherever it lies. */
  ghost predicate ShortBurst(f: seq<bv8>, g: seq<bv8>, from: nat, len: nat) {
    && |f| == |g| && f != g && len <= 4 && from + len <= |f|
    && forall i :: 0 <= i < |f| && !(from <= i < from + len) ==> f[i] == g[i]
  }

  /** The last two payload bytes and the first two checksum bytes changed in one certain way. */
  ghost predicate BlindSpot(f: seq<bv8>, g: seq<bv8>) {
    var m := |f| - CRC_LEN;
    && |f| == |g| && m >= WIRE_HEADER + 2
    && (forall i :: 0 <= i < |f| && !(m - 2 <= i < m + 2) ==> f[i] == g[i])
    && PairFlipped(f[m - 2], f[m - 1], g[m - 2], g[m - 1]) && SumFlipped(f[m], f[m + 1], g[m], g[m + 1])
  }

  /** Both frames carry their own checksum. */
  lemma EdgeChange(f: seq<bv8>, g: seq<bv8>, m: nat, k: nat)
    requires |f| == |g| == m + CRC_LEN && 1 <= k <= 3 && k <= m && f != g
    requires f[..m - k] == g[..m - k] && f[m + 4 - k..] == g[m + 4 - k..]
    requires Crc(0, f[..m]) == U32Of(f[m..]) && Crc(0, g[..m]) == U32Of(g[m..])
    ensures k == 2 && Xor(Pack(f[m - 2..m]), Pack(g[m - 2..m])) == 0xD861
    ensures Xor(U32Of(f[m..]), U32Of(g[m..])) == 0xF4EE_0000
  {
    hide Crc, Pack, Xor, U32Of, ShiftBy, HighZero, LowZero;
    var pre, w, w' := f[..m - k], f[m - k..m], g[m - k..m];
    assert f[..m] == pre + w && g[..m] == pre + w';
    ChecksumDelta(pre, w, w');
    PackHigh(w, w');
    assert f[m..][4 - k..] == f[m + 4 - k..] && g[m..][4 - k..] == g[m + 4 - k..];
    TailLow(f[m..], g[m..], k);
    var d := Xor(Pack(w), Pack(w'));
    if d == 0 {
      SameWindow(f, g, m, k);
    } else {
      SilentChange(d, k);
    }
  }

  lemma XorZeroSame(x: bv32, y: bv32)
    requires Xor(x, y) == 0
    ensures x == y
  {
  }

  lemma SameWindow(f: seq<bv8>, g: seq<bv8>, m: nat, k: nat)
    requires |f| == |g| == m + CRC_LEN && 1 <= k <= 3 && k <= m
    requires f[..m - k] == g[..m - k]
    requires Crc(0, f[..m]) == U32Of(f[m..]) && Crc(0, g[..m]) == U32Of(g[m..])
    requires Xor(Pack(f[m - k..m]), Pack(g[m - k..m])) == 0
    ensures f == g
  {
    hide Crc, Pack, Xor, U32Of, ShiftBy, AbsorbAll, U32Bytes;
    var pre, w, w' := f[..m - k], f[m - k..m], g[m - k..m];
    XorZeroSame(Pack(w), Pack(w'));
    AbsorbPacked(0, w);
    AbsorbPacked(0, w');
    WindowInjective(0, w, w');
    assert f[..m] == pre + w && g[..m] == pre + w';
    U32RoundTrip(0, f[m..]);
    U32RoundTrip(0, g[m..]);
    assert f == f[..m] + f[m..] && g == g[..m] + g[m..];
  }

  predicate Noticed(g: seq<bv8>) { Parse(g).Rejected? }

  /** A burst of up to four bytes anywhere in a valid frame goes unnoticed exactly when it is the
      one pattern across the edge. */
  lemma ShortBurstNoticed(f: seq<bv8>, b: Bundle, g: seq<bv8>, from: nat, len: nat)
    requires Parse(f) == Accepted(b) && ShortBurst(f, g, from, len)
    ensures Noticed(g) <==> !BlindSpot(f, g)
  {
    hide Parse, Crc, U32Of;
    if !Noticed(g) {
      OnlyBlindSpot(f, g, from, len);
    }
    if BlindSpot(f, g) {
      BlindSpotUnnoticed(f, g);
    }
  }

  /** Bursts of up to three bytes are always noticed. */
  lemma ThreeBytesNoticed(f: seq<bv8>, b: Bundle, g: seq<bv8>, from: nat, len: nat)
    requires Parse(f) == Accepted(b) && ShortBurst(f, g, from, len) && len <= 3
    ensures Noticed(g)
  {
    hide Noticed;
    ShortBurstNoticed(f, b, g, from, len);
    if BlindSpot(f, g) {
      BlindSpotIsWide(f, g);
    }
  }

  lemma BlindSpotIsWide(f: seq<bv8>, g: seq<bv8>)
    requires BlindSpot(f, g)
    ensures var m := |f| - CRC_LEN; f[m - 2] != g[m - 2] && f[m + 1] != g[m + 1]
  {
  }

  lemma OnlyBlindSpot(f: seq<bv8>, g: seq<bv8>, from: nat, len: nat)
    requires Parse(f).Accepted? && Parse(g).Accepted? && ShortBurst(f, g, from, len)
    ensures BlindSpot(f, g)
  {
    hide Parse, Crc, U32Of, Pack, Xor, SumFlipped;
    ParseChecks(f);
    ParseChecks(g);
    var m := |f| - CRC_LEN;
    if from + len <= m || m <= from {
      assert Burst(f, g, from, len);
      BurstRejected(f, g, from, len);
    } else {
      var k := m - from;
      EdgeChange(f, g, m, k);
      EdgeBytes(f, g, m);
      SameLengthField(f, g);
    }
  }

  /** Frames of one length carry the same payload-length bytes. */
  lemma SameLengthField(f: seq<bv8>, g: seq<bv8>)
    requires Parse(f).Accepted? && Parse(g).Accepted? && |f| == |g|
    ensures f[39] == g[39] && f[40] == g[40]
  {
    hide Crc, U32Of, U64Of;
    assert U16Of(f[39..41]) == U16Of(g[39..41]);
    U16RoundTrip(0, f[39..41]);
    U16RoundTrip(0, g[39..41]);
    assert f[39..41] == g[39..41];
    assert f[39] == f[39..41][0] && f[40] == f[39..41][1] && g[39] == g[39..41][0] && g[40] == g[39..41][1];
  }

  lemma EdgeBytes(f: seq<bv8>, g: seq<bv8>, m: nat)
    requires |f| == |g| == m + CRC_LEN && m >= 2
    ensures Xor(Pack(f[m - 2..m]), Pack(g[m - 2..m])) == 0xD861 <==> PairFlipped(f[m - 2], f[m - 1], g[m - 2], g[m - 1])
    ensures Xor(U32Of(f[m..]), U32Of(g[m..])) == 0xF4EE_0000
            <==> SumFlipped(f[m], f[m + 1], g[m], g[m + 1]) && g[m + 2] == f[m + 2] && g[m + 3] == f[m + 3]
  {
    hide Xor, Pack, U32Of, PairFlipped, SumFlipped;
    PackedPair(f[m - 2..m], g[m - 2..m]);
    SummedBytes(f[m..], g[m..]);
  }

  lemma PackedPair(w: seq<bv8>, w': seq<bv8>)
    requires |w| == |w'| == 2
    ensures Xor(Pack(w), Pack(w')) == 0xD861 <==> PairFlipped(w[0], w[1], w'[0], w'[1])
  {
    hide Xor, Word, Pack, PairFlipped;
    PackIsWord(w);
    PackIsWord(w');
    HiddenBytes(w[0], w[1], w'[0], w'[1]);
  }

  lemma SummedBytes(s: seq<bv8>, s': seq<bv8>)
    requires |s| == |s'| == 4
    ensures Xor(U32Of(s), U32Of(s')) == 0xF4EE_0000
            <==> SumFlipped(s[0], s[1], s'[0], s'[1]) && s'[2] == s[2] && s'[3] == s[3]
  {
    hide Xor, Big, SumFlipped;
    BigIs(s);
    BigIs(s');
    HiddenSum(s[0], s[1], s[2], s[3], s'[0], s'[1], s'[2], s'[3]);
  }

  lemma BlindSpotUnnoticed(f: seq<bv8>, g: seq<bv8>)
    requires Parse(f).Accepted? && BlindSpot(f, g)
    ensures Parse(g).Accepted?
  {
    hide Parse, Crc, U32Of, Pack, Xor, ShiftBy, BlindSpot;
    var m := |f| - CRC_LEN;
    ParseChecks(f);
    BlindParts(f, g, m);
    var pre, w, w' := f[..m - 2], f[m - 2..m], g[m - 2..m];
    assert f[..m] == pre + w && g[..m] == pre + w';
    ChecksumDelta(pre, w, w');
    ShiftByBytes(0xD861);
    HiddenPattern();
    SameDelta(Crc(0, f[..m]), Crc(0, g[..m]), U32Of(g[m..]), 0xF4EE_0000);
    assert g[..41] == g[..m - 2][..41] == f[..41];
    SameHeaderParses(f, g, m);
  }

  lemma SameHeaderParses(f: seq<bv8>, g: seq<bv8>, m: nat)
    requires Parse(f).Accepted? && |f| == |g| == m + CRC_LEN && m >= 41 && f[..41] == g[..41]
    requires Crc(0, g[..m]) == U32Of(g[m..])
    ensures Parse(g).Accepted?
  {
    hide Crc, U16Of, U32Of, U64Of;
    assert g[0..2] == g[..41][0..2] == f[0..2];
    assert g[27..29] == g[..41][27..29] == f[27..29];
    assert g[39..41] == g[..41][39..41] == f[39..41];
    assert g[2] == g[..41][2] == f[2];
  }

  lemma SameDelta(x: bv32, y: bv32, z: bv32, d: bv32)
    requires Xor(x, y) == d && Xor(x, z) == d
    ensures y == z
  {
  }

  lemma BlindParts(f: seq<bv8>, g: seq<bv8>, m: nat)
    requires |f| == m + CRC_LEN && BlindSpot(f, g)
    ensures |g| == |f| && m >= 43 && g[..m - 2] == f[..m - 2]
    ensures Xor(Pack(f[m - 2..m]), Pack(g[m - 2..m])) == 0xD861 && Xor(U32Of(f[m..]), U32Of(g[m..])) == 0xF4EE_0000
  {
    hide Xor, Pack, U32Of, PairFlipped, SumFlipped;
    EdgeBytes(f, g, m);
  }
}
