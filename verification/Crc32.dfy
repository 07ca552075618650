/** The frame checksum: CRC-32 with the IEEE 802.3 polynomial (section 3.2.9 of IEEE Std 802.3),
    bit-reflected, computed without a table. */
module Crc32 {

  function Wide(b: bv8): bv32 { b as bv32 }

  function Xor(x: bv32, y: bv32): bv32 { x ^ y }

  /** One bit through the shift register; 0xEDB8_8320 is the reflected polynomial. */
  function Shift(r: bv32): bv32 { (r >> 1) ^ (if r & 1 == 1 then 0xEDB8_8320 else 0) }

  function ShiftBy(r: bv32, k: nat): bv32
    decreases k
  {
    if k == 0 then r else ShiftBy(Shift(r), k - 1)
  }

  /** One message byte into the register. */
  function Absorb(r: bv32, b: bv8): bv32 { ShiftBy(Xor(r, Wide(b)), 8) }

  function AbsorbAll(r: bv32, s: seq<bv8>): bv32 {
    if s == [] then r else Absorb(AbsorbAll(r, s[..|s| - 1]), s[|s| - 1])
  }

  function Not(x: bv32): bv32 { !x }

  /** The checksum of `s`, continuing from `crc`. */
  function Crc(crc: bv32, s: seq<bv8>): bv32 { Not(AbsorbAll(Not(crc), s)) }

  lemma ShiftIsMasked(r: bv32)
    ensures (r >> 1) ^ (0xEDB8_8320 & (if r & 1 == 1 then 0xFFFF_FFFF else 0)) == Shift(r)
  {
    assert 0xEDB8_8320 & 0xFFFF_FFFF == 0xEDB8_8320 as bv32 && 0xEDB8_8320 & 0 == 0 as bv32;
    if r & 1 == 1 {
    } else {
    }
  }

  /** The code's two nested loops over bytes and bits. */
  method Update(crc: bv32, buf: seq<bv8>) returns (out: bv32)
    ensures out == Crc(crc, buf)
  {
    hide Shift, Wide;
    out := !crc;
    for i := 0 to |buf|
      invariant out == AbsorbAll(Not(crc), buf[..i])
    {
      assert buf[..i + 1][..i] == buf[..i];
      out := AbsorbByte(out, buf[i]);
    }
    assert buf[..|buf|] == buf;
    out := !out;
  }

  method AbsorbByte(crc: bv32, b: bv8) returns (out: bv32)
    ensures out == Absorb(crc, b)
  {
    hide Shift;
    out := crc ^ (b as bv32);
    for k := 0 to 8
      invariant ShiftBy(out, 8 - k) == Absorb(crc, b)
    {
      ShiftIsMasked(out);
      out := (out >> 1) ^ (0xEDB8_8320 & (if out & 1 == 1 then 0xFFFF_FFFF else 0));
    }
  }

  function Shift8(r: bv32): bv32 { Shift(Shift(Shift(Shift(Shift(Shift(Shift(Shift(r)))))))) }

  lemma ShiftByEight(r: bv32)
    ensures ShiftBy(r, 8) == Shift8(r)
  {
    hide Shift;
    assert ShiftBy(r, 8) == ShiftBy(Shift(Shift(r)), 6);
    assert ShiftBy(r, 8) == ShiftBy(Shift(Shift(Shift(Shift(r)))), 4);
    assert ShiftBy(r, 8) == ShiftBy(Shift(Shift(Shift(Shift(Shift(Shift(r)))))), 2);
  }

  lemma ByteIn(r: bv32, b: bv8)
    ensures Absorb(r, b) == Shift8(r ^ (b as bv32))
  {
    ShiftByEight(Xor(r, Wide(b)));
  }

  lemma CheckSteps()
    ensures Absorb(0xFFFF_FFFF, 0x31) == 0x7C23_1048
    ensures Absorb(0x7C23_1048, 0x32) == 0xB0AC_BB32
    ensures Absorb(0xB0AC_BB32, 0x33) == 0x77B7_9C2D
    ensures Absorb(0x77B7_9C2D, 0x34) == 0x641C_1F5C
    ensures Absorb(0x641C_1F5C, 0x35) == 0x340A_C5E3
    ensures Absorb(0x340A_C5E3, 0x36) == 0xF68D_2C9E
    ensures Absorb(0xF68D_2C9E, 0x37) == 0xAFFC_9660
    ensures Absorb(0xAFFC_9660, 0x38) == 0x651F_2550
    ensures Absorb(0x651F_2550, 0x39) == 0x340B_C6D9
  {
    hide Absorb;
    ByteIn(0xFFFF_FFFF, 0x31);
    ByteIn(0x7C23_1048, 0x32);
    ByteIn(0xB0AC_BB32, 0x33);
    ByteIn(0x77B7_9C2D, 0x34);
    ByteIn(0x641C_1F5C, 0x35);
    ByteIn(0x340A_C5E3, 0x36);
    ByteIn(0xF68D_2C9E, 0x37);
    ByteIn(0xAFFC_9660, 0x38);
    ByteIn(0x651F_2550, 0x39);
  }

  const CHECK_STRING: seq<bv8> := [0x31, 0x32, 0x33, 0x34, 0x35, 0x36, 0x37, 0x38, 0x39]

  lemma Snoc(k: nat)
    requires k < 9
    ensures AbsorbAll(0xFFFF_FFFF, CHECK_STRING[..k + 1])
            == Absorb(AbsorbAll(0xFFFF_FFFF, CHECK_STRING[..k]), CHECK_STRING[k])
  {
    hide Absorb;
    assert CHECK_STRING[..k + 1][..k] == CHECK_STRING[..k];
  }

  /** The published check value of the IEEE 802.3 checksum: that of the digits 1 to 9. */
  lemma CheckValue()
    ensures Crc(0, CHECK_STRING) == 0xCBF4_3926
  {
    hide Absorb;
    CheckSteps();
    assert CHECK_STRING[..0] == [] && CHECK_STRING[..9] == CHECK_STRING;
    Snoc(0);
    Snoc(1);
    Snoc(2);
    Snoc(3);
    Snoc(4);
    Snoc(5);
    Snoc(6);
    Snoc(7);
    Snoc(8);
  }

  // ---- The register is invertible ----

  lemma ShiftInjective(x: bv32, y: bv32)
    requires Shift(x) == Shift(y)
    ensures x == y
  {
  }

  lemma {:induction false} ShiftByInjective(x: bv32, y: bv32, k: nat)
    requires ShiftBy(x, k) == ShiftBy(y, k)
    ensures x == y
    decreases k
  {
    hide Shift;
    if k == 0 {
    } else {
      ShiftByInjective(Shift(x), Shift(y), k - 1);
      ShiftInjective(x, y);
    }
  }

  lemma {:induction false} ShiftByAdds(x: bv32, j: nat, k: nat)
    ensures ShiftBy(ShiftBy(x, j), k) == ShiftBy(x, j + k)
    decreases j
  {
    hide Shift;
    if j == 0 {
    } else {
      ShiftByAdds(Shift(x), j - 1, k);
    }
  }

  lemma XorCancels(x: bv32, y: bv32, b: bv32)
    ensures Xor(x, b) == Xor(y, b) ==> x == y
    ensures Xor(b, x) == Xor(b, y) ==> x == y
  {
  }

  lemma XorAssociates(x: bv32, y: bv32, z: bv32)
    ensures Xor(Xor(x, y), z) == Xor(x, Xor(y, z))
  {
  }

  lemma NotCancels(x: bv32, y: bv32)
    requires Not(x) == Not(y)
    ensures x == y
  {
  }

  /** Different registers stay different whatever common bytes follow. */
  lemma {:induction false} AbsorbAllInjective(x: bv32, y: bv32, s: seq<bv8>)
    requires AbsorbAll(x, s) == AbsorbAll(y, s)
    ensures x == y
  {
    hide Shift, Xor, Wide;
    if s == [] {
    } else {
      var pre, b := s[..|s| - 1], Wide(s[|s| - 1]);
      ShiftByInjective(Xor(AbsorbAll(x, pre), b), Xor(AbsorbAll(y, pre), b), 8);
      XorCancels(AbsorbAll(x, pre), AbsorbAll(y, pre), b);
      AbsorbAllInjective(x, y, pre);
    }
  }

  lemma {:induction false} AbsorbAllSplit(r: bv32, s: seq<bv8>, u: seq<bv8>)
    ensures AbsorbAll(r, s + u) == AbsorbAll(AbsorbAll(r, s), u)
  {
    hide Absorb;
    if u == [] {
      assert s + u == s;
    } else {
      assert (s + u)[..|s + u| - 1] == s + u[..|u| - 1];
      AbsorbAllSplit(r, s, u[..|u| - 1]);
    }
  }

  // ---- A burst of up to four bytes ----

  function Dbl(y: bv32): bv32 { y << 1 }

  function By8(y: bv32): bv32 { y << 8 }

  lemma ShiftPastZeroRaw(x: bv32, y: bv32)
    requires y <= 0x7FFF_FFFF
    ensures Shift(x ^ (y << 1)) == Shift(x) ^ y
  {
  }

  lemma ShiftPastZero(x: bv32, y: bv32)
    requires y <= 0x7FFF_FFFF
    ensures Shift(Xor(x, Dbl(y))) == Xor(Shift(x), y)
  {
    hide Shift;
    ShiftPastZeroRaw(x, y);
  }

  /** `y` moved up `k` bits. */
  function Up(y: bv32, k: nat): bv32 { if k == 0 then y else Dbl(Up(y, k - 1)) }

  /** Bits that have not reached the low end yet pass through shifts unchanged. */
  lemma {:induction false} ShiftPastBits(x: bv32, y: bv32, k: nat)
    requires forall i :: 0 <= i < k ==> Up(y, i) <= 0x7FFF_FFFF
    ensures ShiftBy(Xor(x, Up(y, k)), k) == Xor(ShiftBy(x, k), y)
    decreases k
  {
    hide Shift, Xor, Dbl;
    if k == 0 {
    } else {
      assert Up(y, k - 1) <= 0x7FFF_FFFF;
      ShiftPastZero(x, Up(y, k - 1));
      ShiftPastBits(Shift(x), y, k - 1);
    }
  }

  lemma DoublingBound(y: bv32, m: bv32)
    requires y <= m <= 0x7FFF_FFFF
    ensures Dbl(y) <= m + m
  {
  }

  lemma EightDoublingsRaw(y: bv32)
    ensures ((((((((y << 1) << 1) << 1) << 1) << 1) << 1) << 1) << 1) == y << 8
  {
  }

  lemma EightDoublings(y: bv32)
    ensures Dbl(Dbl(Dbl(Dbl(Dbl(Dbl(Dbl(Dbl(y)))))))) == By8(y)
  {
    EightDoublingsRaw(y);
  }

  /** Bits above the low byte pass through eight shifts unchanged. */
  lemma ShiftPastByte(x: bv32, y: bv32)
    requires y <= 0x00FF_FFFF
    ensures ShiftBy(Xor(x, By8(y)), 8) == Xor(ShiftBy(x, 8), y)
  {
    hide Shift, Xor, Dbl, By8;
    EightDoublings(y);
    assert Up(y, 0) == y && Up(y, 1) == Dbl(y) && Up(y, 2) == Dbl(Up(y, 1)) && Up(y, 3) == Dbl(Up(y, 2));
    assert Up(y, 4) == Dbl(Up(y, 3)) && Up(y, 5) == Dbl(Up(y, 4)) && Up(y, 6) == Dbl(Up(y, 5));
    assert Up(y, 7) == Dbl(Up(y, 6)) && Up(y, 8) == Dbl(Up(y, 7));
    DoublingBound(y, 0x00FF_FFFF);
    DoublingBound(Up(y, 1), 0x01FF_FFFE);
    DoublingBound(Up(y, 2), 0x03FF_FFFC);
    DoublingBound(Up(y, 3), 0x07FF_FFF8);
    DoublingBound(Up(y, 4), 0x0FFF_FFF0);
    DoublingBound(Up(y, 5), 0x1FFF_FFE0);
    DoublingBound(Up(y, 6), 0x3FFF_FFC0);
    forall i | 0 <= i < 8 ensures Up(y, i) <= 0x7FFF_FFFF {
      assert i == 0 || i == 1 || i == 2 || i == 3 || i == 4 || i == 5 || i == 6 || i == 7;
    }
    ShiftPastBits(x, y, 8);
  }

  /** `y` moved up `n` bytes. */
  function Lift(y: bv32, n: nat): bv32 { if n == 0 then y else By8(Lift(y, n - 1)) }

  lemma ByteLifts(b: bv8)
    ensures Wide(b) <= 0x00FF_FFFF && By8(Wide(b)) <= 0x00FF_FFFF && By8(By8(Wide(b))) <= 0x00FF_FFFF
  {
  }

  lemma {:induction false} ShiftPastBytes(x: bv32, b: bv8, n: nat)
    requires n <= 3
    ensures ShiftBy(Xor(x, Lift(Wide(b), n)), 8 * n) == Xor(ShiftBy(x, 8 * n), Wide(b))
  {
    PastBytes(x, Wide(b), n) by {
      hide Wide, By8;
      ByteLifts(b);
      assert Lift(Wide(b), 1) == By8(Wide(b)) && Lift(Wide(b), 2) == By8(Lift(Wide(b), 1));
    }
  }

  lemma {:induction false} PastBytes(x: bv32, y: bv32, n: nat)
    requires forall i :: 0 <= i < n ==> Lift(y, i) <= 0x00FF_FFFF
    ensures ShiftBy(Xor(x, Lift(y, n)), 8 * n) == Xor(ShiftBy(x, 8 * n), y)
    decreases n
  {
    hide Shift, Xor, By8;
    if n == 0 {
    } else {
      var z, m := Lift(y, n - 1), 8 * (n - 1);
      assert z <= 0x00FF_FFFF;
      ShiftPastByte(x, z);
      PastBytes(ShiftBy(x, 8), y, n - 1);
      ShiftByAdds(Xor(x, By8(z)), 8, m);
      ShiftByAdds(x, 8, m);
    }
  }

  /** The bytes as the register sees them, the first one lowest. */
  function Pack(w: seq<bv8>): bv32 {
    if w == [] then 0 else Xor(Pack(w[..|w| - 1]), Lift(Wide(w[|w| - 1]), |w| - 1))
  }

  /** Absorbing up to four bytes is shifting their packed word through at once. */
  lemma {:induction false} AbsorbPacked(r: bv32, w: seq<bv8>)
    requires |w| <= 4
    ensures AbsorbAll(r, w) == ShiftBy(Xor(r, Pack(w)), 8 * |w|)
  {
    hide Shift, Wide, Xor, Lift;
    if w == [] {
      XorZero(r);
    } else {
      var n, b := |w| - 1, w[|w| - 1];
      var x := Xor(r, Pack(w[..n]));
      AbsorbPacked(r, w[..n]);
      ShiftPastBytes(x, b, n);
      ShiftByAdds(Xor(x, Lift(Wide(b), n)), 8 * n, 8);
      XorAssociates(r, Pack(w[..n]), Lift(Wide(b), n));
    }
  }

  lemma XorZero(r: bv32)
    ensures Xor(r, 0) == r
  {
  }

  function Word(a: bv8, b: bv8, c: bv8, d: bv8): bv32 {
    Xor(Xor(Xor(Xor(0, Wide(a)), By8(Wide(b))), By8(By8(Wide(c)))), By8(By8(By8(Wide(d)))))
  }

  lemma WordInjectiveRaw(a: bv8, b: bv8, c: bv8, d: bv8, a': bv8, b': bv8, c': bv8, d': bv8)
    requires 0 ^ (a as bv32) ^ ((b as bv32) << 8) ^ (((c as bv32) << 8) << 8) ^ ((((d as bv32) << 8) << 8) << 8)
          == 0 ^ (a' as bv32) ^ ((b' as bv32) << 8) ^ (((c' as bv32) << 8) << 8) ^ ((((d' as bv32) << 8) << 8) << 8)
    ensures a == a' && b == b' && c == c' && d == d'
  {
  }

  lemma WordInjective(a: bv8, b: bv8, c: bv8, d: bv8, a': bv8, b': bv8, c': bv8, d': bv8)
    requires Word(a, b, c, d) == Word(a', b', c', d')
    ensures a == a' && b == b' && c == c' && d == d'
  {
    hide Word;
    WordRaw(a, b, c, d);
    WordRaw(a', b', c', d');
    WordInjectiveRaw(a, b, c, d, a', b', c', d');
  }

  lemma WordRaw(a: bv8, b: bv8, c: bv8, d: bv8)
    ensures Word(a, b, c, d)
            == 0 ^ (a as bv32) ^ ((b as bv32) << 8) ^ (((c as bv32) << 8) << 8) ^ ((((d as bv32) << 8) << 8) << 8)
  {
  }

  lemma NoByte()
    ensures Wide(0) == 0 && By8(0) == 0
  {
  }

  lemma SmallLifts(y: bv32)
    ensures Lift(y, 0) == y && Lift(y, 1) == By8(y) && Lift(y, 2) == By8(By8(y)) && Lift(y, 3) == By8(By8(By8(y)))
  {
    hide By8;
  }

  function ByteAt(w: seq<bv8>, i: nat): bv8 { if i < |w| then w[i] else 0 }

  lemma {:induction false} PackIsWord(w: seq<bv8>)
    requires |w| <= 4
    ensures Pack(w) == Word(ByteAt(w, 0), ByteAt(w, 1), ByteAt(w, 2), ByteAt(w, 3))
  {
    hide Xor, Wide, By8, Lift;
    NoByte();
    var a, b, c := Wide(ByteAt(w, 0)), By8(Wide(ByteAt(w, 1))), By8(By8(Wide(ByteAt(w, 2))));
    XorZero(0);
    XorZero(Xor(0, a));
    XorZero(Xor(Xor(0, a), b));
    XorZero(Xor(Xor(Xor(0, a), b), c));
    if w == [] {
    } else {
      var pre, last := w[..|w| - 1], Wide(w[|w| - 1]);
      PackIsWord(pre);
      SmallLifts(last);
    }
  }

  lemma WindowInjective(r: bv32, w: seq<bv8>, w': seq<bv8>)
    requires |w| == |w'| <= 4 && AbsorbAll(r, w) == AbsorbAll(r, w')
    ensures w == w'
  {
    hide Shift, Wide, Xor, Lift, Word;
    AbsorbPacked(r, w);
    AbsorbPacked(r, w');
    ShiftByInjective(Xor(r, Pack(w)), Xor(r, Pack(w')), 8 * |w|);
    XorCancels(Pack(w), Pack(w'), r);
    PackIsWord(w);
    PackIsWord(w');
    WordInjective(ByteAt(w, 0), ByteAt(w, 1), ByteAt(w, 2), ByteAt(w, 3),
                  ByteAt(w', 0), ByteAt(w', 1), ByteAt(w', 2), ByteAt(w', 3));
    forall i | 0 <= i < |w| ensures w[i] == w'[i] {
      assert ByteAt(w, i) == w[i] && ByteAt(w', i) == w'[i];
    }
  }

  /** Two messages that differ only inside a window of at most four consecutive bytes have
      different checksums. */
  lemma BurstChangesCrc(crc: bv32, pre: seq<bv8>, w: seq<bv8>, w': seq<bv8>, post: seq<bv8>)
    requires |w| == |w'| <= 4 && w != w'
    ensures Crc(crc, pre + w + post) != Crc(crc, pre + w' + post)
  {
    hide Not, Absorb;
    if Crc(crc, pre + w + post) == Crc(crc, pre + w' + post) {
      var r := Not(crc);
      NotCancels(AbsorbAll(r, pre + w + post), AbsorbAll(r, pre + w' + post));
      AbsorbAllSplit(r, pre + w, post);
      AbsorbAllSplit(r, pre + w', post);
      AbsorbAllInjective(AbsorbAll(r, pre + w), AbsorbAll(r, pre + w'), post);
      AbsorbAllSplit(r, pre, w);
      AbsorbAllSplit(r, pre, w');
      WindowInjective(AbsorbAll(r, pre), w, w');
    }
  }
}
