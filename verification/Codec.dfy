/** The wire format of a bundle: one frame, every field big-endian, closed by a checksum. */
module Codec {
  import opened Bundles
  import opened Crc32

  const MAGIC: U16 := 0x4454
  const VERSION: bv8 := 1

  datatype Decoded = Rejected | Accepted(bundle: Bundle)

  // ---- Byte fields ----

  lemma NextByte(b: bv8)
    requires b != 0xFF
    ensures (b + 1) as int == b as int + 1
  {
  }

  lemma SameByte(b: bv8, c: bv8)
    requires b as int == c as int
    ensures b == c
  {
  }

  /** The byte whose value is `n`. */
  function NatByte(n: U8): (b: bv8)
    ensures b as int == n
  {
    if n == 0 then 0
    else
      var b := NatByte(n - 1);
      assert b != 0xFF;
      NextByte(b);
      b + 1
  }

  lemma NatByteOf(b: bv8)
    ensures NatByte(b as int) == b
  {
    SameByte(NatByte(b as int), b);
  }

  function U16Bytes(n: U16): (s: seq<bv8>)
    ensures |s| == 2
  {
    [NatByte(n / 256), NatByte(n % 256)]
  }

  function U16Of(s: seq<bv8>): (n: U16)
    requires |s| == 2
  {
    (s[0] as int) * 256 + (s[1] as int)
  }

  function U32Bytes(v: bv32): (s: seq<bv8>)
    ensures |s| == 4
  {
    [(v >> 24) as bv8, ((v >> 16) & 0xFF) as bv8, ((v >> 8) & 0xFF) as bv8, (v & 0xFF) as bv8]
  }

  function U32Of(s: seq<bv8>): bv32
    requires |s| == 4
  {
    ((s[0] as bv32) << 24) | ((s[1] as bv32) << 16) | ((s[2] as bv32) << 8) | (s[3] as bv32)
  }

  function U64Bytes(v: bv64): (s: seq<bv8>)
    ensures |s| == 8
  {
    [(v >> 56) as bv8, ((v >> 48) & 0xFF) as bv8, ((v >> 40) & 0xFF) as bv8, ((v >> 32) & 0xFF) as bv8,
     ((v >> 24) & 0xFF) as bv8, ((v >> 16) & 0xFF) as bv8, ((v >> 8) & 0xFF) as bv8, (v & 0xFF) as bv8]
  }

  function Push8(v: bv64, b: bv8): bv64 { (v << 8) | (b as bv64) }

  function U64Of(s: seq<bv8>): bv64 { if s == [] then 0 else Push8(U64Of(s[..|s| - 1]), s[|s| - 1]) }

  lemma U16RoundTrip(n: U16, s: seq<bv8>)
    requires |s| == 2
    ensures U16Of(U16Bytes(n)) == n && U16Bytes(U16Of(s)) == s
  {
    NatByteOf(s[0]);
    NatByteOf(s[1]);
    var m := U16Of(s);
    assert m / 256 == s[0] as int && m % 256 == s[1] as int;
  }

  lemma U32RoundTrip(v: bv32, s: seq<bv8>)
    requires |s| == 4
    ensures U32Of(U32Bytes(v)) == v && U32Bytes(U32Of(s)) == s
  {
    U32Raw(v);
    U32Back(s[0], s[1], s[2], s[3]);
  }

  lemma U32Raw(v: bv32)
    ensures U32Of(U32Bytes(v)) == v
  {
  }

  lemma U32Back(a: bv8, b: bv8, c: bv8, d: bv8)
    ensures U32Bytes(U32Of([a, b, c, d])) == [a, b, c, d]
  {
  }

  lemma U64Unrolled(s: seq<bv8>)
    requires |s| == 8
    ensures U64Of(s)
            == Push8(Push8(Push8(Push8(Push8(Push8(Push8(Push8(0, s[0]), s[1]), s[2]), s[3]), s[4]), s[5]), s[6]), s[7])
  {
    hide Push8;
    assert s[..8] == s && s[..0] == [];
    U64Step(s, 0);
    U64Step(s, 1);
    U64Step(s, 2);
    U64Step(s, 3);
    U64Step(s, 4);
    U64Step(s, 5);
    U64Step(s, 6);
    U64Step(s, 7);
  }

  lemma U64Step(s: seq<bv8>, i: nat)
    requires i < |s|
    ensures U64Of(s[..i + 1]) == Push8(U64Of(s[..i]), s[i])
  {
    hide Push8;
    assert s[..i + 1][..i] == s[..i];
  }

  lemma U64Raw(v: bv64)
    ensures Push8(Push8(Push8(Push8(Push8(Push8(Push8(Push8(0, (v >> 56) as bv8), ((v >> 48) & 0xFF) as bv8),
              ((v >> 40) & 0xFF) as bv8), ((v >> 32) & 0xFF) as bv8), ((v >> 24) & 0xFF) as bv8),
              ((v >> 16) & 0xFF) as bv8), ((v >> 8) & 0xFF) as bv8), (v & 0xFF) as bv8) == v
  {
  }

  lemma U64Back(a: bv8, b: bv8, c: bv8, d: bv8, e: bv8, f: bv8, g: bv8, h: bv8)
    ensures U64Bytes(Push8(Push8(Push8(Push8(Push8(Push8(Push8(Push8(0, a), b), c), d), e), f), g), h))
            == [a, b, c, d, e, f, g, h]
  {
  }

  lemma U64RoundTrip(v: bv64, s: seq<bv8>)
    requires |s| == 8
    ensures U64Of(U64Bytes(v)) == v && U64Bytes(U64Of(s)) == s
  {
    hide Push8;
    U64Unrolled(U64Bytes(v));
    U64Raw(v);
    U64Unrolled(s);
    U64Back(s[0], s[1], s[2], s[3], s[4], s[5], s[6], s[7]);
  }

  // ---- The frame ----

  const NAMES: nat := 27

  /** Bytes 0 to 26: magic, version, identifier and the four node names. */
  function Names(b: Bundle): (h: seq<bv8>)
    ensures |h| == NAMES
  {
    U16Bytes(MAGIC) + [VERSION] + U64Bytes(b.id)
    + U32Bytes(b.src) + U32Bytes(b.dst) + U32Bytes(b.curr) + U32Bytes(b.cust)
  }

  /** Bytes 27 to 40: total length, priority, class, times and payload length. */
  function Control(b: Bundle): (h: seq<bv8>)
    requires FrameLength(b) < 0x1_0000
    ensures |h| == WIRE_HEADER - NAMES
  {
    U16Bytes(FrameLength(b)) + [NatByte(b.prio)] + [NatByte(b.cls)]
    + U32Bytes(b.tGen) + U32Bytes(b.ttl) + U16Bytes(|b.payload|)
  }

  function Header(b: Bundle): (h: seq<bv8>)
    requires FrameLength(b) < 0x1_0000
    ensures |h| == WIRE_HEADER
  {
    Names(b) + Control(b)
  }

  /** The frame that carries `b`. */
  function Frame(b: Bundle): (f: seq<bv8>)
    requires |b.payload| <= MAX_PAYLOAD
    ensures |f| == FrameLength(b)
  {
    var body := Header(b) + b.payload;
    body + U32Bytes(Crc(0, body))
  }

  predicate Encodable(b: Bundle) { |b.payload| <= MAX_PAYLOAD }

  /** What a receiver makes of a frame. */
  function Parse(f: seq<bv8>): Decoded {
    if |f| < WIRE_HEADER + CRC_LEN then Rejected
    else if U16Of(f[0..2]) != MAGIC || f[2] != VERSION || U16Of(f[27..29]) != |f| then Rejected
    else
      var plen := U16Of(f[39..41]);
      if plen > MAX_PAYLOAD || WIRE_HEADER + plen + CRC_LEN != |f| then Rejected
      else if Crc(0, f[..41 + plen]) != U32Of(f[41 + plen..]) then Rejected
      else Accepted(Bundle(
        U64Of(f[3..11]), U32Of(f[11..15]), U32Of(f[15..19]), U32Of(f[19..23]), U32Of(f[23..27]),
        U16Of(f[27..29]), f[29] as int, f[30] as int, U32Of(f[31..35]), U32Of(f[35..39]),
        f[41..41 + plen], RESET))
  }

  // ---- Round trips ----

  lemma NamesFields(b: Bundle)
    ensures var h := Names(b);
      && h[0..2] == U16Bytes(MAGIC) && h[2] == VERSION && h[3..11] == U64Bytes(b.id)
      && h[11..15] == U32Bytes(b.src) && h[15..19] == U32Bytes(b.dst)
      && h[19..23] == U32Bytes(b.curr) && h[23..27] == U32Bytes(b.cust)
  {
    hide U16Bytes, U32Bytes, U64Bytes;
  }

  lemma ControlFields(b: Bundle)
    requires FrameLength(b) < 0x1_0000
    ensures var h := Control(b);
      && h[0..2] == U16Bytes(FrameLength(b)) && h[2] == NatByte(b.prio) && h[3] == NatByte(b.cls)
      && h[4..8] == U32Bytes(b.tGen) && h[8..12] == U32Bytes(b.ttl) && h[12..14] == U16Bytes(|b.payload|)
  {
    hide U16Bytes, U32Bytes, NatByte;
  }

  /** Where each field of the header lies. */
  lemma HeaderFields(b: Bundle)
    requires FrameLength(b) < 0x1_0000
    ensures var h := Header(b);
      && h[0..2] == U16Bytes(MAGIC) && h[2] == VERSION && h[3..11] == U64Bytes(b.id)
      && h[11..15] == U32Bytes(b.src) && h[15..19] == U32Bytes(b.dst)
      && h[19..23] == U32Bytes(b.curr) && h[23..27] == U32Bytes(b.cust)
      && h[27..29] == U16Bytes(FrameLength(b)) && h[29] == NatByte(b.prio) && h[30] == NatByte(b.cls)
      && h[31..35] == U32Bytes(b.tGen) && h[35..39] == U32Bytes(b.ttl) && h[39..41] == U16Bytes(|b.payload|)
  {
    hide U16Bytes, U32Bytes, U64Bytes, NatByte, Names, Control;
    NamesFields(b);
    ControlFields(b);
    var h, x, y := Header(b), Names(b), Control(b);
    assert forall i, j :: 0 <= i <= j <= 27 ==> h[i..j] == x[i..j];
    assert h[27..29] == y[0..2] && h[31..35] == y[4..8] && h[35..39] == y[8..12] && h[39..41] == y[12..14];
  }

  /** Decoding an encoded bundle gives back every wire field, the frame's length as its size,
      and the runtime fields reset. */
  lemma DecodeOfEncode(b: Bundle)
    requires Encodable(b)
    ensures Parse(Frame(b)) == Accepted(b.(size := FrameLength(b), run := RESET))
  {
    hide U16Bytes, U32Bytes, U64Bytes, U16Of, U32Of, U64Of, Crc, NatByte;
    var h, f, n := Header(b), Frame(b), |b.payload|;
    var body := h + b.payload;
    HeaderFields(b);
    assert forall i, j :: 0 <= i <= j <= 41 ==> f[i..j] == h[i..j];
    assert f[..41 + n] == body && f[41 + n..] == U32Bytes(Crc(0, body)) && f[41..41 + n] == b.payload;
    var some4: seq<bv8>, some2: seq<bv8>, some8: seq<bv8> := [0, 0, 0, 0], [0, 0], [0, 0, 0, 0, 0, 0, 0, 0];
    U16RoundTrip(MAGIC, some2);
    U16RoundTrip(FrameLength(b), some2);
    U16RoundTrip(n, some2);
    U64RoundTrip(b.id, some8);
    U32RoundTrip(b.src, some4);
    U32RoundTrip(b.dst, some4);
    U32RoundTrip(b.curr, some4);
    U32RoundTrip(b.cust, some4);
    U32RoundTrip(b.tGen, some4);
    U32RoundTrip(b.ttl, some4);
    U32RoundTrip(Crc(0, body), some4);
  }

  /** Re-encoding an accepted frame gives back exactly its bytes. */
  lemma EncodeOfDecode(f: seq<bv8>, b: Bundle)
    requires Parse(f) == Accepted(b)
    ensures Encodable(b) && b.size == FrameLength(b) == |f| && Frame(b) == f
    ensures b.run == Runtime(Queued, 0, 0, 0.0, 0.0, 0.0)
  {
    hide U16Bytes, U32Bytes, U64Bytes, U16Of, U32Of, U64Of, Crc;
    var n := |b.payload|;
    U16RoundTrip(0, f[0..2]);
    U64RoundTrip(0, f[3..11]);
    U32RoundTrip(0, f[11..15]);
    U32RoundTrip(0, f[15..19]);
    U32RoundTrip(0, f[19..23]);
    U32RoundTrip(0, f[23..27]);
    U16RoundTrip(0, f[27..29]);
    NatByteOf(f[29]);
    NatByteOf(f[30]);
    U32RoundTrip(0, f[31..35]);
    U32RoundTrip(0, f[35..39]);
    U16RoundTrip(0, f[39..41]);
    U32RoundTrip(0, f[41 + n..]);
    HeaderPieces(f);
    assert Names(b) == f[0..2] + [f[2]] + f[3..11] + f[11..15] + f[15..19] + f[19..23] + f[23..27];
    assert Control(b) == f[27..29] + [f[29]] + [f[30]] + f[31..35] + f[35..39] + f[39..41];
    assert Header(b) == f[..27] + f[27..41] == f[..41];
    assert Header(b) + b.payload == f[..41 + n];
    assert f == f[..41 + n] + f[41 + n..];
  }

  lemma HeaderPieces(f: seq<bv8>)
    requires |f| >= 41
    ensures f[..27] == f[0..2] + [f[2]] + f[3..11] + f[11..15] + f[15..19] + f[19..23] + f[23..27]
    ensures f[27..41] == f[27..29] + [f[29]] + [f[30]] + f[31..35] + f[35..39] + f[39..41]
    ensures f[..41] == f[..27] + f[27..41]
  {
  }

  /** Only one bundle has a given frame, up to the fields that do not travel. */
  lemma FrameInjective(a: Bundle, b: Bundle)
    requires Encodable(a) && Encodable(b) && Frame(a) == Frame(b)
    ensures SameOrigin(a, b) && a.curr == b.curr && a.cust == b.cust
  {
    DecodeOfEncode(a);
    DecodeOfEncode(b);
  }

  // ---- Corruption ----

  /** `g` is `f` with some bytes changed, all inside one window of at most four bytes that lies
      within the checksummed part or within the checksum. */
  ghost predicate Burst(f: seq<bv8>, g: seq<bv8>, from: nat, len: nat) {
    && |f| == |g| && f != g && len <= 4 && from + len <= |f| && |f| >= CRC_LEN
    && (forall i :: 0 <= i < |f| && !(from <= i < from + len) ==> f[i] == g[i])
    && (from + len <= |f| - CRC_LEN || |f| - CRC_LEN <= from)
  }

  /** A burst inside the body or inside the checksum of a valid frame is always detected. */
  lemma BurstRejected(f: seq<bv8>, g: seq<bv8>, from: nat, len: nat)
    requires Parse(f).Accepted? && Burst(f, g, from, len)
    ensures Parse(g).Rejected?
  {
    hide Crc, U32Of, Parse;
    var m := |f| - CRC_LEN;
    if Parse(g).Accepted? {
      ParseChecks(f);
      ParseChecks(g);
    }
    if from + len <= m {
      BurstInBody(f, g, from, len, m);
      assert f[m..] == g[m..];
    } else {
      assert f[..m] == g[..m];
      BurstInChecksum(f, g, m);
    }
  }

  lemma ParseChecks(f: seq<bv8>)
    requires Parse(f).Accepted?
    ensures |f| >= WIRE_HEADER + CRC_LEN
    ensures Crc(0, f[..|f| - CRC_LEN]) == U32Of(f[|f| - CRC_LEN..])
  {
    hide Crc, U32Of, U16Of, U64Of;
  }

  lemma DifferSomewhere(f: seq<bv8>, g: seq<bv8>) returns (i: nat)
    requires |f| == |g| && f != g
    ensures i < |f| && f[i] != g[i]
  {
    i :| 0 <= i < |f| && f[i] != g[i];
  }

  lemma BurstInBody(f: seq<bv8>, g: seq<bv8>, from: nat, len: nat, m: nat)
    requires Burst(f, g, from, len) && from + len <= m <= |f|
    ensures Crc(0, f[..m]) != Crc(0, g[..m])
  {
    hide Crc;
    var pre, post := f[..from], f[from + len..m];
    var w, w' := f[from..from + len], g[from..from + len];
    assert f[..m] == pre + w + post && g[..m] == pre + w' + post;
    var i := DifferSomewhere(f, g);
    assert w[i - from] == f[i] && w'[i - from] == g[i];
    BurstChangesCrc(0, pre, w, w', post);
  }

  lemma BurstInChecksum(f: seq<bv8>, g: seq<bv8>, m: nat)
    requires |f| == |g| == m + 4 && f != g && f[..m] == g[..m]
    ensures U32Of(f[m..]) != U32Of(g[m..])
  {
    hide U32Of, U32Bytes;
    U32RoundTrip(0, f[m..]);
    U32RoundTrip(0, g[m..]);
    assert f == f[..m] + f[m..] && g == g[..m] + g[m..];
  }

  /** Changing any single byte of a valid frame makes it invalid. */
  lemma ByteChangeRejected(f: seq<bv8>, i: nat, v: bv8)
    requires Parse(f).Accepted? && i < |f| && v != f[i]
    ensures Parse(f[i := v]).Rejected?
  {
    var g := f[i := v];
    assert g[i] != f[i];
    BurstRejected(f, g, i, 1);
  }

  // ---- The encoder and decoder as they run ----

  /** Everything before `at` and from `at + |piece|` on is as it was, with `piece` between. */
  ghost predicate Spliced(now: seq<bv8>, was: seq<bv8>, at: nat, piece: seq<bv8>) {
    && |now| == |was| && at + |piece| <= |was|
    && now[..at] == was[..at] && now[at..at + |piece|] == piece && now[at + |piece|..] == was[at + |piece|..]
  }

  method PutU16(out: array<bv8>, at: nat, v: U16)
    requires at + 2 <= out.Length
    modifies out
    ensures Spliced(out[..], old(out[..]), at, U16Bytes(v))
  {
    out[at], out[at + 1] := NatByte(v / 256), NatByte(v % 256);
  }

  method PutU32(out: array<bv8>, at: nat, v: bv32)
    requires at + 4 <= out.Length
    modifies out
    ensures Spliced(out[..], old(out[..]), at, U32Bytes(v))
  {
    out[at], out[at + 1] := (v >> 24) as bv8, ((v >> 16) & 0xFF) as bv8;
    out[at + 2], out[at + 3] := ((v >> 8) & 0xFF) as bv8, (v & 0xFF) as bv8;
  }

  method PutU64(out: array<bv8>, at: nat, v: bv64)
    requires at + 8 <= out.Length
    modifies out
    ensures Spliced(out[..], old(out[..]), at, U64Bytes(v))
  {
    ghost var was := out[..];
    var piece := U64Bytes(v);
    for i := 0 to 8
      invariant out[..at] == was[..at] && out[at..at + i] == piece[..i] && out[at + i..] == was[at + i..]
    {
      out[at + i] := piece[i];
    }
  }

  method PutByte(out: array<bv8>, at: nat, v: bv8)
    requires at < out.Length
    modifies out
    ensures Spliced(out[..], old(out[..]), at, [v])
  {
    out[at] := v;
  }

  method PutBytes(out: array<bv8>, at: nat, s: seq<bv8>)
    requires at + |s| <= out.Length
    modifies out
    ensures Spliced(out[..], old(out[..]), at, s)
  {
    ghost var was := out[..];
    for i := 0 to |s|
      invariant out[..at] == was[..at] && out[at..at + i] == s[..i] && out[at + i..] == was[at + i..]
    {
      out[at + i] := s[i];
    }
  }

  /** Writes extend the frame piece by piece and leave the rest of the buffer alone. */
  lemma SplicedExtends(now: seq<bv8>, was: seq<bv8>, first: seq<bv8>, at: nat, done: seq<bv8>, piece: seq<bv8>)
    requires Spliced(was, first, at, done) && Spliced(now, was, at + |done|, piece)
    ensures Spliced(now, first, at, done + piece)
  {
    var m, n := at + |done|, at + |done| + |piece|;
    assert now[at..n] == now[..m][at..] + now[m..n];
    assert was[..m][at..] == was[at..m];
    assert now[..at] == now[..m][..at] == was[..m][..at] == was[..at];
    forall i | n <= i < |now| ensures now[i] == first[i] {
      assert now[n..][i - n] == was[n..][i - n];
      assert was[m..][i - m] == first[m..][i - m];
    }
  }

  /** Write the frame of `b` at the start of `out`, of which `cap` bytes may be used; refuse an
      oversized payload or a frame that does not fit, leaving the buffer alone. */
  method Serialize(b: Bundle, out: array<bv8>, cap: nat) returns (n: int)
    requires cap <= out.Length
    modifies out
    ensures n == -1 <==> !Encodable(b) || FrameLength(b) > cap
    ensures n == -1 ==> out[..] == old(out[..])
    ensures n != -1 ==> n == FrameLength(b) && Spliced(out[..], old(out[..]), 0, Frame(b))
  {
    if |b.payload| > MAX_PAYLOAD {
      return -1;
    }
    var total := WIRE_HEADER + |b.payload| + CRC_LEN;
    if total > cap {
      return -1;
    }
    hide Header, U32Bytes, Crc, Spliced;
    ghost var first := out[..];
    PutBody(b, out);
    ghost var body, filled := Header(b) + b.payload, out[..];
    SplicedPart(filled, first, body);
    PutChecksum(out, WIRE_HEADER + |b.payload|, body);
    SplicedExtends(out[..], filled, first, 0, body, U32Bytes(Crc(0, body)));
    n := total;
  }

  /** Close the first `len` bytes with their checksum. */
  method PutChecksum(out: array<bv8>, len: nat, ghost body: seq<bv8>)
    requires len + CRC_LEN <= out.Length && out[..len] == body
    modifies out
    ensures Spliced(out[..], old(out[..]), len, U32Bytes(Crc(0, body)))
  {
    hide U32Bytes, Crc, Spliced;
    var crc := Update(0, out[..len]);
    PutU32(out, len, crc);
  }

  /** Header and payload. */
  method PutBody(b: Bundle, out: array<bv8>)
    requires Encodable(b) && FrameLength(b) <= out.Length
    modifies out
    ensures Spliced(out[..], old(out[..]), 0, Header(b) + b.payload)
  {
    hide Names, Control, Spliced;
    ghost var first := out[..];
    PutNames(b, out);
    ghost var named := out[..];
    PutControl(b, out);
    SplicedExtends(out[..], named, first, 0, Names(b), Control(b));
    ghost var headed := out[..];
    PutBytes(out, WIRE_HEADER, b.payload);
    SplicedExtends(out[..], headed, first, 0, Header(b), b.payload);
  }

  lemma SplicedPart(now: seq<bv8>, was: seq<bv8>, piece: seq<bv8>)
    requires Spliced(now, was, 0, piece)
    ensures |piece| <= |now| && now[..|piece|] == piece
  {
  }

  method PutNames(b: Bundle, out: array<bv8>)
    requires NAMES <= out.Length
    modifies out
    ensures Spliced(out[..], old(out[..]), 0, Names(b))
  {
    hide U16Bytes, U32Bytes, U64Bytes, NatByte, Spliced;
    ghost var first := out[..];
    PutMark(b.id, out);
    ghost var done, was := Mark(b.id), out[..];
    PutU32(out, 11, b.src);
    SplicedExtends(out[..], was, first, 0, done, U32Bytes(b.src));
    done, was := done + U32Bytes(b.src), out[..];
    PutU32(out, 15, b.dst);
    SplicedExtends(out[..], was, first, 0, done, U32Bytes(b.dst));
    done, was := done + U32Bytes(b.dst), out[..];
    PutU32(out, 19, b.curr);
    SplicedExtends(out[..], was, first, 0, done, U32Bytes(b.curr));
    done, was := done + U32Bytes(b.curr), out[..];
    PutU32(out, 23, b.cust);
    SplicedExtends(out[..], was, first, 0, done, U32Bytes(b.cust));
  }

  /** The mark every frame starts with, and the bundle's identifier. */
  function Mark(id: BundleId): (s: seq<bv8>)
    ensures |s| == 11
  {
    U16Bytes(MAGIC) + [VERSION] + U64Bytes(id)
  }

  method PutMark(id: BundleId, out: array<bv8>)
    requires 11 <= out.Length
    modifies out
    ensures Spliced(out[..], old(out[..]), 0, Mark(id))
  {
    hide U16Bytes, U64Bytes, Spliced;
    ghost var first := out[..];
    PutU16(out, 0, MAGIC);
    ghost var was := out[..];
    PutByte(out, 2, VERSION);
    SplicedExtends(out[..], was, first, 0, U16Bytes(MAGIC), [VERSION]);
    was := out[..];
    PutU64(out, 3, id);
    SplicedExtends(out[..], was, first, 0, U16Bytes(MAGIC) + [VERSION], U64Bytes(id));
  }

  method PutControl(b: Bundle, out: array<bv8>)
    requires FrameLength(b) < 0x1_0000 && WIRE_HEADER <= out.Length
    modifies out
    ensures Spliced(out[..], old(out[..]), NAMES, Control(b))
  {
    hide U16Bytes, U32Bytes, U64Bytes, NatByte, Spliced;
    ghost var first := out[..];
    PutU16(out, 27, FrameLength(b));
    ghost var done, was := U16Bytes(FrameLength(b)), out[..];
    PutByte(out, 29, NatByte(b.prio));
    SplicedExtends(out[..], was, first, NAMES, done, [NatByte(b.prio)]);
    done, was := done + [NatByte(b.prio)], out[..];
    PutByte(out, 30, NatByte(b.cls));
    SplicedExtends(out[..], was, first, NAMES, done, [NatByte(b.cls)]);
    done, was := done + [NatByte(b.cls)], out[..];
    PutU32(out, 31, b.tGen);
    SplicedExtends(out[..], was, first, NAMES, done, U32Bytes(b.tGen));
    done, was := done + U32Bytes(b.tGen), out[..];
    PutU32(out, 35, b.ttl);
    SplicedExtends(out[..], was, first, NAMES, done, U32Bytes(b.ttl));
    done, was := done + U32Bytes(b.ttl), out[..];
    PutU16(out, 39, |b.payload|);
    SplicedExtends(out[..], was, first, NAMES, done, U16Bytes(|b.payload|));
  }

  method GetU64(f: seq<bv8>, at: nat) returns (v: bv64)
    requires at + 8 <= |f|
    ensures v == U64Of(f[at..at + 8])
  {
    hide Push8;
    v := 0;
    for i := 0 to 8
      invariant v == U64Of(f[at..at + i])
    {
      assert f[at..at + i + 1][..i] == f[at..at + i];
      v := Push8(v, f[at + i]);
    }
  }

  /** Read a frame, rejecting it on any mismatch of length, magic, version or checksum. */
  method Deserialize(f: seq<bv8>) returns (r: Decoded)
    ensures r == Parse(f)
  {
    hide U16Of, U32Of, U64Of, Crc;
    if |f| < WIRE_HEADER + CRC_LEN { return Rejected; }
    if U16Of(f[0..2]) != MAGIC { return Rejected; }
    if f[2] != VERSION { return Rejected; }
    var total := U16Of(f[27..29]);
    if total != |f| { return Rejected; }
    var id := GetU64(f, 3);
    var plen := U16Of(f[39..41]);
    if plen > MAX_PAYLOAD { return Rejected; }
    if WIRE_HEADER + plen + CRC_LEN != |f| { return Rejected; }
    var computed := Update(0, f[..41 + plen]);
    if computed != U32Of(f[41 + plen..]) { return Rejected; }
    return Accepted(Bundle(
      id, U32Of(f[11..15]), U32Of(f[15..19]), U32Of(f[19..23]), U32Of(f[23..27]),
      total, f[29] as int, f[30] as int, U32Of(f[31..35]), U32Of(f[35..39]), f[41..41 + plen], RESET));
  }
}
