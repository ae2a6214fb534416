/** Byte-level helpers shared by the two GATT services: little-endian integers
    (what `memcpy` of an integer produces on the little-endian Cortex-M core) and
    the effect of an encoder that copies pieces into a buffer at a running
    `uint8_t` offset, which wraps at 256. */
module Encoding {
  import opened Nrf

  function Pow256(n: nat): (r: nat)
    ensures r > 0
  {
    if n == 0 then 1 else 256 * Pow256(n - 1)
  }

  /** The `n` low-order bytes of `v`, least significant first. */
  function LeBytes(v: nat, n: nat): (r: seq<uint8>)
    ensures |r| == n
  {
    if n == 0 then [] else [v % 256] + LeBytes(v / 256, n - 1)
  }

  /** The unsigned value of a little-endian byte string. */
  function LeValue(s: seq<uint8>): nat
  {
    if s == [] then 0 else s[0] + 256 * LeValue(s[1..])
  }

  /** A value that fits in `n` bytes is what its little-endian bytes decode to. */
  lemma {:induction false} LeRoundTrip(v: nat, n: nat)
    requires v < Pow256(n)
    ensures LeValue(LeBytes(v, n)) == v
  {
    if n > 0 {
      var s := LeBytes(v, n);
      assert s[1..] == LeBytes(v / 256, n - 1);
      LeRoundTrip(v / 256, n - 1);
    }
  }

  lemma {:induction false} LeValueBound(s: seq<uint8>)
    ensures LeValue(s) < Pow256(|s|)
  {
    if s != [] {
      LeValueBound(s[1..]);
    }
  }

  /** Encoding the value of a byte string gives the byte string back. */
  lemma {:induction false} LeBytesOfValue(s: seq<uint8>)
    ensures LeBytes(LeValue(s), |s|) == s
  {
    if s != [] {
      var v := LeValue(s);
      assert v == s[0] + 256 * LeValue(s[1..]);
      assert v % 256 == s[0] && v / 256 == LeValue(s[1..]);
      LeBytesOfValue(s[1..]);
    }
  }

  /** The value of a 2-byte little-endian field, as `uint16_decode` reads it. */
  function Uint16Value(s: seq<uint8>): (r: uint16)
    requires |s| == 2
    ensures r == s[0] as int + 256 * s[1] as int
  {
    LeValueBound(s);
    assert Pow256(2) == 0x1_0000;
    LeValue(s)
  }

  /** The value of a 4-byte little-endian field. */
  function Uint32Value(s: seq<uint8>): (r: uint32)
    requires |s| == 4
    ensures LeBytes(r, 4) == s
  {
    LeValueBound(s);
    assert Pow256(4) == 0x1_0000_0000;
    LeBytesOfValue(s);
    LeValue(s)
  }

  /** The value of an 8-byte little-endian field. */
  function Uint64Value(s: seq<uint8>): (r: uint64)
    requires |s| == 8
    ensures LeBytes(r, 8) == s
  {
    LeValueBound(s);
    assert Pow256(8) == 0x1_0000_0000_0000_0000;
    LeBytesOfValue(s);
    LeValue(s)
  }

  /** `ble_srv_is_notification_enabled`: bit 0 (Notifications) of the 2-byte
      little-endian Client Characteristic Configuration value (Bluetooth Core
      Specification Vol 3, Part G, section 3.3.3.3). */
  function IsNotificationEnabled(cccd: seq<uint8>): (r: bool)
    requires |cccd| >= 2
    ensures r <==> cccd[0] % 2 == 1
  {
    var v := Uint16Value(cccd[..2]);
    assert v % 2 == cccd[0] % 2 by {
      assert v == cccd[0] as int + 2 * (128 * cccd[1] as int);
    }
    v % 2 == 1
  }

  /** Two's-complement bytes of a signed 16-bit integer, as `memcpy` of an `int16_t`. */
  function Int16Bytes(x: int16): (r: seq<uint8>)
    ensures |r| == 2
  {
    LeBytes(if x < 0 then x + 0x1_0000 else x, 2)
  }

  /** The signed 16-bit integer whose two's-complement bytes these are. */
  function Int16Value(s: seq<uint8>): (r: int16)
    requires |s| == 2
    ensures Int16Bytes(r) == s
  {
    var u := LeValue(s);
    LeValueBound(s);
    LeBytesOfValue(s);
    assert Pow256(2) == 0x1_0000;
    if u >= 0x8000 then u - 0x1_0000 else u
  }

  lemma Int16RoundTrip(x: int16)
    ensures Int16Value(Int16Bytes(x)) == x
  {
    assert Pow256(2) == 0x1_0000;
    LeRoundTrip(if x < 0 then x + 0x1_0000 else x, 2);
  }

  /** The pieces an encoder copies, concatenated: the wire format when nothing wraps. */
  function Flatten(cs: seq<seq<uint8>>): seq<uint8>
  {
    if cs == [] then [] else Flatten(cs[..|cs| - 1]) + cs[|cs| - 1]
  }

  /** The encoder's `uint8_t len` after copying the pieces `cs`. */
  function Offset(cs: seq<seq<uint8>>): uint8
  {
    |Flatten(cs)| % 256
  }

  /** Every piece, copied at the wrapped offset, lands inside a buffer of `cap` bytes. */
  ghost predicate Fits(cs: seq<seq<uint8>>, cap: nat)
  {
    forall i :: 0 <= i < |cs| ==> Offset(cs[..i]) + |cs[i]| <= cap
  }

  /** `memcpy(&b[at], c, |c|)` on the buffer's contents. */
  function Put(b: seq<uint8>, at: nat, c: seq<uint8>): (r: seq<uint8>)
    requires at + |c| <= |b|
    ensures |r| == |b|
    ensures r[at..at + |c|] == c
    ensures forall k :: 0 <= k < |b| && !(at <= k < at + |c|) ==> r[k] == b[k]
  {
    b[..at] + c + b[at + |c|..]
  }

  /** The buffer after an encoder copied each piece at its wrapped offset (a
      piece that would not fit, which `Fits` excludes, is not copied). */
  ghost function WriteChunks(b: seq<uint8>, cs: seq<seq<uint8>>): (r: seq<uint8>)
    ensures |r| == |b|
    decreases |cs|
  {
    if cs == [] then b
    else
      var p, c := cs[..|cs| - 1], cs[|cs| - 1];
      var w := WriteChunks(b, p);
      if Offset(p) + |c| <= |w| then Put(w, Offset(p), c) else w
  }

  /** When the whole encoding is at most 256 bytes the offset never wraps: the
      buffer starts with the concatenated pieces. */
  lemma {:induction false} WriteChunksShort(b: seq<uint8>, cs: seq<seq<uint8>>)
    requires |Flatten(cs)| <= 256 && |Flatten(cs)| <= |b|
    ensures Fits(cs, |b|)
    ensures WriteChunks(b, cs)[..|Flatten(cs)|] == Flatten(cs)
    decreases |cs|
  {
    if cs != [] {
      var p, c := cs[..|cs| - 1], cs[|cs| - 1];
      assert Flatten(cs) == Flatten(p) + c;
      WriteChunksShort(b, p);
      forall i | 0 <= i < |cs|
        ensures Offset(cs[..i]) + |cs[i]| <= |b|
      {
        if i < |cs| - 1 {
          assert cs[..i] == p[..i] && cs[i] == p[i];
        } else {
          assert cs[..i] == p;
        }
      }
      var w := WriteChunks(b, p);
      if |Flatten(p)| == 256 {
        assert c == [];
        assert Put(w, Offset(p), c) == w;
      } else {
        assert Offset(p) == |Flatten(p)|;
        var r := Put(w, |Flatten(p)|, c);
        assert r[..|Flatten(p)|] == w[..|Flatten(p)|];
        assert r[..|Flatten(cs)|] == r[..|Flatten(p)|] + r[|Flatten(p)|..|Flatten(cs)|];
      }
    }
  }

  lemma {:induction false} ModShift(q: nat, x: nat)
    ensures (256 * q + x) % 256 == x % 256
  {
    if q > 0 {
      assert 256 * q + x == (256 * (q - 1) + x) + 256;
      ModShift(q - 1, x);
    }
  }

  /** Adding to a `uint8_t` counter: the wrap can be taken before or after. */
  lemma ModAddByte(a: nat, c: nat)
    ensures (a + c) % 256 == (a % 256 + c) % 256
  {
    assert a + c == 256 * (a / 256) + (a % 256 + c);
    ModShift(a / 256, a % 256 + c);
  }

  /** The `uint8_t` offset after one more piece. */
  lemma OffsetStep(cs: seq<seq<uint8>>, k: nat)
    requires k < |cs|
    ensures Offset(cs[..k + 1]) == (Offset(cs[..k]) + |cs[k]|) % 256
  {
    var p := cs[..k + 1];
    assert p[..|p| - 1] == cs[..k] && p[|p| - 1] == cs[k];
    var a, c := |Flatten(cs[..k])|, |cs[k]|;
    assert |Flatten(p)| == a + c;
    ModAddByte(a, c);
  }

  /** Copying one more piece: the buffer and the wrapped offset after the
      first `k + 1` pieces, from those after the first `k`. */
  lemma WriteChunksStep(b: seq<uint8>, cs: seq<seq<uint8>>, k: nat)
    requires k < |cs| && Offset(cs[..k]) + |cs[k]| <= |b|
    ensures WriteChunks(b, cs[..k + 1]) == Put(WriteChunks(b, cs[..k]), Offset(cs[..k]), cs[k])
    ensures Offset(cs[..k + 1]) == (Offset(cs[..k]) + |cs[k]|) % 256
  {
    var p := cs[..k + 1];
    assert p[..|p| - 1] == cs[..k] && p[|p| - 1] == cs[k];
    OffsetStep(cs, k);
  }

  /** Concatenating the pieces of two lists. */
  lemma {:induction false} FlattenAppend(a: seq<seq<uint8>>, b: seq<seq<uint8>>)
    ensures Flatten(a + b) == Flatten(a) + Flatten(b)
    decreases |b|
  {
    if b == [] {
      assert a + b == a;
    } else {
      var b' := b[..|b| - 1];
      assert (a + b)[..|a + b| - 1] == a + b';
      FlattenAppend(a, b');
    }
  }

  /** Pieces of one width `w` concatenate to `w` bytes each. */
  lemma {:induction false} FlattenUniformLength(body: seq<seq<uint8>>, w: nat)
    requires forall i :: 0 <= i < |body| ==> |body[i]| == w
    ensures |Flatten(body)| == w * |body|
    decreases |body|
  {
    if body != [] {
      var p := body[..|body| - 1];
      FlattenUniformLength(p, w);
      assert w * |body| == w * |p| + w;
    }
  }

  lemma FlattenTwo(a: seq<uint8>, b: seq<uint8>)
    ensures Flatten([a, b]) == a + b
  {
    assert [a, b][..1] == [a] && [a][..0] == [];
    assert Flatten([a]) == a;
  }

  lemma FlattenThree(a: seq<uint8>, b: seq<uint8>, c: seq<uint8>)
    ensures Flatten([a, b, c]) == a + b + c
  {
    assert [a, b, c][..2] == [a, b] && [a, b][..1] == [a] && [a][..0] == [];
    assert Flatten([a]) == a;
    assert Flatten([a, b]) == a + b;
  }

  /** One `memcpy(&buf[len], piece, |piece|); len += |piece|;` step of an
      encoder that copies the pieces `cs` in order: after the first `k` pieces,
      copying piece `k` gives the state after the first `k + 1`. */
  method CopyPiece(buf: array<uint8>, len: uint8, piece: seq<uint8>,
                   ghost b0: seq<uint8>, ghost cs: seq<seq<uint8>>, ghost k: nat)
    returns (len': uint8)
    requires |b0| == buf.Length && k < |cs| && piece == cs[k]
    requires buf[..] == WriteChunks(b0, cs[..k]) && len == Offset(cs[..k])
    requires len as nat + |piece| <= buf.Length
    modifies buf
    ensures buf[..] == WriteChunks(b0, cs[..k + 1])
    ensures len' == Offset(cs[..k + 1])
  {
    WriteChunksStep(b0, cs, k);
    Memcpy(buf, len as nat, piece);
    len' := (len + |piece|) % 256;
  }

  /** `memcpy(&buf[at], src, |src|)`. */
  method Memcpy(buf: array<uint8>, at: nat, src: seq<uint8>)
    requires at + |src| <= buf.Length
    modifies buf
    ensures buf[..] == Put(old(buf[..]), at, src)
  {
    forall i | 0 <= i < |src| {
      buf[at + i] := src[i];
    }
    assert buf[..] == Put(old(buf[..]), at, src);
  }
}
