/** Byte-level vocabulary shared by the host (C#) and client (Python) models:
    bytes, 4-byte float words, and the fixed-width integer and float-array
    encodings both sides put on the wire. */
module Wire {

  type byte = x: int | 0 <= x < 256

  /** A 32-bit IEEE 754 float as the four bytes it occupies on the wire. Its
      numeric meaning is never needed: the protocol only moves whole words. */
  type Word = s: seq<byte> | |s| == 4 witness [0, 0, 0, 0]

  /** The bytes of the float 0.0f. */
  const ZeroWord: Word := [0, 0, 0, 0]

  datatype Option<T> = None | Some(value: T)

  /** .NET's float.MaxValue, the largest finite binary32 value, which the
      host uses as "no time yet". */
  const FloatMaxValue: real := 340282346638528859811704183484516925440.0

  /** Little-endian bytes of a 32-bit two's complement integer, as .NET's
      BitConverter.GetBytes(int) produces them on a little-endian host. */
  function Int32LE(n: int): (w: Word)
    requires -0x8000_0000 <= n < 0x8000_0000
  {
    var u := if n < 0 then n + 0x1_0000_0000 else n;
    [u % 256, (u / 256) % 256, (u / 0x1_0000) % 256, u / 0x100_0000]
  }

  /** Reads a 32-bit two's complement integer back from its little-endian bytes. */
  function Int32FromLE(w: Word): (n: int)
    ensures -0x8000_0000 <= n < 0x8000_0000
  {
    var u: int := w[0] as int + 256 * w[1] as int + 0x1_0000 * w[2] as int + 0x100_0000 * w[3] as int;
    if u >= 0x8000_0000 then u - 0x1_0000_0000 else u
  }

  lemma Int32RoundTrip(n: int)
    requires -0x8000_0000 <= n < 0x8000_0000
    ensures Int32FromLE(Int32LE(n)) == n
  {
    var u := if n < 0 then n + 0x1_0000_0000 else n;
    var q1, q2, q3 := u / 256, u / 0x1_0000, u / 0x100_0000;
    assert u == u % 256 + 256 * q1;
    assert q2 == q1 / 256 && q1 == q1 % 256 + 256 * q2;
    assert q3 == q2 / 256 && q2 == q2 % 256 + 256 * q3;
    assert q3 < 256;
    var w := Int32LE(n);
    assert w[0] as int + 256 * w[1] as int + 0x1_0000 * w[2] as int + 0x100_0000 * w[3] as int == u;
  }

  /** The unsigned value of a byte string read least significant byte first
      (Python's int.from_bytes(data, "little")). */
  function UIntLE(bs: seq<byte>): nat
  {
    if bs == [] then 0 else bs[0] + 256 * UIntLE(bs[1..])
  }

  /** A value read little-endian is the first byte exactly when all later
      bytes are zero. */
  lemma {:induction false} UIntLESingle(bs: seq<byte>)
    requires |bs| >= 1
    ensures UIntLE(bs) == bs[0] <==> UIntLE(bs[1..]) == 0
    ensures UIntLE(bs) < 256 <==> UIntLE(bs[1..]) == 0
  {
  }

  /** Concatenates words in order (Buffer.BlockCopy of a float[] into a byte[]). */
  function Flatten(ws: seq<Word>): (bs: seq<byte>)
    ensures |bs| == 4 * |ws|
  {
    if ws == [] then [] else ws[0] + Flatten(ws[1..])
  }

  lemma {:induction false} FlattenAt(ws: seq<Word>, i: nat, k: nat)
    requires i < |ws| && k < 4
    ensures Flatten(ws)[4 * i + k] == ws[i][k]
  {
    if i > 0 {
      FlattenAt(ws[1..], i - 1, k);
    }
  }

  /** Splits a byte string into 4-byte words (numpy.frombuffer with dtype
      float32), failing when the length is not a multiple of 4. */
  function Words(bs: seq<byte>): (r: Option<seq<Word>>)
    ensures r.Some? <==> |bs| % 4 == 0
    ensures r.Some? ==> |r.value| == |bs| / 4
    decreases |bs|
  {
    if |bs| % 4 != 0 then None
    else if bs == [] then Some([])
    else
      var rest := Words(bs[4..]);
      var w: Word := bs[..4];
      Some([w] + rest.value)
  }

  /** Splitting the concatenation of words gives those words back. */
  lemma {:induction false} WordsFlatten(ws: seq<Word>)
    ensures Words(Flatten(ws)) == Some(ws)
  {
    if ws != [] {
      var bs := Flatten(ws);
      assert bs[..4] == ws[0];
      assert bs[4..] == Flatten(ws[1..]);
      WordsFlatten(ws[1..]);
      assert [ws[0]] + ws[1..] == ws;
    }
  }

  /** Concatenating the words a split produced gives the bytes back. */
  lemma {:induction false} FlattenWords(bs: seq<byte>)
    requires |bs| % 4 == 0
    ensures Flatten(Words(bs).value) == bs
    decreases |bs|
  {
    if bs != [] {
      FlattenWords(bs[4..]);
      var ws := Words(bs).value;
      assert ws[0] == bs[..4];
      assert ws[1..] == Words(bs[4..]).value;
      assert bs[..4] + bs[4..] == bs;
    }
  }
}
