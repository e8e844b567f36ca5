/**
 * Base 32 encoding as defined in section 6 of RFC 4648: each group of five
 * bytes becomes eight characters of the alphabet A-Z, 2-7; a final partial
 * group is zero-filled to a multiple of five bits and the output is padded
 * with '=' to a multiple of eight characters.
 */
module Base32 {
  import opened JsValues

  type byte = x: int | 0 <= x < 256

  const Alphabet: string := "ABCDEFGHIJKLMNOPQRSTUVWXYZ234567"
  const Pad: char := '='

  function Pow(b: nat, e: nat): (r: nat)
    ensures b > 0 ==> r > 0
  {
    if e == 0 then 1 else b * Pow(b, e - 1)
  }

  /** The value of a byte string read as a big-endian unsigned integer. */
  function BigEndian(g: seq<byte>): nat {
    if g == [] then 0 else BigEndian(g[..|g| - 1]) * 256 + g[|g| - 1]
  }

  /** How many of a group's eight characters carry bits, for a group of `k` bytes: 2, 4, 5, 7 or 8. */
  function DataChars(k: nat): (c: nat)
    requires 1 <= k <= 5
    ensures 2 <= c <= 8 && c * 5 >= k * 8 && (c - 1) * 5 < k * 8
  {
    (8 * k + 4) / 5
  }

  /** One group of one to five bytes, as eight characters. */
  function EncodeGroup(g: seq<byte>): (r: string)
    requires 1 <= |g| <= 5
    ensures |r| == 8
    ensures forall i :: 0 <= i < DataChars(|g|) ==> r[i] in Alphabet
    ensures forall i :: DataChars(|g|) <= i < 8 ==> r[i] == Pad
  {
    var v := BigEndian(g) * Pow(256, 5 - |g|);
    var c := DataChars(|g|);
    seq(8, i requires 0 <= i < 8 => if i < c then Alphabet[(v / Pow(32, 7 - i)) % 32] else Pad)
  }

  /** The padded base 32 text of a byte string. */
  function Encode(b: seq<byte>): (r: string)
    ensures |r| == 8 * ((|b| + 4) / 5)
    decreases |b|
  {
    if b == [] then ""
    else if |b| <= 5 then
      assert (|b| + 4) / 5 == 1;
      EncodeGroup(b)
    else
      assert (|b| + 4) / 5 == (|b[5..]| + 4) / 5 + 1;
      EncodeGroup(b[..5]) + Encode(b[5..])
  }

  /** Every character of the padded text is from the alphabet or is the pad character. */
  lemma {:induction false} EncodeChars(b: seq<byte>)
    ensures forall i :: 0 <= i < |Encode(b)| ==> Encode(b)[i] in Alphabet || Encode(b)[i] == Pad
    decreases |b|
  {
    if |b| > 5 {
      var head, tail := EncodeGroup(b[..5]), Encode(b[5..]);
      EncodeChars(b[5..]);
      assert Encode(b) == head + tail;
      forall i | 0 <= i < |head + tail| ensures (head + tail)[i] in Alphabet || (head + tail)[i] == Pad {
        if i >= 8 {
          assert (head + tail)[i] == tail[i - 8];
        }
      }
    }
  }

  /** The encoding without its '=' padding. */
  function Unpadded(b: seq<byte>): string {
    RemoveAll(Encode(b), Pad)
  }

  /** Stripping the padding of one group leaves exactly its data characters. */
  lemma UnpaddedGroup(g: seq<byte>)
    requires 1 <= |g| <= 5
    ensures RemoveAll(EncodeGroup(g), Pad) == EncodeGroup(g)[..DataChars(|g|)]
  {
    var e := EncodeGroup(g);
    var c := DataChars(|g|);
    assert e == e[..c] + e[c..];
    RemoveAllAppend(e[..c], e[c..], Pad);
    assert Pad !in Alphabet;
    RemoveAllAbsent(e[..c], Pad);
    RemoveAllOnly(e[c..], Pad);
  }

  /**
   * Once '=' is stripped, the text of `n` bytes is ceil(8n/5) characters, all
   * of them in the base 32 alphabet.
   */
  lemma {:induction false} UnpaddedShape(b: seq<byte>)
    ensures |Unpadded(b)| == (8 * |b| + 4) / 5
    ensures forall i :: 0 <= i < |Unpadded(b)| ==> Unpadded(b)[i] in Alphabet
    decreases |b|
  {
    if b == [] {
    } else if |b| <= 5 {
      UnpaddedGroup(b);
    } else {
      UnpaddedGroup(b[..5]);
      RemoveAllAppend(EncodeGroup(b[..5]), Encode(b[5..]), Pad);
      UnpaddedShape(b[5..]);
    }
  }
}
