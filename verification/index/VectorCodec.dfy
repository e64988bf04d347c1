/** The stored form of a face vector: little-endian 32-bit words, the words themselves opaque. */
module VectorCodec {
  import opened Prelude

  newtype byte = b: int | 0 <= b < 256

  /** A 32-bit float as its four bytes, lowest first. */
  datatype Word = Word(b0: byte, b1: byte, b2: byte, b3: byte)

  function Encode(v: seq<Word>): (raw: seq<byte>)
    ensures |raw| == 4 * |v|
  {
    if v == [] then [] else [v[0].b0, v[0].b1, v[0].b2, v[0].b3] + Encode(v[1..])
  }

  /** `np.frombuffer` on a whole number of words. */
  function Words(raw: seq<byte>): (v: seq<Word>)
    requires |raw| % 4 == 0
    ensures 4 * |v| == |raw|
  {
    if raw == [] then [] else [Word(raw[0], raw[1], raw[2], raw[3])] + Words(raw[4..])
  }

  /** `decode_vector`. */
  function Decode(raw: seq<byte>, dim: nat): Option<seq<Word>> {
    if raw == [] then None
    else if |raw| % 4 != 0 then None
    else
      var v := Words(raw);
      if |v| != dim then None else Some(v)
  }

  lemma {:induction false} WordsOfEncode(v: seq<Word>)
    ensures Words(Encode(v)) == v
  {
    if v != [] {
      assert Encode(v)[4..] == Encode(v[1..]);
      WordsOfEncode(v[1..]);
    }
  }

  /** The bytes of the i-th word are at 4i, lowest first. */
  lemma {:induction false} EncodeAt(v: seq<Word>, i: nat)
    requires i < |v|
    ensures Encode(v)[4 * i .. 4 * i + 4] == [v[i].b0, v[i].b1, v[i].b2, v[i].b3]
    decreases i
  {
    if i > 0 {
      EncodeAt(v[1..], i - 1);
      assert Encode(v)[4 * i .. 4 * i + 4] == Encode(v[1..])[4 * (i - 1) .. 4 * (i - 1) + 4];
    }
  }

  lemma {:induction false} EncodeOfWords(raw: seq<byte>)
    requires |raw| % 4 == 0
    ensures Encode(Words(raw)) == raw
  {
    if raw != [] {
      EncodeOfWords(raw[4..]);
      assert Words(raw)[1..] == Words(raw[4..]);
    }
  }

  lemma DecodeOf(raw: seq<byte>, v: seq<Word>, dim: nat)
    requires |raw| == 4 * |v| && Words(raw) == v
    ensures Decode(raw, dim) == if raw != [] && |v| == dim then Some(v) else None
  {
  }

  /** A stored vector reads back as itself exactly when it is non-empty and has the configured dimension. */
  lemma RoundTripIff(v: seq<Word>, dim: nat)
    ensures Decode(Encode(v), dim) == if v != [] && |v| == dim then Some(v) else None
  {
    WordsOfEncode(v);
    DecodeOf(Encode(v), v, dim);
  }

  /** Nothing but the encoding of a vector decodes to it. */
  lemma DecodeIsInjective(raw: seq<byte>, dim: nat)
    ensures Decode(raw, dim).Some? ==> Encode(Decode(raw, dim).value) == raw && |Decode(raw, dim).value| == dim
  {
    if raw != [] && |raw| % 4 == 0 { EncodeOfWords(raw); }
  }
}
