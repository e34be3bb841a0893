/** The partition hash `hash` of the filter: 32-bit FNV-1a, as Go's
    `hash/fnv.New32a` computes it over the bytes of a string. */
module Fnv {
  import opened GoText

  const OffsetBasis32: bv32 := 2166136261
  const Prime32: bv32 := 16777619

  /** One round: mix the byte in with exclusive or, then multiply by the FNV
      prime. Multiplication of `bv32` values is modulo 2^32. */
  function Round(h: bv32, b: Byte): bv32 {
    (h ^ b as bv32) * Prime32
  }

  /** Feeding `data` to a hash whose state is `h`, byte by byte from the front. */
  function HashFrom(h: bv32, data: Bytes): bv32
    decreases |data|
  {
    if data == [] then h else HashFrom(Round(h, data[0]), data[1..])
  }

  /** `hash(s)`: a fresh FNV-1a state fed all the bytes of `s`. */
  function Hash(s: Bytes): (r: bv32)
    ensures s == [] ==> r == 2166136261
  {
    HashFrom(OffsetBasis32, s)
  }

  /** Writing `s` then `t` leaves the same state as writing `s + t` at once. */
  lemma {:induction false} HashFromConcat(h: bv32, s: Bytes, t: Bytes)
    ensures HashFrom(h, s + t) == HashFrom(HashFrom(h, s), t)
    decreases |s|
  {
    if s == [] {
      assert s + t == t;
    } else {
      assert (s + t)[0] == s[0];
      assert (s + t)[1..] == s[1..] + t;
      HashFromConcat(Round(h, s[0]), s[1..], t);
    }
  }

  /** The hash is a left fold: one more byte is one more round on the hash so far. */
  lemma HashSnoc(s: Bytes, b: Byte)
    ensures Hash(s + [b]) == Round(Hash(s), b)
  {
    HashFromConcat(OffsetBasis32, s, [b]);
    assert [b][1..] == [];
  }

  /** Published FNV-1a 32 test vector for "a", which fixes the two constants. */
  lemma HashOfA()
    ensures Hash(Ascii("a")) == 0xe40c292c
  {
    assert Ascii("a") == [0x61];
  }

  /** Published FNV-1a 32 test vector for "foobar". */
  lemma HashOfFoobar()
    ensures Hash([0x66, 0x6f, 0x6f, 0x62, 0x61, 0x72]) == 0xbf9cf968
  {
  }
}
