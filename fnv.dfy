/** `fnv1a32` of the admin page (`app/admin/page.tsx`): the 32-bit FNV-1a
    hash, folded over the characters of a string rather than over its
    octets.  The page folds UTF-16 code units; a `char` here is one Unicode
    scalar value, so the two agree on text inside the Basic Multilingual
    Plane.  `Math.imul(h, p) >>> 0` is the product
    modulo 2^32, which is `bv32` multiplication. */
module Fnv {

  const OffsetBasis: bv32 := 0x811c9dc5
  const Prime: bv32 := 0x01000193

  /** `str.charCodeAt(i)` for a character of the Basic Multilingual Plane. */
  function CodeUnit(c: char): bv32 {
    c as int as bv32
  }

  /** One step: xor in the code unit, then multiply by the prime. */
  function Step(h: bv32, c: char): bv32 {
    (h ^ CodeUnit(c)) * Prime
  }

  /** The hash of `s` from `seed`: the steps over `s`, left to right. */
  function Hash(s: string, seed: bv32): bv32
    decreases |s|
  {
    if s == [] then seed else Step(Hash(s[..|s| - 1], seed), s[|s| - 1])
  }

  /** The loop of `fnv1a32`. */
  method Fnv1a32(str: string, seed: bv32) returns (h: bv32)
    ensures h == Hash(str, seed)
  {
    h := seed;
    var i := 0;
    while i < |str|
      invariant 0 <= i <= |str|
      invariant h == Hash(str[..i], seed)
    {
      assert str[..i + 1][..i] == str[..i];
      h := Step(h, str[i]);
      i := i + 1;
    }
    assert str[..i] == str;
  }

  /** Hashing a concatenation is hashing the second part from the hash of
      the first: the fold can be resumed. */
  lemma {:induction false} HashAppend(a: string, b: string, seed: bv32)
    ensures Hash(a + b, seed) == Hash(b, Hash(a, seed))
    decreases |b|
  {
    if b == [] {
      assert a + b == a;
    } else {
      var b' := b[..|b| - 1];
      assert (a + b)[..|a + b| - 1] == a + b';
      HashAppend(a, b', seed);
    }
  }

  /** The hash of one character from the offset basis, and the published
      FNV-1a test value for "a". */
  lemma HashOfA(s: string)
    requires s == "a"
    ensures Hash(s, OffsetBasis) == Step(OffsetBasis, 'a')
    ensures Hash(s, OffsetBasis) == 0xe40c292c
  {
    assert s[..0] == [];
  }

  /** The published FNV-1a test value for "foobar", through the hash of
      each prefix. */
  lemma HashOfFoobar()
    ensures Hash("foobar", OffsetBasis) == 0xbf9cf968
  {
    HashSnoc("", 'f', OffsetBasis);
    assert "" + ['f'] == "f";
    HashSnoc("f", 'o', OffsetBasis);
    assert "f" + ['o'] == "fo";
    HashSnoc("fo", 'o', OffsetBasis);
    assert "fo" + ['o'] == "foo";
    HashSnoc("foo", 'b', OffsetBasis);
    assert "foo" + ['b'] == "foob";
    HashSnoc("foob", 'a', OffsetBasis);
    assert "foob" + ['a'] == "fooba";
    HashSnoc("fooba", 'r', OffsetBasis);
    assert "fooba" + ['r'] == "foobar";
    StepsFoo();
    StepsBa();
    StepR();
  }

  /** The steps of "foobar" on concrete values, a few per lemma. */
  lemma StepsFoo()
    ensures Step(OffsetBasis, 'f') == 0xe30c2799
    ensures Step(0xe30c2799, 'o') == 0x6222e842
    ensures Step(0x6222e842, 'o') == 0xa9f37ed7
  {
  }

  lemma StepsBa()
    ensures Step(0xa9f37ed7, 'b') == 0x3f5076ef
    ensures Step(0x3f5076ef, 'a') == 0x39aaa18a
  {
  }

  lemma StepR()
    ensures Step(0x39aaa18a, 'r') == 0xbf9cf968
  {
  }

  /** Hashing one more character is one more step. */
  lemma HashSnoc(a: string, c: char, seed: bv32)
    ensures Hash(a + [c], seed) == Step(Hash(a, seed), c)
  {
    assert (a + [c])[..|a|] == a;
  }
}
