/** `uuidToCode15` of the admin page (`app/admin/page.tsx`): the numeric code
    the admin table and the CSV show for a referral instead of its UUID.  Two
    FNV-1a hashes of the trimmed id, with different seeds, are combined into
    `h1 * 10^6 + h2 % 10^6` and written in decimal, padded to 15 digits. */
module RowCode {
  import opened JsText
  import opened Fnv

  const SecondSeed: bv32 := 0x9747b28c
  const Million: nat := 1000000
  const CodeWidth: nat := 15
  /** 2^53: below it every integer is exact in a JavaScript number. */
  const SafeBound: nat := 0x20_0000_0000_0000

  /** `h1 * 1_000_000 + (h2 % 1_000_000)`. */
  function Combine(h1: nat, h2: nat): nat {
    h1 * Million + h2 % Million
  }

  /** The combined hash of a trimmed, non-empty id. */
  function CodeNum(s: string): nat {
    Combine(Hash(s, OffsetBasis) as int, Hash(s, SecondSeed) as int)
  }

  /** `uuidToCode15`: fifteen zeros for a blank id, otherwise the padded
      decimal numeral of `CodeNum`. */
  function Code15(uuid: string): string {
    var s := Trim(uuid);
    if s == [] then Repeat('0', CodeWidth)
    else PadStart(Dec(CodeNum(s)), CodeWidth, '0')
  }

  /** Two 32-bit hashes combine below 2^53, so the source's floating-point
      product and sum are exact and `String` prints an integer; the result
      reaches 10^15 exactly when the first hash reaches 10^9. */
  lemma CombineRange(h1: nat, h2: nat)
    requires h1 < 0x1_0000_0000
    ensures Combine(h1, h2) < 4295 * 1000000000000 < SafeBound
    ensures Combine(h1, h2) >= 1000000000000000 <==> h1 >= 1000000000
  {
    assert h2 % Million < Million;
    if h1 >= 1000000000 {
      assert h1 * Million >= 1000000000 * Million;
    } else {
      assert h1 * Million <= 999999999 * Million;
    }
    assert h1 * Million <= 4294967295 * Million;
  }

  /** The combined number gives back its parts. */
  lemma CombineSplits(h1: nat, h2: nat)
    ensures Combine(h1, h2) / Million == h1
    ensures Combine(h1, h2) % Million == h2 % Million
  {
  }

  lemma PowFifteen()
    ensures Pow10(15) == 1000000000000000
    ensures Pow10(16) == 10000000000000000
  {
    assert Pow10(4) == 10000;
    assert Pow10(8) == 100000000;
    assert Pow10(12) == 1000000000000;
  }

  /** A number below 10^16, padded to 15 digits: its numeral has 15 or 16
      digits, 16 exactly from 10^15 on. */
  lemma PaddedShape(n: nat)
    requires n < 10000000000000000
    ensures var r := PadStart(Dec(n), CodeWidth, '0');
      && AllDigits(r) && DecValue(r) == n
      && (|r| == 15 || |r| == 16)
      && (|r| == 16 <==> n >= 1000000000000000)
  {
    var d := Dec(n);
    var r := PadStart(d, CodeWidth, '0');
    DecValueLeadingZeros(|r| - |d|, d);
    PowFifteen();
    DecLength(n, 15);
    DecLength(n, 16);
  }

  /** The code is a numeral of 15 or 16 digits whose value is the combined
      hash (zero for a blank id); it has 16 digits exactly when the first
      hash reaches 10^9. */
  lemma Code15Shape(uuid: string)
    ensures var r := Code15(uuid);
      && AllDigits(r)
      && (Trim(uuid) == [] ==> |r| == CodeWidth && DecValue(r) == 0)
      && (Trim(uuid) != [] ==>
            && DecValue(r) == CodeNum(Trim(uuid))
            && (|r| == 15 || |r| == 16)
            && (|r| == 16 <==> Hash(Trim(uuid), OffsetBasis) as int >= 1000000000))
  {
    var s := Trim(uuid);
    if s == [] {
      ZerosValue(CodeWidth);
    } else {
      var h1: nat, h2: nat := Hash(s, OffsetBasis) as int, Hash(s, SecondSeed) as int;
      CombineRange(h1, h2);
      PaddedShape(Combine(h1, h2));
    }
  }

  /** The code gives back both hash parts it was made of: its value divided
      by 10^6 is the first hash, the remainder the second modulo 10^6. */
  lemma CodeSplits(uuid: string)
    requires Trim(uuid) != []
    ensures var r := Code15(uuid); var s := Trim(uuid);
      && AllDigits(r)
      && DecValue(r) / Million == Hash(s, OffsetBasis) as int
      && DecValue(r) % Million == Hash(s, SecondSeed) as int % Million
  {
    Code15Shape(uuid);
    var s := Trim(uuid);
    CombineSplits(Hash(s, OffsetBasis) as int, Hash(s, SecondSeed) as int);
  }

  /** Spaces around an id do not change its code. */
  lemma CodeOfTrimmed(uuid: string)
    ensures Code15(Trim(uuid)) == Code15(uuid)
  {
    TrimIdempotent(uuid);
  }
}
