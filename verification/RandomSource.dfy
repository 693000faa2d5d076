/** `randomInt`: four bytes from the system's random source reduced modulo `n`. */
module RandomSource {
  import opened Collections

  type Byte = b: int | 0 <= b < 256

  /** One read of four bytes; the read itself may fail. */
  datatype Draw = Bytes(b0: Byte, b1: Byte, b2: Byte, b3: Byte) | Unreadable

  datatype RandomError = NotPositive | ReadFailed

  const WORD: int := 0x1_0000_0000

  /** The four bytes as one big-endian number. A 64-bit `int` holds it without wrapping. */
  function Word(d: Draw): (v: int)
    requires d.Bytes?
    ensures 0 <= v < WORD
  {
    d.b0 * 0x100_0000 + d.b1 * 0x1_0000 + d.b2 * 0x100 + d.b3
  }

  function Draws(v: int): (d: Draw)
    requires 0 <= v < WORD
    ensures d.Bytes?
  {
    var high := v / 0x1_0000;
    var low := v % 0x1_0000;
    Bytes(high / 0x100, high % 0x100, low / 0x100, low % 0x100)
  }

  lemma SplitPair(q: int)
    requires 0 <= q < 0x1_0000
    ensures q == q / 0x100 * 0x100 + q % 0x100 && 0 <= q / 0x100 < 0x100
  {
  }

  /** `Draws` gives the bytes of a word. */
  lemma WordOfDraws(v: int)
    requires 0 <= v < WORD
    ensures Word(Draws(v)) == v
  {
    var high, low := v / 0x1_0000, v % 0x1_0000;
    assert v == high * 0x1_0000 + low && 0 <= high < 0x1_0000;
    SplitPair(high);
    SplitPair(low);
    var h, l := high / 0x100, low / 0x100;
    assert Draws(v) == Bytes(h, high % 0x100, l, low % 0x100);
    assert h * 0x100_0000 == h * 0x100 * 0x1_0000;
  }

  /** The bytes stand in the word from the most significant down. */
  lemma WordBigEndian(d: Draw)
    requires d.Bytes?
    ensures d.b0 == Word(d) / 0x100_0000 && d.b1 == Word(d) / 0x1_0000 % 0x100
    ensures d.b2 == Word(d) / 0x100 % 0x100 && d.b3 == Word(d) % 0x100
  {
    var w := Word(d);
    var high, mid := d.b0 * 0x100 + d.b1, d.b0 * 0x1_0000 + d.b1 * 0x100 + d.b2;
    assert w == mid * 0x100 + d.b3 && w == high * 0x1_0000 + (d.b2 * 0x100 + d.b3);
    assert mid == high * 0x100 + d.b2;
  }

  /** Different bytes give different words: with `Draws`, a bijection with 0, ..., 2^32 - 1. */
  lemma WordInjective(d: Draw, e: Draw)
    requires d.Bytes? && e.Bytes? && Word(d) == Word(e)
    ensures d == e
  {
  }

  function RandomInt(n: int, d: Draw): (r: Result<int, RandomError>)
    ensures r.Ok? <==> n > 0 && d.Bytes?
    ensures r.Ok? ==> 0 <= r.value < n
    ensures r.Err? ==> r.error == if n <= 0 then NotPositive else ReadFailed
  {
    if n <= 0 then Err(NotPositive)
    else if d.Unreadable? then Err(ReadFailed)
    else Ok(Word(d) % n)
  }

  /** Every value of a range that fits in one word is produced by some draw. */
  lemma EveryValueDrawn(n: int, v: int)
    requires 0 <= v < n <= WORD
    ensures RandomInt(n, Draws(v)) == Ok(v)
  {
    WordOfDraws(v);
    SmallModulo(v, n);
  }

  /** The result is congruent to the word, which with its range determines it. */
  lemma RandomIntCongruent(n: int, d: Draw) returns (q: int)
    requires n > 0 && d.Bytes?
    ensures Word(d) == n * q + RandomInt(n, d).value
  {
    q := Word(d) / n;
  }

  /** For how many of the words 0, ..., m-1 the outcome is `r`. */
  ghost function Hits(m: nat, n: int, r: int): (c: nat)
    requires m <= WORD
  {
    if m == 0 then 0 else Hits(m - 1, n, r) + (if RandomInt(n, Draws(m - 1)) == Ok(r) then 1 else 0)
  }

  lemma SmallModulo(v: int, n: int)
    requires 0 <= v < n
    ensures v % n == v && v / n == 0
  {
  }

  lemma NoSmallMultiple(n: int, k: int)
    requires n > 0 && -n < n * k < n
    ensures k == 0
  {
  }

  lemma DivModUnique(m: int, n: int, q: int, r: int)
    requires n > 0 && 0 <= r < n && m == n * q + r
    ensures m / n == q && m % n == r
  {
    var q', r' := m / n, m % n;
    assert m == n * q' + r';
    assert n * (q - q') == n * q - n * q';
    NoSmallMultiple(n, q - q');
  }

  lemma DivModStep(m: nat, n: int)
    requires n > 0
    ensures if m % n + 1 == n
            then (m + 1) / n == m / n + 1 && (m + 1) % n == 0
            else (m + 1) / n == m / n && (m + 1) % n == m % n + 1
  {
    var q, r := m / n, m % n;
    assert m == n * q + r;
    if r + 1 == n {
      assert n * (q + 1) == n * q + n;
      DivModUnique(m + 1, n, q + 1, 0);
    } else {
      DivModUnique(m + 1, n, q, r + 1);
    }
  }

  lemma {:induction false} HitsExact(m: nat, n: int, r: int)
    requires m <= WORD && 0 <= r < n
    ensures Hits(m, n, r) == m / n + (if r < m % n then 1 else 0)
  {
    if m > 0 {
      HitsExact(m - 1, n, r);
      WordOfDraws(m - 1);
      hide Draws, Word;
      DivModStep(m - 1, n);
    } else {
      DivModUnique(0, n, 0, 0);
    }
  }

  /** Over all 2^32 equally likely words, any two results of `RandomInt` occur equally often up to one. */
  lemma NearlyUniform(n: int, r: int, t: int)
    requires 0 <= r < n && 0 <= t < n
    ensures -1 <= Hits(WORD, n, r) - Hits(WORD, n, t) <= 1
  {
    HitsExact(WORD, n, r);
    HitsExact(WORD, n, t);
  }

  /** The same computation where `int` has 32 bits: the word wraps, is negated if negative
      (which leaves the least value as it is), and Go's remainder takes the dividend's sign. */
  function RandomInt32(n: int, d: Draw): (r: int)
    requires 0 < n < 0x8000_0000 && d.Bytes?
  {
    var w := Word(d);
    var v := if w < 0x8000_0000 then w else w - WORD;
    var a := if v < 0 && v != -0x8000_0000 then -v else v;
    if a >= 0 then a % n else -((-a) % n)
  }

  /** On a 32-bit platform the range promise fails for exactly one word, and only when `n` does
      not divide 2^31. */
  lemma RandomInt32InRangeIff(n: int, d: Draw)
    requires 0 < n < 0x8000_0000 && d.Bytes?
    ensures 0 <= RandomInt32(n, d) < n <==> Word(d) != 0x8000_0000 || 0x8000_0000 % n == 0
  {
  }

  /** Elsewhere a 32-bit platform gives what a 64-bit one gives for the word or its complement to 2^32. */
  lemma RandomInt32Value(n: int, d: Draw)
    requires 0 < n < 0x8000_0000 && d.Bytes?
    ensures Word(d) < 0x8000_0000 ==> Ok(RandomInt32(n, d)) == RandomInt(n, d)
    ensures Word(d) > 0x8000_0000 ==> Ok(RandomInt32(n, d)) == RandomInt(n, Draws(WORD - Word(d)))
    ensures Word(d) == 0x8000_0000 ==> Ok(-RandomInt32(n, d)) == RandomInt(n, d)
  {
    if Word(d) > 0x8000_0000 {
      WordOfDraws(WORD - Word(d));
    }
  }
}
