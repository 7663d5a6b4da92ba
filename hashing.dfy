/**
 * The key hasher (`calculate_hash`) and the decimal rendering of its digest
 * (`u64::to_string`), which together name a key's record file.
 */
module Hashing {

  /** Rust's `u64`. */
  type U64 = x: nat | x < 0x1_0000_0000_0000_0000

  const U64Count: nat := 0x1_0000_0000_0000_0000

  /**
   * A deterministic 64-bit digest of a key. The standard library's
   * `DefaultHasher` is not visible, so every hasher is allowed: the model is a
   * function value, and the lemmas below hold whichever one the process uses.
   */
  type Hasher = string -> U64

  /**
   * `calculate_hash`: hash the key with a fresh `DefaultHasher` and finish.
   * Determinism holds by construction: the digest depends on the key and
   * the hasher only.
   */
  function CalculateHash(h: Hasher, key: string): (d: U64)
    ensures d as int < U64Count
  {
    h(key)
  }

  predicate IsDigit(c: char)
  {
    '0' <= c <= '9'
  }

  function DigitChar(n: nat): (c: char)
    requires n < 10
    ensures IsDigit(c)
  {
    ['0', '1', '2', '3', '4', '5', '6', '7', '8', '9'][n]
  }

  function DigitValue(c: char): (n: nat)
    requires IsDigit(c)
    ensures n < 10
  {
    c as int - '0' as int
  }

  lemma DigitRoundTrip(n: nat)
    requires n < 10
    ensures DigitValue(DigitChar(n)) == n
  {
  }

  /**
   * `to_string` of an unsigned integer: its decimal digits, most significant
   * first, with no sign and no leading zero (except for zero itself).
   */
  function Decimal(n: nat): (s: string)
    ensures |s| >= 1
    ensures forall i :: 0 <= i < |s| ==> IsDigit(s[i])
    ensures s[0] == '0' ==> n == 0 && s == "0"
    ensures '/' !in s
  {
    if n < 10 then [DigitChar(n)] else Decimal(n / 10) + [DigitChar(n % 10)]
  }

  /** The reading of a string of decimal digits as a number. */
  function ParseDecimal(s: string): (n: nat)
    requires forall i :: 0 <= i < |s| ==> IsDigit(s[i])
  {
    if s == [] then 0 else ParseDecimal(s[..|s| - 1]) * 10 + DigitValue(s[|s| - 1])
  }

  /** Reading the rendering of `n` gives back `n`. */
  lemma {:induction false} DecimalRoundTrip(n: nat)
    ensures ParseDecimal(Decimal(n)) == n
  {
    if n < 10 {
      DigitRoundTrip(n);
    } else {
      var s := Decimal(n);
      assert s[..|s| - 1] == Decimal(n / 10);
      DecimalRoundTrip(n / 10);
      DigitRoundTrip(n % 10);
    }
  }

  /** Distinct digests render to distinct names (and conversely). */
  lemma DecimalInjective(a: nat, b: nat)
    ensures Decimal(a) == Decimal(b) <==> a == b
  {
    if Decimal(a) == Decimal(b) {
      DecimalRoundTrip(a);
      DecimalRoundTrip(b);
    }
  }

  /**
   * The pigeonhole principle on `0..m`: `m + 1` arguments all mapped below
   * `m` cannot have pairwise distinct images.
   */
  lemma {:induction false} Pigeonhole(g: nat -> nat, m: nat)
    requires m >= 1
    requires forall i :: 0 <= i <= m ==> g(i) < m
    ensures exists i, j :: 0 <= i < j <= m && g(i) == g(j)
  {
    if m == 1 {
      assert g(0) == g(1);
    } else if exists i :: 0 <= i < m && g(i) == g(m) {
      var i :| 0 <= i < m && g(i) == g(m);
      assert g(i) == g(m);
    } else {
      // Move the value m - 1 onto the free slot g(m); arguments below m keep
      // pairwise equality, and all images now fall below m - 1.
      var h: nat -> nat := (i: nat) => if g(i) == m - 1 then g(m) else g(i);
      forall i | 0 <= i <= m - 1
        ensures h(i) < m - 1
      {
        assert g(i) != g(m);
      }
      Pigeonhole(h, m - 1);
      var i, j :| 0 <= i < j <= m - 1 && h(i) == h(j);
      assert g(i) != g(m) && g(j) != g(m);
      assert g(i) == g(j);
    }
  }

  /**
   * Whatever the hasher, two distinct keys share a digest: among the keys
   * "0", "1", ..., "18446744073709551616" two must collide. The digest is a
   * lossy index, never a true key.
   */
  lemma KeysCollide(h: Hasher)
    ensures exists k1, k2 :: k1 != k2 && CalculateHash(h, k1) == CalculateHash(h, k2)
  {
    var g := (i: nat) => CalculateHash(h, Decimal(i)) as nat;
    Pigeonhole(g, U64Count);
    var i, j :| 0 <= i < j <= U64Count && g(i) == g(j);
    DecimalInjective(i, j);
    assert Decimal(i) != Decimal(j) && CalculateHash(h, Decimal(i)) == CalculateHash(h, Decimal(j));
  }
}
