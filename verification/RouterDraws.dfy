/** The numbers behind the words: 64 bits, least significant first, are the integers below 2^64, the shifts of the
    generator are multiplication and division by powers of two, and taking the state modulo n draws every index
    from as nearly the same number of words as possible. */
module RouterDraws {
  import opened R = Router

  function Pow2(k: nat): (p: nat)
    ensures p > 0
  {
    if k == 0 then 1 else 2 * Pow2(k - 1)
  }

  lemma {:induction false} Pow2Sum(a: nat, b: nat)
    ensures Pow2(a + b) == Pow2(a) * Pow2(b)
  {
    if a > 0 {
      Pow2Sum(a - 1, b);
    }
  }

  lemma {:induction false} ValueBound(bits: seq<bool>)
    ensures ValueOf(bits) < Pow2(|bits|)
  {
    if bits != [] {
      ValueBound(bits[1..]);
    }
  }

  lemma {:induction false} ValueConcat(a: seq<bool>, b: seq<bool>)
    ensures ValueOf(a + b) == ValueOf(a) + Pow2(|a|) * ValueOf(b)
  {
    if a == [] {
      assert a + b == b;
    } else {
      ValueConcat(a[1..], b);
      assert (a + b)[1..] == a[1..] + b;
      Double(ValueOf(a[1..]), Pow2(|a| - 1), ValueOf(b));
    }
  }

  lemma Double(x: nat, p: nat, y: nat)
    ensures 2 * (x + p * y) == 2 * x + 2 * p * y
  {
  }

  lemma {:induction false} ZerosAreZero(k: nat)
    ensures ValueOf(seq(k, i => false)) == 0
  {
    if k > 0 {
      assert seq(k, i => false)[1..] == seq(k - 1, i => false);
      ZerosAreZero(k - 1);
    }
  }

  /** Different words are different numbers. */
  lemma {:induction false} ValueInjective(a: seq<bool>, b: seq<bool>)
    requires |a| == |b| && ValueOf(a) == ValueOf(b)
    ensures a == b
  {
    if a != [] {
      assert ValueOf(a) % 2 == (if a[0] then 1 else 0) && ValueOf(b) % 2 == (if b[0] then 1 else 0);
      ValueInjective(a[1..], b[1..]);
      assert a == [a[0]] + a[1..] && b == [b[0]] + b[1..];
    }
  }

  function BitsOf(v: nat, n: nat): (bits: seq<bool>)
    ensures |bits| == n
  {
    if n == 0 then [] else [v % 2 == 1] + BitsOf(v / 2, n - 1)
  }

  /** And every number below 2^n is one. */
  lemma {:induction false} BitsHaveValue(v: nat, n: nat)
    requires v < Pow2(n)
    ensures ValueOf(BitsOf(v, n)) == v
  {
    if n > 0 {
      BitsHaveValue(v / 2, n - 1);
      assert BitsOf(v, n)[1..] == BitsOf(v / 2, n - 1);
    }
  }

  // ----- the shifts -----

  lemma ShlValue(w: Word, k: nat)
    requires k <= 64
    ensures ValueOf(Shl(w, k)) == ValueOf(w) * Pow2(k) % Pow2(64)
  {
    hide ValueOf, Pow2;
    var zeros, low, high := seq(k, i => false), w[..64 - k], w[64 - k..];
    assert Shl(w, k) == zeros + low;
    assert w == low + high;
    ValueConcat(zeros, low);
    ZerosAreZero(k);
    ValueConcat(low, high);
    ValueBound(low);
    Pow2Sum(k, 64 - k);
    ShiftArithmetic(ValueOf(low), ValueOf(high), Pow2(k), Pow2(64 - k));
  }

  lemma ShiftArithmetic(low: nat, high: nat, p: nat, q: nat)
    requires low < q && p > 0
    ensures p * q > 0 && (low + q * high) * p % (p * q) == p * low
  {
    assert p * q > 0 && p * low < p * q by {
      assert p * (q - low) > 0;
    }
    assert (low + q * high) * p == p * low + (p * q) * high;
    RemainderOf(p * low, high, p * q);
  }

  lemma RemainderOf(r: nat, x: nat, m: nat)
    requires r < m
    ensures (r + m * x) % m == r && (r + m * x) / m == x
  {
    var y := r + m * x;
    assert y == m * (y / m) + y % m;
    var d := y / m - x;
    assert m * d == r - y % m;
    MultipleIsLarge(m, d);
  }

  lemma MultipleIsLarge(m: int, d: int)
    requires m > 0
    ensures d >= 1 ==> m * d >= m
    ensures d <= -1 ==> m * d <= -m
  {
    if d >= 1 {
      assert m * (d - 1) >= 0;
    } else if d <= -1 {
      assert m * (-1 - d) >= 0;
    }
  }

  lemma ShrValue(w: Word, k: nat)
    requires k <= 64
    ensures ValueOf(Shr(w, k)) == ValueOf(w) / Pow2(k)
  {
    hide ValueOf, Pow2;
    var zeros, low, high := seq(k, i => false), w[..k], w[k..];
    assert Shr(w, k) == high + zeros;
    assert w == low + high;
    ValueConcat(high, zeros);
    ZerosAreZero(k);
    ValueConcat(low, high);
    ValueBound(low);
    RemainderOf(ValueOf(low), ValueOf(high), Pow2(k));
  }

  /** The amounts of the shifts, seen on the word one: after a step its bits 0, 6, 13, 17, 23 and 30 are set. */
  lemma StepFromOne(one: Word)
    requires forall i :: 0 <= i < 64 ==> (one[i] <==> i == 0)
    ensures forall i :: 0 <= i < 64 ==> (XorShift(one)[i] <==> i in {0, 6, 13, 17, 23, 30})
  {
    var s1 := Xor(one, Shl(one, 13));
    assert forall i :: 0 <= i < 64 ==> (s1[i] <==> i == 0 || i == 13);
    var s2 := Xor(s1, Shr(s1, 7));
    assert forall i :: 0 <= i < 64 ==> (s2[i] <==> i == 0 || i == 6 || i == 13);
  }

  // ----- how often each index is drawn -----

  /** The words with a value below `m` from which index `r` of `n` is drawn. */
  ghost function DrawnBelow(m: nat, n: nat, r: nat): set<seq<bool>>
    requires n > 0
  {
    if m == 0 then {}
    else DrawnBelow(m - 1, n, r) + if (m - 1) % n == r then {BitsOf(m - 1, 64)} else {}
  }

  lemma {:induction false} DrawnBelowAre(m: nat, n: nat, r: nat)
    requires n > 0 && r < n && m <= Pow2(64)
    ensures forall w: Word :: w in DrawnBelow(m, n, r) <==> ValueOf(w) < m && ValueOf(w) % n == r
    ensures |DrawnBelow(m, n, r)| == m / n + if r < m % n then 1 else 0
    decreases m
  {
    hide Pow2, ValueOf, BitsOf;
    if m > 0 {
      DrawnBelowAre(m - 1, n, r);
      BitsHaveValue(m - 1, 64);
      var last: Word := BitsOf(m - 1, 64);
      forall w: Word ensures w in DrawnBelow(m, n, r) <==> ValueOf(w) < m && ValueOf(w) % n == r {
        if ValueOf(w) == m - 1 {
          ValueInjective(w, last);
        }
      }
      assert last !in DrawnBelow(m - 1, n, r);
      OneMoreNumber(m - 1, n, r);
    }
  }

  lemma OneMoreNumber(m: nat, n: nat, r: nat)
    requires n > 0 && r < n
    ensures ((m + 1) / n + if r < (m + 1) % n then 1 else 0) ==
            (m / n + if r < m % n then 1 else 0) + if m % n == r then 1 else 0
  {
    var q, t := m / n, m % n;
    assert m == n * q + t;
    if t + 1 < n {
      RemainderOf(t + 1, q, n);
    } else {
      assert n * (q + 1) == n * q + n;
      RemainderOf(0, q + 1, n);
    }
  }

  /** The words from which the generator draws index `r` of `n`. */
  ghost function WordsDrawing(n: nat, r: nat): set<seq<bool>>
    requires n > 0
  {
    DrawnBelow(Pow2(64), n, r)
  }

  /** Of all 2^64 words, floor or ceiling of 2^64 / n draw any given index, so the n * n pairs of indices are as
      nearly equally likely as the words are. */
  lemma DrawsAreEven(n: nat, r: nat)
    requires n > 0 && r < n
    ensures forall w: Word :: w in WordsDrawing(n, r) <==> ValueOf(w) % n == r
    ensures |WordsDrawing(n, r)| == Pow2(64) / n + if r < Pow2(64) % n then 1 else 0
  {
    hide Pow2, DrawnBelow;
    DrawnBelowAre(Pow2(64), n, r);
    forall w: Word ensures ValueOf(w) < Pow2(64) {
      ValueBound(w);
    }
  }
}
