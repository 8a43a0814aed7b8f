/** Index arithmetic of the upcall queue's circular buffer: the buffer holds
    2^logSize slots, counters grow without bound, and a counter selects its
    slot with `counter & (2^logSize - 1)`. */
module RingIndex {

  function Pow2(k: nat): (r: nat)
    ensures r >= 1
  {
    if k == 0 then 1 else 2 * Pow2(k - 1)
  }

  /** Bitwise AND of two naturals, one bit at a time from the least significant end. */
  function BitAnd(a: nat, b: nat): nat
    decreases a
  {
    if a == 0 || b == 0 then 0
    else 2 * BitAnd(a / 2, b / 2) + (if a % 2 == 1 && b % 2 == 1 then 1 else 0)
  }

  /** Euclidean division is determined by its quotient-remainder decomposition. */
  lemma DivModUnique(a: int, n: int, q: int, m: int)
    requires 0 <= m < n && a == n * q + m
    ensures a / n == q && a % n == m
  {
    var q', m' := a / n, a % n;
    assert n * (q - q') == m' - m;
    if q - q' >= 1 {
      MulAtLeast(n, q - q');
    } else if q - q' <= -1 {
      MulAtLeast(n, q' - q);
    }
  }

  lemma MulAtLeast(n: int, d: int)
    requires n >= 0 && d >= 1
    ensures n * d >= n
  {
  }

  /** Halving a counter halves its remainder modulo an even modulus. */
  lemma ModDouble(a: nat, p: nat)
    requires p >= 1
    ensures a % (2 * p) == 2 * ((a / 2) % p) + a % 2
  {
    var q, r := a / 2, a % 2;
    var d, e := q / p, q % p;
    assert a == (2 * p) * d + (2 * e + r);
    DivModUnique(a, 2 * p, d, 2 * e + r);
  }

  /** Masking with 2^k - 1 is reduction modulo 2^k. */
  lemma {:induction false} BitAndLowMask(a: nat, k: nat)
    ensures BitAnd(a, Pow2(k) - 1) == a % Pow2(k)
  {
    if k == 0 {
      assert BitAnd(a, 0) == 0;
    } else if a == 0 {
      assert BitAnd(0, Pow2(k) - 1) == 0;
    } else {
      var p := Pow2(k - 1);
      var h := a / 2;
      assert Pow2(k) == 2 * p;
      MaskHalves(p);
      BitAndOddStep(a, 2 * p - 1);
      BitAndLowMask(h, k - 1);
      ModDouble(a, p);
      calc {
        BitAnd(a, Pow2(k) - 1);
        BitAnd(a, 2 * p - 1);
        2 * BitAnd(h, p - 1) + a % 2;
        2 * (h % p) + a % 2;
        a % (2 * p);
      }
    }
  }

  lemma MaskHalves(p: nat)
    requires p >= 1
    ensures (2 * p - 1) % 2 == 1 && (2 * p - 1) / 2 == p - 1
  {
  }

  /** One step of BitAnd when the mask's lowest bit is set. */
  lemma BitAndOddStep(a: nat, m: nat)
    requires a > 0 && m % 2 == 1
    ensures BitAnd(a, m) == 2 * BitAnd(a / 2, m / 2) + a % 2
  {
  }

  /** The slot a counter selects in a buffer of 2^logSize slots. */
  function SlotIndex(i: nat, logSize: nat): (r: nat)
    ensures r == i % Pow2(logSize)
    ensures r < Pow2(logSize)
  {
    BitAndLowMask(i, logSize);
    BitAnd(i, Pow2(logSize) - 1)
  }

  /** Fewer than 2^logSize consecutive counters select pairwise distinct slots. */
  lemma SlotsDistinct(i: nat, j: nat, logSize: nat)
    requires i < j < i + Pow2(logSize)
    ensures SlotIndex(i, logSize) != SlotIndex(j, logSize)
  {
    ModDistinct(i, j, Pow2(logSize));
  }

  lemma ModDistinct(i: nat, j: nat, n: nat)
    requires i < j < i + n
    ensures i % n != j % n
  {
    var q, m, d := i / n, i % n, j - i;
    assert i == n * q + m;
    assert j == n * q + (m + d);
    if m + d < n {
      DivModUnique(j, n, q, m + d);
    } else {
      assert n * (q + 1) == n * q + n;
      DivModUnique(j, n, q + 1, m + d - n);
    }
  }

  /** The live entries of a buffer: the n slots selected by the counters top .. top + n - 1. */
  function Live<T>(buf: seq<T>, logSize: nat, top: nat, n: nat): seq<T>
    requires |buf| == Pow2(logSize)
  {
    seq(n, k requires 0 <= k < n => buf[SlotIndex(top + k, logSize)])
  }

  /** Writing the slot of counter top + n, when fewer than 2^logSize entries are
      live, appends to the live entries without disturbing them. */
  lemma LiveAppend<T>(buf: seq<T>, logSize: nat, top: nat, n: nat, x: T)
    requires |buf| == Pow2(logSize) && n < Pow2(logSize)
    ensures Live(buf[SlotIndex(top + n, logSize) := x], logSize, top, n + 1)
            == Live(buf, logSize, top, n) + [x]
  {
    var buf' := buf[SlotIndex(top + n, logSize) := x];
    var lhs, rhs := Live(buf', logSize, top, n + 1), Live(buf, logSize, top, n) + [x];
    var b := SlotIndex(top + n, logSize);
    assert |lhs| == |rhs| == n + 1;
    forall k | 0 <= k < n + 1
      ensures lhs[k] == rhs[k]
    {
      var sk := SlotIndex(top + k, logSize);
      assert lhs[k] == buf'[sk];
      if k < n {
        SlotsDistinct(top + k, top + n, logSize);
        assert sk != b;
        assert rhs[k] == buf[sk];
      } else {
        assert sk == b;
      }
    }
  }

  /** Dropping the newest live entry leaves the others in place. */
  lemma LiveShrink<T>(buf: seq<T>, logSize: nat, top: nat, n: nat)
    requires |buf| == Pow2(logSize) && n > 0
    ensures Live(buf, logSize, top, n - 1) == Live(buf, logSize, top, n)[..n - 1]
    ensures Live(buf, logSize, top, n)[n - 1] == buf[SlotIndex(top + n - 1, logSize)]
  {
  }

  /** A sequence with f applied to each entry. */
  function MapAll<T>(f: T -> T, s: seq<T>): (r: seq<T>)
    ensures |r| == |s|
    ensures forall k :: 0 <= k < |s| ==> r[k] == f(s[k])
  {
    seq(|s|, k requires 0 <= k < |s| => f(s[k]))
  }
}
