/** Digit vectors read as numbers in a fixed base. A lexicographically smaller
    vector of the same length has a smaller value, which turns the depth-first
    search order into a decreasing natural number. */
module Ranks {

  function Pow(b: nat, e: nat): nat
  {
    if e == 0 then 1 else b * Pow(b, e - 1)
  }

  /** Every entry is a digit of base b. */
  predicate Digits(d: seq<int>, b: nat)
  {
    forall i :: 0 <= i < |d| ==> 0 <= d[i] < b
  }

  /** The value of d in base b, most significant digit first. */
  function Rank(d: seq<int>, b: nat): int
  {
    if d == [] then 0 else d[0] * Pow(b, |d| - 1) + Rank(d[1..], b)
  }

  lemma MulLeft(x: int, y: int, p: nat)
    requires x <= y
    ensures x * p <= y * p
  {
    assert y * p - x * p == (y - x) * p;
  }

  /** A vector of digits is a number below b to the power of its length. */
  lemma {:induction false} RankBound(d: seq<int>, b: nat)
    requires Digits(d, b)
    ensures 0 <= Rank(d, b) < Pow(b, |d|)
  {
    if d != [] {
      var p := Pow(b, |d| - 1);
      assert Digits(d[1..], b) by {
        forall i | 0 <= i < |d| - 1 ensures 0 <= d[1..][i] < b {
          assert d[1..][i] == d[i + 1];
        }
      }
      RankBound(d[1..], b);
      MulLeft(0, d[0], p);
      MulLeft(d[0], b - 1, p);
      assert (b - 1) * p + p == b * p;
    }
  }

  /** Vectors of equal length that agree before position j and are smaller
      at j compare the same way as numbers. */
  lemma {:induction false} LexRank(a: seq<int>, c: seq<int>, b: nat, j: nat)
    requires |a| == |c| && Digits(a, b) && Digits(c, b)
    requires j < |a| && a[..j] == c[..j] && a[j] < c[j]
    ensures Rank(a, b) < Rank(c, b)
  {
    assert Digits(a[1..], b) && Digits(c[1..], b) by {
      forall i | 0 <= i < |a| - 1 ensures 0 <= a[1..][i] < b && 0 <= c[1..][i] < b {
        assert a[1..][i] == a[i + 1] && c[1..][i] == c[i + 1];
      }
    }
    var p := Pow(b, |a| - 1);
    if j == 0 {
      RankBound(a[1..], b);
      RankBound(c[1..], b);
      MulLeft(a[0] + 1, c[0], p);
      assert (a[0] + 1) * p == a[0] * p + p;
    } else {
      assert a[0] == a[..j][0] == c[..j][0] == c[0];
      assert a[1..][..j - 1] == a[1..j] == c[1..j] == c[1..][..j - 1];
      LexRank(a[1..], c[1..], b, j - 1);
    }
  }
}
