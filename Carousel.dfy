/**
  The rotating index shared by the two carousels of the home page
  (components/home/book-showcase.tsx and components/home/testimonial-section.tsx):
  "next" is `(i + 1) % n` and "previous" is `(i - 1 + n) % n`, with JavaScript's
  remainder, whose sign follows the dividend.
*/
module Carousel {

  /** `a % n` in JavaScript for a positive `n`. */
  function JsRem(a: int, n: int): (r: int)
    requires n > 0
    ensures -n < r < n
    ensures a >= 0 ==> r == a % n
  {
    if a >= 0 then a % n else -((-a) % n)
  }

  /** The index after "next". */
  function Next(i: int, n: int): (r: int)
    requires n > 0
    ensures 0 <= i < n ==> 0 <= r < n
  {
    JsRem(i + 1, n)
  }

  /** The index after "previous". */
  function Prev(i: int, n: int): (r: int)
    requires n > 0
    ensures 0 <= i < n ==> 0 <= r < n
  {
    JsRem(i - 1 + n, n)
  }

  /** A positive multiple of `n` is at least `n`. */
  lemma {:induction false} MultipleFar(d: nat, n: int)
    requires n > 0 && d > 0
    ensures d * n >= n
  {
    if d > 1 {
      MultipleFar(d - 1, n);
      assert d * n == (d - 1) * n + n;
    }
  }

  /** The remainder is the one of the division `a == q * n + r`. */
  lemma ModUnique(a: int, n: int, q: int, r: int)
    requires n > 0 && 0 <= r < n && a == q * n + r
    ensures a % n == r
  {
    var q', r' := a / n, a % n;
    assert (q - q') * n == r' - r by {
      assert q * n - q' * n == (q - q') * n;
    }
    if q > q' {
      MultipleFar(q - q', n);
    } else if q < q' {
      MultipleFar(q' - q, n);
    }
  }

  /** On a valid index, "next" moves one ahead and wraps from the last to the first,
      "previous" moves one back and wraps from the first to the last; each undoes the
      other and both stay in range. */
  lemma NextPrev(i: int, n: int)
    requires 0 <= i < n
    ensures Next(i, n) == if i == n - 1 then 0 else i + 1
    ensures Prev(i, n) == if i == 0 then n - 1 else i - 1
    ensures Prev(Next(i, n), n) == i && Next(Prev(i, n), n) == i
  {
    if i == n - 1 { ModUnique(i + 1, n, 1, 0); } else { ModUnique(i + 1, n, 0, i + 1); }
    if i == 0 { ModUnique(i - 1 + n, n, 0, n - 1); } else { ModUnique(i - 1 + n, n, 1, i - 1); }
    var j := Next(i, n);
    if j == 0 { ModUnique(j - 1 + n, n, 0, n - 1); } else { ModUnique(j - 1 + n, n, 1, j - 1); }
    var h := Prev(i, n);
    if h == n - 1 { ModUnique(h + 1, n, 1, 0); } else { ModUnique(h + 1, n, 0, h + 1); }
  }

  /** `k` presses of "next". */
  function NextTimes(i: int, n: int, k: nat): int
    requires n > 0
  {
    if k == 0 then i else Next(NextTimes(i, n, k - 1), n)
  }

  /** `k` presses of "next" from a valid index land on a valid index `k` places further
      around the ring: `i + k` is some number of full turns plus that index. */
  lemma {:induction false} NextTimesTurns(i: int, n: int, k: nat) returns (turns: int)
    requires 0 <= i < n
    ensures 0 <= NextTimes(i, n, k) < n
    ensures i + k == turns * n + NextTimes(i, n, k)
  {
    if k == 0 {
      turns := 0;
    } else {
      var t := NextTimesTurns(i, n, k - 1);
      var j := NextTimes(i, n, k - 1);
      NextPrev(j, n);
      if j == n - 1 {
        turns := t + 1;
        assert (t + 1) * n == t * n + n;
      } else {
        turns := t;
      }
    }
  }

  /** So `k` presses of "next" move `k` places around the ring. */
  lemma NextTimesRotates(i: int, n: int, k: nat)
    requires 0 <= i < n
    ensures NextTimes(i, n, k) == (i + k) % n
  {
    var turns := NextTimesTurns(i, n, k);
    ModUnique(i + k, n, turns, NextTimes(i, n, k));
  }

  /** And `n` presses come back to the start. */
  lemma FullTurn(i: int, n: int)
    requires 0 <= i < n
    ensures NextTimes(i, n, n) == i
  {
    NextTimesRotates(i, n, n);
    ModUnique(i + n, n, 1, i);
  }
}
