/** Residues and how often they fall into a window: what round robin and rotation rest on. */
module Windows {
  import opened Common

  lemma TimesDifference(n: int, x: int, y: int)
    requires n > 0 && x < y
    ensures n * y - n * x >= n
  {
    assert n * y - n * x == n * (y - x);
    assert n * (y - x) == n + n * (y - x - 1);
    assert n * (y - x - 1) >= 0;
  }

  lemma QuotientUnique(n: int, x: int, r: int, y: int, s: int)
    requires n > 0 && 0 <= r < n && 0 <= s < n && n * x + r == n * y + s
    ensures x == y && r == s
  {
    if y > x {
      TimesDifference(n, x, y);
    } else if y < x {
      TimesDifference(n, y, x);
    }
  }

  lemma ModUnique(a: int, n: int, x: int, r: int)
    requires n > 0 && a == n * x + r && 0 <= r < n
    ensures a % n == r && a / n == x
  {
    QuotientUnique(n, x, r, a / n, a % n);
  }

  lemma ModShift(a: int, n: int)
    requires n > 0
    ensures (a + n) % n == a % n
  {
    ModUnique(a + n, n, a / n + 1, a % n);
  }

  lemma ModSmall(a: int, n: int)
    requires 0 <= a < n
    ensures a % n == a
  {
    ModUnique(a, n, 0, a);
  }

  /** Adding i to a number shifts its residue by i, around the end. */
  lemma ModAdd(a: int, i: int, n: int)
    requires n > 0 && 0 <= i < n
    ensures (a + i) % n == if a % n + i < n then a % n + i else a % n + i - n
  {
    if a % n + i < n {
      ModUnique(a + i, n, a / n, a % n + i);
    } else {
      ModUnique(a + i, n, a / n + 1, a % n + i - n);
    }
  }

  lemma ModCongruent(a: int, b: int, c: int, n: int)
    requires n > 0 && a % n == b % n
    ensures (a + c) % n == (b + c) % n
  {
    var r := c % n;
    ModAdd(a, r, n);
    ModAdd(b, r, n);
    ModMultiple(a + r, c / n, n);
    ModMultiple(b + r, c / n, n);
    assert n * (c / n) + r == c;
  }

  lemma ModMultiple(a: int, m: int, n: int)
    requires n > 0
    ensures (a + n * m) % n == a % n
  {
    assert n * (a / n + m) == n * (a / n) + n * m;
    ModUnique(a + n * m, n, a / n + m, a % n);
  }

  /** How many b in [start, start + len) lie in one of the width residues from lo on. */
  ghost function Hits(start: int, len: nat, n: int, lo: int, width: int): nat
    requires n > 0
  {
    if len == 0 then 0
    else Hits(start, len - 1, n, lo, width) + if Hit(start + len - 1, n, lo, width) then 1 else 0
  }

  ghost predicate Hit(b: int, n: int, lo: int, width: int)
    requires n > 0
  {
    (b - lo) % n < width
  }

  lemma {:induction false} HitsFront(start: int, len: nat, n: int, lo: int, width: int)
    requires n > 0
    ensures Hits(start, len + 1, n, lo, width)
            == (if Hit(start, n, lo, width) then 1 else 0) + Hits(start + 1, len, n, lo, width)
  {
    if len > 0 {
      HitsFront(start, len - 1, n, lo, width);
    }
  }

  lemma HitsSlide(start: int, n: int, lo: int, width: int)
    requires n > 0
    ensures Hits(start + 1, n, n, lo, width) == Hits(start, n, n, lo, width)
  {
    HitsFront(start, n, n, lo, width);
    ModShift(start - lo, n);
    assert start + n - lo == start - lo + n;
  }

  lemma {:induction false} HitsAnywhere(start: int, d: nat, n: int, lo: int, width: int)
    requires n > 0
    ensures Hits(start + d, n, n, lo, width) == Hits(start, n, n, lo, width)
  {
    if d > 0 {
      HitsAnywhere(start, d - 1, n, lo, width);
      HitsSlide(start + d - 1, n, lo, width);
    }
  }

  lemma {:induction false} HitsFromLo(len: nat, n: int, lo: int, width: nat)
    requires 0 < n && len <= n
    ensures Hits(lo, len, n, lo, width) == Min(len, width)
  {
    if len > 0 {
      HitsFromLo(len - 1, n, lo, width);
      ModSmall(len - 1, n);
      assert lo + len - 1 - lo == len - 1;
    }
  }

  /** A full cycle, wherever it starts, meets each of the width residues once. */
  lemma FullCycle(start: int, n: int, lo: int, width: nat)
    requires n > 0
    ensures Hits(start, n, n, lo, width) == Min(n, width)
  {
    HitsFromLo(n, n, lo, width);
    if start >= lo {
      HitsAnywhere(lo, start - lo, n, lo, width);
    } else {
      HitsAnywhere(start, lo - start, n, lo, width);
    }
  }

  /** The residue of a difference is zero exactly when the residues agree. */
  lemma HitIff(b: int, n: int, q: int)
    requires n > 0
    ensures Hit(b, n, q, 1) <==> b % n == q % n
  {
    ModSmall(0, n);
    if b % n == q % n {
      ModCongruent(b, q, -q, n);
    } else if (b - q) % n == 0 {
      ModCongruent(b - q, 0, q, n);
    }
  }

  lemma NextResidue(k: nat, n: int)
    requires n > 0 && k > 0
    ensures var r := (k - 1) % n;
            if r + 1 < n then k % n == r + 1 && k / n == (k - 1) / n else k % n == 0 && k / n == (k - 1) / n + 1
  {
    var r := (k - 1) % n;
    if r + 1 < n {
      ModUnique(k, n, (k - 1) / n, r + 1);
    } else {
      ModUnique(k, n, (k - 1) / n + 1, 0);
    }
  }

  /** k consecutive numbers meet one residue k / n times, once more if it lies in the last part. */
  lemma {:induction false} ResidueCount(start: int, k: nat, n: int, q: int)
    requires n > 0
    ensures Hits(start, k, n, q, 1) == k / n + if (q - start) % n < k % n then 1 else 0
  {
    if k == 0 {
      ModUnique(0, n, 0, 0);
    } else {
      ResidueCount(start, k - 1, n, q);
      HitIff(start + k - 1, n, q);
      SameShift(start, k - 1, n, q);
      NextResidue(k, n);
    }
  }

  lemma SameShift(start: int, i: int, n: int, q: int)
    requires n > 0
    ensures (start + i) % n == q % n <==> i % n == (q - start) % n
  {
    if (start + i) % n == q % n {
      ModCongruent(start + i, q, -start, n);
    }
    if i % n == (q - start) % n {
      ModCongruent(i, q - start, start, n);
    }
  }
}
