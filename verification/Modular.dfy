/** Facts about division by a variable that the round-robin and the ring buffer rest on. */
module Modular {

  lemma ModShift(c: nat, w: nat)
    requires w > 0
    ensures (c + w) % w == c % w
  {
    assert c + w == c / w * w + c % w + w == (c / w + 1) * w + c % w;
    ModUnique(c + w, c / w + 1, c % w, w);
  }

  lemma {:induction false} ProductStep(a: nat, b: nat, w: nat)
    requires a < b
    ensures a * w + w <= b * w
  {
    assert b * w == (b - 1) * w + w;
    if a < b - 1 {
      ProductStep(a, b - 1, w);
    }
  }

  lemma ModUnique(x: nat, q: nat, r: nat, w: nat)
    requires w > 0 && r < w && x == q * w + r
    ensures x / w == q && x % w == r
  {
    var q' := x / w;
    assert x == q' * w + x % w;
    if q' < q { ProductStep(q', q, w); }
    if q < q' { ProductStep(q, q', w); }
  }

  /** Two numbers less than a period apart fall on different residues. */
  lemma ResiduesDiffer(a: nat, b: nat, w: nat)
    requires a < b < a + w
    ensures a % w != b % w
  {
    var q, r := a / w, a % w;
    assert a == q * w + r;
    if r + (b - a) < w {
      ModUnique(b, q, r + (b - a), w);
    } else {
      assert (q + 1) * w == q * w + w;
      ModUnique(b, q + 1, r + (b - a) - w, w);
    }
  }

  /** Counting up by one, on the residue and then reduced, is counting up by one. */
  lemma ResidueSteps(n: nat, w: nat)
    requires w > 0
    ensures (n % w + 1) % w == (n + 1) % w
  {
    var q, r := n / w, n % w;
    assert n == q * w + r;
    if r + 1 < w {
      ModUnique(r + 1, 0, r + 1, w);
      ModUnique(n + 1, q, r + 1, w);
    } else {
      assert (q + 1) * w == q * w + w;
      ModUnique(n + 1, q + 1, 0, w);
      ModUnique(r + 1, 1, 0, w);
    }
  }

  /** Stepping back from a residue, with one period added, is stepping back. */
  lemma ResidueBack(n: nat, i: nat, w: nat)
    requires i < w && i < n
    ensures var x := n % w - 1 - i + w; 0 <= x && x % w == (n - 1 - i) % w
  {
    var q, r := n / w, n % w;
    assert n == q * w + r;
    if i < r {
      ModUnique(n - 1 - i, q, r - 1 - i, w);
      ModUnique(r - 1 - i + w, 1, r - 1 - i, w);
    } else {
      ResidueBackWraps(n, q, r, i, w);
      ModUnique(r - 1 - i + w, 0, r - 1 - i + w, w);
    }
  }

  lemma ResidueBackWraps(n: nat, q: nat, r: nat, i: nat, w: nat)
    requires n == q * w + r && r <= i < w && i < n
    ensures (n - 1 - i) % w == r - 1 - i + w
  {
    assert q > 0;
    assert q * w == (q - 1) * w + w;
    ModUnique(n - 1 - i, q - 1, r - 1 - i + w, w);
  }
}
