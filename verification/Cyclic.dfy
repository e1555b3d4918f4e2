/** Residues: what counting modulo a variable n does, in the few facts the proofs use. */
module Cyclic {

  lemma MulMono(n: nat, x: int, y: int)
    requires x <= y
    ensures n * x <= n * y
  {
  }

  lemma UniqueResidue(a: nat, n: nat, q: int, r: nat)
    requires a == n * q + r && r < n
    ensures a % n == r
  {
    var q', r' := a / n, a % n;
    assert a == n * q' + r';
    assert n * (q' + 1) == n * q' + n;
    assert n * (q + 1) == n * q + n;
    if q' < q {
      MulMono(n, q' + 1, q);
    } else if q < q' {
      MulMono(n, q + 1, q');
    }
  }

  /** One step round a ring of n places. */
  function Around(p: nat, n: nat): (r: nat)
    requires p < n
    ensures r < n
  {
    if p + 1 == n then 0 else p + 1
  }

  lemma AroundIsMod(a: nat, n: nat)
    requires n > 0
    ensures Around(a % n, n) == (a + 1) % n
  {
    var q, r := a / n, a % n;
    assert a == n * q + r;
    if r + 1 == n {
      assert n * (q + 1) == n * q + n;
      UniqueResidue(a + 1, n, q + 1, 0);
    } else {
      UniqueResidue(a + 1, n, q, r + 1);
    }
  }

  lemma WithinTwoRounds(a: nat, n: nat)
    requires a < 2 * n
    ensures a % n == if a < n then a else a - n
  {
    if a < n {
      UniqueResidue(a, n, 0, a);
    } else {
      UniqueResidue(a, n, 1, a - n);
    }
  }
}
