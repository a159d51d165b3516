/** The largest multiple of a number up to another, which is where acknowledgements fall. */
module Multiples {
  /** The largest multiple of `batch` up to `e`. */
  function Multiple(e: nat, batch: nat): (m: nat)
    requires batch >= 1
    ensures e - batch < m <= e
  {
    e - e % batch
  }

  lemma MultipleSteps(e: nat, batch: nat)
    requires batch >= 1
    ensures Multiple(e + 1, batch) == if (e + 1) % batch == 0 then e + 1 else Multiple(e, batch)
  {
    var q, r := e / batch, e % batch;
    assert e == batch * q + r;
    if r + 1 == batch {
      assert e + 1 == batch * (q + 1);
      ModOf(batch, q + 1, 0);
    } else {
      ModOf(batch, q, r + 1);
    }
  }

  lemma AtLeastOnce(b: nat, k: int)
    requires k >= 1
    ensures b * k >= b
  {
  }

  lemma QuotientUnique(b: nat, q: int, r: nat, q': int, r': nat)
    requires r < b && r' < b && b * q + r == b * q' + r'
    ensures r == r' && q == q'
  {
    if q < q' {
      assert b * q' == b * q + b * (q' - q);
      AtLeastOnce(b, q' - q);
    } else if q' < q {
      assert b * q == b * q' + b * (q - q');
      AtLeastOnce(b, q - q');
    }
  }

  lemma ModOf(b: nat, q: nat, r: nat)
    requires r < b
    ensures (b * q + r) % b == r && (b * q + r) / b == q
  {
    var n := b * q + r;
    QuotientUnique(b, q, r, n / b, n % b);
  }

  lemma {:induction false} MultipleMonotone(d: nat, e: nat, batch: nat)
    requires batch >= 1 && d <= e
    ensures Multiple(d, batch) <= Multiple(e, batch)
    decreases e - d
  {
    if d == e {
    } else {
      MultipleSteps(d, batch);
      MultipleMonotone(d + 1, e, batch);
    }
  }

  /** Nothing between two neighbouring multiples is one. */
  lemma {:induction false} NoneBetween(d: nat, e: nat, batch: nat)
    requires batch >= 1 && Multiple(d, batch) <= e < Multiple(d, batch) + batch
    ensures Multiple(e, batch) == Multiple(d, batch)
    decreases if e < d then 0 else e - d
  {
    var m := Multiple(d, batch);
    assert m == batch * (d / batch);
    ModOf(batch, d / batch, e - m);
  }
}
