/** Sums of real weights over finite sets of ids, in whatever order. */
module Sums {
  ghost function Sum(w: map<nat, real>, ids: set<nat>): real
    requires ids <= w.Keys
  {
    if ids == {} then 0.0
    else
      var id :| id in ids;
      w[id] + Sum(w, ids - {id})
  }

  lemma {:induction false} SumRemove(w: map<nat, real>, ids: set<nat>, x: nat)
    requires ids <= w.Keys && x in ids
    ensures Sum(w, ids) == w[x] + Sum(w, ids - {x})
    decreases |ids|
  {
    var id :| id in ids && Sum(w, ids) == w[id] + Sum(w, ids - {id});
    if id != x {
      SumRemove(w, ids - {id}, x);
      SumRemove(w, ids - {x}, id);
      assert ids - {id} - {x} == ids - {x} - {id};
    }
  }

  lemma SumAdd(w: map<nat, real>, ids: set<nat>, x: nat)
    requires ids <= w.Keys && x in w && x !in ids
    ensures Sum(w, ids + {x}) == Sum(w, ids) + w[x]
  {
    SumRemove(w, ids + {x}, x);
    assert ids + {x} - {x} == ids;
  }

  lemma {:induction false} SumSplit(w: map<nat, real>, a: set<nat>, b: set<nat>)
    requires a <= w.Keys && b <= w.Keys && a !! b
    ensures Sum(w, a + b) == Sum(w, a) + Sum(w, b)
    decreases |b|
  {
    if b == {} {
      assert a + b == a;
    } else {
      var x :| x in b;
      SumSplit(w, a, b - {x});
      SumRemove(w, b, x);
      SumRemove(w, a + b, x);
      assert a + b - {x} == a + (b - {x});
    }
  }

  lemma Distribute(a: real, x: real, y: real)
    ensures a * (x + y) == a * x + a * y
  {
  }

  function Affine(a: real, x: real, c: real): real {
    a * x + c
  }

  /** `n` values of `a * x + c`, for `x` that add up to `total`. */
  function AffineTotal(a: real, total: real, c: real, n: nat): real {
    a * total + c * n as real
  }

  ghost predicate AffinelyBounded(v: map<nat, real>, w: map<nat, real>, ids: set<nat>, a: real, c: real)
    requires ids <= v.Keys && ids <= w.Keys
  {
    forall id {:trigger v[id]} :: id in ids ==> v[id] <= Affine(a, w[id], c)
  }

  /** A pointwise affine bound bounds the sum. */
  lemma {:induction false} SumAffineBound(v: map<nat, real>, w: map<nat, real>, ids: set<nat>, a: real, c: real)
    requires ids <= v.Keys && ids <= w.Keys && AffinelyBounded(v, w, ids, a, c)
    ensures Sum(v, ids) <= AffineTotal(a, Sum(w, ids), c, |ids|)
    decreases |ids|
  {
    hide Affine, AffineTotal;
    if ids == {} {
      AffineNothing(a, c);
    } else {
      var x :| x in ids;
      SumAffineBound(v, w, ids - {x}, a, c);
      SumRemove(v, ids, x);
      SumRemove(w, ids, x);
      AffineStep(v[x], Sum(v, ids - {x}), w[x], Sum(w, ids - {x}), |ids - {x}|, a, c);
    }
  }

  lemma AffineNothing(a: real, c: real)
    ensures AffineTotal(a, 0.0, c, 0) == 0.0
  {
  }

  lemma AffineStep(v: real, vs: real, w: real, ws: real, n: nat, a: real, c: real)
    requires v <= Affine(a, w, c) && vs <= AffineTotal(a, ws, c, n)
    ensures v + vs <= AffineTotal(a, w + ws, c, n + 1)
  {
    Distribute(a, w, ws);
    Distribute(c, n as real, 1.0);
  }

  lemma {:induction false} SumAtMost(v: map<nat, real>, w: map<nat, real>, ids: set<nat>)
    requires ids <= v.Keys && ids <= w.Keys
    requires forall id {:trigger v[id]} :: id in ids ==> v[id] <= w[id]
    ensures Sum(v, ids) <= Sum(w, ids)
    decreases |ids|
  {
    if ids != {} {
      var x :| x in ids;
      SumRemove(v, ids, x);
      SumRemove(w, ids, x);
      SumAtMost(v, w, ids - {x});
    }
  }

  function Times(a: real, x: real): real {
    a * x
  }

  ghost predicate IsScaled(v: map<nat, real>, w: map<nat, real>, ids: set<nat>, a: real)
    requires ids <= v.Keys && ids <= w.Keys
  {
    forall id {:trigger v[id]} :: id in ids ==> v[id] == Times(a, w[id])
  }

  /** Scaling every weight scales the sum. */
  lemma {:induction false} SumScaled(v: map<nat, real>, w: map<nat, real>, ids: set<nat>, a: real)
    requires ids <= v.Keys && ids <= w.Keys && IsScaled(v, w, ids, a)
    ensures Sum(v, ids) == Times(a, Sum(w, ids))
    decreases |ids|
  {
    hide Times;
    if ids == {} {
      TimesSum(a, 0.0, 0.0);
    } else {
      var x :| x in ids;
      SumScaled(v, w, ids - {x}, a);
      SumRemove(v, ids, x);
      SumRemove(w, ids, x);
      TimesSum(a, w[x], Sum(w, ids - {x}));
    }
  }

  lemma TimesSum(a: real, x: real, y: real)
    ensures Times(a, x + y) == Times(a, x) + Times(a, y)
    ensures Times(a, 0.0) == 0.0
  {
  }

  lemma SumSame(v: map<nat, real>, w: map<nat, real>, ids: set<nat>)
    requires ids <= v.Keys && ids <= w.Keys
    requires forall id {:trigger v[id]} :: id in ids ==> v[id] == w[id]
    ensures Sum(v, ids) == Sum(w, ids)
  {
    SumAtMost(v, w, ids);
    SumAtMost(w, v, ids);
  }

  lemma {:induction false} SumConstant(v: map<nat, real>, ids: set<nat>, c: real)
    requires ids <= v.Keys && forall id {:trigger v[id]} :: id in ids ==> v[id] == c
    ensures Sum(v, ids) == c * |ids| as real
    decreases |ids|
  {
    if ids != {} {
      var x :| x in ids;
      SumRemove(v, ids, x);
      SumConstant(v, ids - {x}, c);
      Distribute(c, |ids - {x}| as real, 1.0);
    }
  }

  lemma {:induction false} SumPositive(v: map<nat, real>, ids: set<nat>)
    requires ids <= v.Keys && ids != {} && forall id {:trigger v[id]} :: id in ids ==> v[id] > 0.0
    ensures Sum(v, ids) > 0.0
    decreases |ids|
  {
    var x :| x in ids;
    SumRemove(v, ids, x);
    if ids - {x} != {} {
      SumPositive(v, ids - {x});
    }
  }
}
