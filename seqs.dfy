/**
 * Building a list by running over another one and appending, for every element,
 * the (possibly empty) list it contributes: the shape of every loop of the core
 * that extends a result list.
 */
module Seqs {

  /** The lists `f` gives for the elements of `xs`, one after the other. */
  function ConcatMap<X, Y>(f: X -> seq<Y>, xs: seq<X>): seq<Y>
  {
    if xs == [] then [] else ConcatMap(f, xs[..|xs| - 1]) + f(xs[|xs| - 1])
  }

  /** Extending a prefix by one element extends the result by that element's list. */
  lemma ConcatMapStep<X, Y>(f: X -> seq<Y>, xs: seq<X>, k: nat)
    requires k < |xs|
    ensures ConcatMap(f, xs[..k + 1]) == ConcatMap(f, xs[..k]) + f(xs[k])
  {
    assert xs[..k + 1][..k] == xs[..k];
  }

  /** Running over two lists one after the other concatenates the two results. */
  lemma {:induction false} ConcatMapAppend<X, Y>(f: X -> seq<Y>, xs: seq<X>, ys: seq<X>)
    ensures ConcatMap(f, xs + ys) == ConcatMap(f, xs) + ConcatMap(f, ys)
    decreases |ys|
  {
    if ys == [] {
      assert xs + ys == xs;
    } else {
      var init, last := ys[..|ys| - 1], ys[|ys| - 1];
      assert (xs + ys)[..|xs + ys| - 1] == xs + init;
      assert (xs + ys)[|xs + ys| - 1] == last;
      ConcatMapAppend(f, xs, init);
      calc {
        ConcatMap(f, xs + ys);
        ConcatMap(f, xs + init) + f(last);
        ConcatMap(f, xs) + ConcatMap(f, init) + f(last);
        ConcatMap(f, xs) + ConcatMap(f, ys);
      }
    }
  }

  lemma ConcatMapOne<X, Y>(f: X -> seq<Y>, x: X)
    ensures ConcatMap(f, [x]) == f(x)
  {
    assert [x][..0] == [];
  }

  lemma ConcatMapThree<X, Y>(f: X -> seq<Y>, x: X, y: X, z: X)
    ensures ConcatMap(f, [x, y, z]) == f(x) + f(y) + f(z)
  {
    ConcatMapOne(f, x);
    ConcatMapAppend(f, [x], [y]);
    assert [x] + [y] == [x, y];
    ConcatMapOne(f, y);
    ConcatMapAppend(f, [x, y], [z]);
    assert [x, y] + [z] == [x, y, z];
    ConcatMapOne(f, z);
  }

  lemma ConcatMapFive<X, Y>(f: X -> seq<Y>, x: X, y: X, z: X, u: X, v: X)
    ensures ConcatMap(f, [x, y, z, u, v]) == f(x) + f(y) + f(z) + f(u) + f(v)
  {
    ConcatMapThree(f, x, y, z);
    ConcatMapAppend(f, [x, y, z], [u]);
    assert [x, y, z] + [u] == [x, y, z, u];
    ConcatMapOne(f, u);
    ConcatMapAppend(f, [x, y, z, u], [v]);
    assert [x, y, z, u] + [v] == [x, y, z, u, v];
    ConcatMapOne(f, v);
  }

  /** Everything in the result comes from the list of some element. */
  lemma {:induction false} ConcatMapSound<X, Y>(f: X -> seq<Y>, xs: seq<X>)
    ensures forall y :: y in ConcatMap(f, xs) ==> exists x :: x in xs && y in f(x)
    decreases |xs|
  {
    if xs != [] {
      var init, last := xs[..|xs| - 1], xs[|xs| - 1];
      ConcatMapSound(f, init);
      forall y | y in ConcatMap(f, xs) ensures exists x :: x in xs && y in f(x) {
        if y in ConcatMap(f, init) {
          var x :| x in init && y in f(x);
          assert x in xs;
        } else {
          assert last in xs;
        }
      }
    }
  }

  /** Everything in the list of an element is in the result. */
  lemma {:induction false} ConcatMapComplete<X, Y>(f: X -> seq<Y>, xs: seq<X>)
    ensures forall x, y :: x in xs && y in f(x) ==> y in ConcatMap(f, xs)
    decreases |xs|
  {
    if xs != [] {
      var init, last := xs[..|xs| - 1], xs[|xs| - 1];
      ConcatMapComplete(f, init);
      forall x, y | x in xs && y in f(x) ensures y in ConcatMap(f, xs) {
        if x != last {
          assert x in init;
        }
      }
    }
  }

  /** When no element contributes more than one, the result is no longer than the input. */
  lemma {:induction false} ConcatMapShort<X, Y>(f: X -> seq<Y>, xs: seq<X>)
    requires forall x :: x in xs ==> |f(x)| <= 1
    ensures |ConcatMap(f, xs)| <= |xs|
    decreases |xs|
  {
    if xs != [] {
      var init, last := xs[..|xs| - 1], xs[|xs| - 1];
      assert last in xs;
      forall x | x in init ensures |f(x)| <= 1 {
        assert x in xs;
      }
      ConcatMapShort(f, init);
    }
  }

  /** When every element contributes just itself, the result is the input. */
  lemma {:induction false} ConcatMapIdentity<X>(f: X -> seq<X>, xs: seq<X>)
    requires forall x :: x in xs ==> f(x) == [x]
    ensures ConcatMap(f, xs) == xs
    decreases |xs|
  {
    if xs != [] {
      var init, last := xs[..|xs| - 1], xs[|xs| - 1];
      assert last in xs;
      forall x | x in init ensures f(x) == [x] {
        assert x in xs;
      }
      ConcatMapIdentity(f, init);
      assert init + [last] == xs;
    }
  }
}
