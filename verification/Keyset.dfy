/** Pages of ordered keys, each starting after the last key of the one before, over a
    set of keys that may change from page to page. */
module Keyset {
  import opened Wrappers

  /** A strict order, left abstract. */
  type Order<!T> = (T, T) -> bool

  ghost predicate Composes<T>(lt: Order<T>, a: T, b: T, c: T) {
    lt(a, b) && lt(b, c) ==> lt(a, c)
  }

  ghost predicate Transitive<T(!new)>(lt: Order<T>) {
    forall a, b, c :: Composes(lt, a, b, c)
  }

  /** The keys that a page shows, and whether it says that there is more. */
  datatype Shown<T> = Shown(keys: seq<T>, more: bool)
  {
    ghost function Last(): T
      requires keys != []
    {
      keys[|keys| - 1]
    }
  }

  ghost predicate Beyond<T>(lt: Order<T>, bound: Option<T>, key: T) {
    bound.Some? ==> lt(bound.value, key)
  }

  ghost predicate ShownOrAhead<T>(lt: Order<T>, p: Shown<T>, key: T) {
    key in p.keys || (p.more && p.keys != [] && lt(p.Last(), key))
  }

  /** A page whose keys ascend from after `bound`. */
  ghost predicate Onward<T>(lt: Order<T>, p: Shown<T>, bound: Option<T>) {
    && (p.more ==> p.keys != [])
    && (forall i, j :: 0 <= i < j < |p.keys| ==> lt(p.keys[i], p.keys[j]))
    && (forall i :: 0 <= i < |p.keys| ==> Beyond(lt, bound, p.keys[i]))
  }

  /** A page that shows, or leaves ahead, every key of `held` after `bound`. */
  ghost predicate Covers<T(!new)>(lt: Order<T>, p: Shown<T>, bound: Option<T>, held: iset<T>) {
    forall key :: key in held && Beyond(lt, bound, key) ==> ShownOrAhead(lt, p, key)
  }

  /** The key after which page k starts: the last one of the page before. */
  ghost function BoundBefore<T>(ps: seq<Shown<T>>, k: nat): Option<T>
    requires k < |ps|
  {
    if k == 0 || ps[k - 1].keys == [] then None else Some(ps[k - 1].Last())
  }

  /** Pages each of which continues where the one before left off ... */
  ghost predicate Chain<T>(lt: Order<T>, ps: seq<Shown<T>>) {
    && (forall k {:trigger Onward(lt, ps[k], BoundBefore(ps, k))} :: 0 <= k < |ps| ==> Onward(lt, ps[k], BoundBefore(ps, k)))
    && (forall k {:trigger ps[k].more} :: 0 <= k < |ps| - 1 ==> ps[k].more)
  }

  /** ... over the keys that the lists hold in turn. */
  ghost predicate ChainOver<T(!new)>(lt: Order<T>, ps: seq<Shown<T>>, held: seq<iset<T>>) {
    |ps| == |held| && forall k {:trigger Covers(lt, ps[k], BoundBefore(ps, k), held[k])} :: 0 <= k < |ps| ==>
      Covers(lt, ps[k], BoundBefore(ps, k), held[k])
  }

  /** A page's keys come after those of the page before. */
  lemma NextPageAfter<T>(lt: Order<T>, ps: seq<Shown<T>>, l: nat, j: nat)
    requires Chain(lt, ps) && 0 < l < |ps| && j < |ps[l].keys|
    ensures ps[l - 1].keys != [] && lt(ps[l - 1].Last(), ps[l].keys[j])
  {
    assert ps[l - 1].more && Onward(lt, ps[l - 1], BoundBefore(ps, l - 1));
    assert Onward(lt, ps[l], BoundBefore(ps, l));
    assert Beyond(lt, BoundBefore(ps, l), ps[l].keys[j]);
  }

  lemma {:induction false} ChainAscends<T(!new)>(lt: Order<T>, ps: seq<Shown<T>>, k: nat, l: nat, i: nat, j: nat)
    requires Transitive(lt) && Chain(lt, ps)
    requires k <= l < |ps| && i < |ps[k].keys| && j < |ps[l].keys| && (k == l ==> i < j)
    ensures lt(ps[k].keys[i], ps[l].keys[j])
    decreases l
  {
    if k == l {
      assert Onward(lt, ps[l], BoundBefore(ps, l));
    } else {
      NextPageAfter(lt, ps, l, j);
      var last := |ps[l - 1].keys| - 1;
      if k < l - 1 || i < last {
        ChainAscends(lt, ps, k, l - 1, i, last);
        assert Composes(lt, ps[k].keys[i], ps[l - 1].keys[last], ps[l].keys[j]);
      }
    }
  }

  lemma {:induction false} ChainReaches<T(!new)>(lt: Order<T>, ps: seq<Shown<T>>, held: seq<iset<T>>, key: T, k: nat)
    requires ChainOver(lt, ps, held) && k < |ps| && forall l :: 0 <= l <= k ==> key in held[l]
    ensures (exists l :: 0 <= l <= k && key in ps[l].keys) || ShownOrAhead(lt, ps[k], key)
    decreases k
  {
    if k > 0 {
      ChainReaches(lt, ps, held, key, k - 1);
      if exists l :: 0 <= l <= k - 1 && key in ps[l].keys {
        return;
      }
    }
    assert Beyond(lt, BoundBefore(ps, k), key);
    assert Covers(lt, ps[k], BoundBefore(ps, k), held[k]);
    assert ShownOrAhead(lt, ps[k], key);
  }

  /** A key held at every fetch has been shown once a page says that there is no more. */
  lemma ChainComplete<T(!new)>(lt: Order<T>, ps: seq<Shown<T>>, held: seq<iset<T>>, key: T)
    requires ChainOver(lt, ps, held) && ps != [] && !ps[|ps| - 1].more
    requires forall k :: 0 <= k < |ps| ==> key in held[k]
    ensures exists k :: 0 <= k < |ps| && key in ps[k].keys
  {
    ChainReaches(lt, ps, held, key, |ps| - 1);
  }
}
