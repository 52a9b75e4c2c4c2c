/**
 Values that change only when a step touches them: what holds at time n is what
 the last touch before n said, or what held at first.
 */
module History {
  import opened Wrappers

  predicate Follows<T(==)>(value: nat -> T, touch: nat -> Option<T>, k: nat) {
    value(k + 1) == match touch(k) { case Some(x) => x case None => value(k) }
  }

  /** The last touch before time n was at time t. */
  ghost predicate LastTouch<T(!new)>(touch: nat -> Option<T>, n: nat, t: nat) {
    t < n && touch(t).Some? && forall k: nat :: t < k < n ==> touch(k).None?
  }

  /** At time t the value was set to true, and nothing before time n set it to false. */
  ghost predicate SetAt(touch: nat -> Option<bool>, n: nat, t: nat) {
    t < n && touch(t) == Some(true) && forall k: nat :: t < k < n ==> touch(k) != Some(false)
  }

  lemma {:induction false} LastTouchDecides<T(!new)>(value: nat -> T, touch: nat -> Option<T>, n: nat)
    requires forall k: nat :: k < n ==> Follows(value, touch, k)
    ensures if forall k: nat :: k < n ==> touch(k).None? then value(n) == value(0)
            else exists t: nat :: LastTouch(touch, n, t) && touch(t) == Some(value(n))
  {
    if n > 0 {
      var m := n - 1;
      LastTouchDecides(value, touch, m);
      assert Follows(value, touch, m);
      if touch(m).Some? {
        assert LastTouch(touch, n, m);
      } else if t: nat :| LastTouch(touch, m, t) && touch(t) == Some(value(m)) {
        assert LastTouch(touch, n, t);
      }
    }
  }

  lemma OneLastTouch<T(!new)>(touch: nat -> Option<T>, n: nat)
    ensures forall t: nat, t': nat :: LastTouch(touch, n, t) && LastTouch(touch, n, t') ==> t == t'
  {}

  lemma {:induction false} SetDecides(value: nat -> bool, touch: nat -> Option<bool>, n: nat)
    requires !value(0) && forall k: nat :: k < n ==> Follows(value, touch, k)
    ensures value(n) <==> exists t: nat :: SetAt(touch, n, t)
  {
    if n > 0 {
      var m := n - 1;
      SetDecides(value, touch, m);
      assert Follows(value, touch, m);
      if touch(m) == Some(true) {
        assert SetAt(touch, n, m);
      } else if value(n) {
        var t: nat :| SetAt(touch, m, t);
        assert SetAt(touch, n, t);
      }
      forall t: nat | SetAt(touch, n, t) ensures value(n) {
        if t < m { assert SetAt(touch, m, t); }
      }
    }
  }
}
