/**
 * The stagger classes that delay reveal animations one after another.
 *
 * On project pages every animated element gets `delay-k` when it is the k-th (k in 1..4,
 * counting from 0) animated child of its parent.  On narrow screens the revealed elements are
 * grouped by their enclosing section and the i-th of each group (i in 1..5) gets
 * `reveal-delay-i`; elements outside any section are left alone.  Elements are given in
 * document order, each by the key of its parent or of its enclosing section.
 */
module Stagger {
  import opened Optional

  /** How many of the first `n` keys equal `key`. */
  function CountBefore<K(==)>(keys: seq<K>, key: K, n: nat): (r: nat)
    requires n <= |keys|
    ensures r <= n
  {
    if n == 0 then 0 else CountBefore(keys, key, n - 1) + if keys[n - 1] == key then 1 else 0
  }

  /** The position of element `k` among the elements with the same key: how many come before it. */
  function Rank<K(==)>(keys: seq<K>, k: nat): nat
    requires k < |keys|
  {
    CountBefore(keys, keys[k], k)
  }

  lemma {:induction false} CountBeforeMonotone<K>(keys: seq<K>, key: K, i: nat, j: nat)
    requires i <= j <= |keys|
    ensures CountBefore(keys, key, i) <= CountBefore(keys, key, j)
    decreases j
  {
    if i < j {
      CountBeforeMonotone(keys, key, i, j - 1);
    }
  }

  /** Of two elements with the same key, the later one has the higher rank. */
  lemma RankIncreases<K>(keys: seq<K>, j: nat, k: nat)
    requires j < k < |keys| && keys[j] == keys[k]
    ensures Rank(keys, j) < Rank(keys, k)
  {
    CountBeforeMonotone(keys, keys[k], j + 1, k);
  }

  /** The rank is 0 exactly for the first element with its key. */
  lemma {:induction false} RankZero<K>(keys: seq<K>, k: nat)
    requires k < |keys|
    ensures Rank(keys, k) == 0 <==> forall j :: 0 <= j < k ==> keys[j] != keys[k]
  {
    if exists j :: 0 <= j < k && keys[j] == keys[k] {
      var j :| 0 <= j < k && keys[j] == keys[k];
      RankIncreases(keys, j, k);
    } else {
      CountBeforeNone(keys, keys[k], k);
    }
  }

  lemma {:induction false} CountBeforeNone<K>(keys: seq<K>, key: K, n: nat)
    requires n <= |keys| && forall j :: 0 <= j < n ==> keys[j] != key
    ensures CountBefore(keys, key, n) == 0
    decreases n
  {
    if n > 0 {
      CountBeforeNone(keys, key, n - 1);
    }
  }

  /** The indices of the first `n` elements whose key is `key`, in document order. */
  function WithKey<K(==)>(keys: seq<K>, key: K, n: nat): (r: seq<nat>)
    requires n <= |keys|
    ensures forall i :: 0 <= i < |r| ==> r[i] < n && keys[r[i]] == key
  {
    if n == 0 then []
    else
      var r := WithKey(keys, key, n - 1);
      if keys[n - 1] == key then r + [n - 1] else r
  }

  /** There are as many such indices as `CountBefore` counts. */
  lemma {:induction false} WithKeySize<K>(keys: seq<K>, key: K, n: nat)
    requires n <= |keys|
    ensures |WithKey(keys, key, n)| == CountBefore(keys, key, n)
    decreases n
  {
    if n > 0 {
      WithKeySize(keys, key, n - 1);
    }
  }

  /**
   * `delay` is what `siblings.indexOf(el)` gives element `k`: `k` is among the elements with
   * its key so far, and for its index `i` there, `delay` is the class for `i` in 1..4.
   */
  ghost predicate DelayIsSiblingIndex<K>(keys: seq<K>, k: nat, delay: Option<nat>)
    requires k < |keys|
  {
    var siblings := WithKey(keys, keys[k], k + 1);
    && (exists i :: 0 <= i < |siblings| && siblings[i] == k)
    && forall i :: 0 <= i < |siblings| && siblings[i] == k ==> delay == DelayFor(i, 4)
  }

  /**
   * When element `k` is reached, the elements with its key so far end with `k` itself, and
   * `k` occurs there only at index `Rank(keys, k)`: the rank is `indexOf` in that list.
   */
  lemma SiblingIndex<K>(keys: seq<K>, k: nat)
    requires k < |keys|
    ensures var siblings := WithKey(keys, keys[k], k + 1);
      && |siblings| == Rank(keys, k) + 1 && siblings[Rank(keys, k)] == k
      && forall i :: 0 <= i < |siblings| && siblings[i] == k ==> i == Rank(keys, k)
    ensures DelayIsSiblingIndex(keys, k, DelayFor(Rank(keys, k), 4))
  {
    var before := WithKey(keys, keys[k], k);
    WithKeySize(keys, keys[k], k);
    assert WithKey(keys, keys[k], k + 1) == before + [k];
  }

  /** The delay class for a position `i` when positions `1..limit` get one. */
  function DelayFor(i: nat, limit: nat): Option<nat> {
    if 0 < i <= limit then Some(i) else None
  }

  /**
   * `initScrollAppear`: element `k` gets `delay-i` where `i` is its index among the animated
   * children of its parent so far (`siblings.indexOf(el)`), when that is between 1 and 4.
   * The first animated child of a parent never gets a delay, every delay is in 1..4, and two
   * children of one parent never get the same delay.
   */
  function ScrollAppearDelays<P(==)>(parents: seq<P>): (r: seq<Option<nat>>)
    ensures |r| == |parents|
    ensures forall k :: 0 <= k < |r| && r[k].Some? ==> 1 <= r[k].value <= 4
    ensures forall k :: 0 <= k < |r| ==> (r[k].Some? <==> 0 < Rank(parents, k) <= 4)
    ensures forall k :: 0 <= k < |r| && (forall j :: 0 <= j < k ==> parents[j] != parents[k]) ==> r[k] == None
    ensures forall j, k :: 0 <= j < k < |r| && parents[j] == parents[k] && r[k].Some? ==> r[j] != r[k]
    ensures forall k :: 0 <= k < |r| ==> DelayIsSiblingIndex(parents, k, r[k])
  {
    var r := seq(|parents|, k requires 0 <= k < |parents| => DelayFor(Rank(parents, k), 4));
    assert forall k :: 0 <= k < |r| ==> r[k] == DelayFor(Rank(parents, k), 4);
    forall k | 0 <= k < |r| && (forall j :: 0 <= j < k ==> parents[j] != parents[k]) ensures r[k] == None {
      RankZero(parents, k);
    }
    forall j, k | 0 <= j < k < |r| && parents[j] == parents[k] ensures Rank(parents, j) < Rank(parents, k) {
      RankIncreases(parents, j, k);
    }
    forall k | 0 <= k < |r| ensures DelayIsSiblingIndex(parents, k, r[k]) {
      SiblingIndex(parents, k);
    }
    r
  }

  /** What `initMobileReveal` does to one element: nothing, or `mobile-reveal` plus an optional `reveal-delay-i`. */
  datatype Reveal = Untouched | Revealed(delay: Option<nat>)

  /**
   * The groups `initMobileReveal` builds: for the first `n` elements, each section key maps to
   * the indices of its elements in the order they were pushed.
   */
  function Groups<S(==)>(sections: seq<Option<S>>, n: nat): map<S, seq<nat>>
    requires n <= |sections|
  {
    if n == 0 then map[]
    else
      var g := Groups(sections, n - 1);
      match sections[n - 1]
      case None => g
      case Some(key) => g[key := (if key in g then g[key] else []) + [n - 1]]
  }

  /** A group holds as many indices as elements with its key were seen, and a key has a group exactly when it has an element. */
  lemma {:induction false} GroupSize<S>(sections: seq<Option<S>>, n: nat, key: S)
    requires n <= |sections|
    ensures key in Groups(sections, n) ==> |Groups(sections, n)[key]| == CountBefore(sections, Some(key), n)
    ensures key in Groups(sections, n) <==> CountBefore(sections, Some(key), n) > 0
    decreases n
  {
    if n > 0 {
      GroupSize(sections, n - 1, key);
    }
  }

  /**
   * The index `i` that `forEach((el, i) => …)` gives an element inside its section's group
   * is its rank: the number of earlier elements in the same section.
   */
  lemma {:induction false} GroupPosition<S>(sections: seq<Option<S>>, n: nat, k: nat)
    requires k < n <= |sections| && sections[k].Some?
    ensures sections[k].value in Groups(sections, n)
    ensures Rank(sections, k) < |Groups(sections, n)[sections[k].value]|
    ensures Groups(sections, n)[sections[k].value][Rank(sections, k)] == k
    decreases n
  {
    var key := sections[k].value;
    GroupSize(sections, n - 1, key);
    if k < n - 1 {
      GroupPosition(sections, n - 1, k);
    }
  }

  /**
   * `initMobileReveal`: on viewports wider than 768 pixels nothing happens; otherwise every
   * element inside a section is revealed, with `reveal-delay-i` for its position `i` in
   * 1..5 within that section's group, and elements outside any section are left alone.
   */
  function MobileReveal<S(==)>(viewportWidth: int, sections: seq<Option<S>>): (r: seq<Reveal>)
    ensures |r| == |sections|
    ensures viewportWidth > 768 ==> forall k :: 0 <= k < |r| ==> r[k] == Untouched
    ensures viewportWidth <= 768 ==> forall k :: 0 <= k < |r| ==> (r[k] == Untouched <==> sections[k].None?)
    ensures forall k :: 0 <= k < |r| && r[k].Revealed? ==>
      sections[k].Some? && sections[k].value in Groups(sections, |sections|) &&
      var group := Groups(sections, |sections|)[sections[k].value];
      exists i :: 0 <= i < |group| && group[i] == k && r[k].delay == DelayFor(i, 5)
  {
    var r := seq(|sections|, k requires 0 <= k < |sections| =>
      if viewportWidth > 768 || sections[k].None? then Untouched else Revealed(DelayFor(Rank(sections, k), 5)));
    forall k | 0 <= k < |r| && r[k].Revealed?
      ensures sections[k].Some? && sections[k].value in Groups(sections, |sections|) &&
        var group := Groups(sections, |sections|)[sections[k].value];
        exists i :: 0 <= i < |group| && group[i] == k && r[k].delay == DelayFor(i, 5)
    {
      GroupPosition(sections, |sections|, k);
    }
    r
  }
}
