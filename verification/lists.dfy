/**
 * `Array.prototype.map` and the `forEach`-and-push-if-present loops of the
 * parser, over any element function: the clause readers apply them to
 * `parseField`, `parseJoin`, `parseCondition` and the ORDER BY reader.
 */
module Lists {
  import opened Wrappers

  /** `xs.map(f)`, written from the back so that a loop can extend it one element at a time. */
  function Map<A, B>(f: A -> B, xs: seq<A>): (r: seq<B>)
    ensures |r| == |xs|
    decreases |xs|
  {
    if xs == [] then [] else Map(f, xs[..|xs| - 1]) + [f(xs[|xs| - 1])]
  }

  /** One more element maps to one more result. */
  lemma MapSnoc<A, B>(f: A -> B, xs: seq<A>, i: nat)
    requires i < |xs|
    ensures Map(f, xs[..i + 1]) == Map(f, xs[..i]) + [f(xs[i])]
  {
    assert xs[..i + 1][..i] == xs[..i];
  }

  /** The map has one result per element, in order. */
  lemma {:induction false} MapEach<A, B>(f: A -> B, xs: seq<A>)
    ensures |Map(f, xs)| == |xs|
    ensures forall k :: 0 <= k < |xs| ==> Map(f, xs)[k] == f(xs[k])
    decreases |xs|
  {
    if xs != [] {
      var init := xs[..|xs| - 1];
      MapEach(f, init);
      assert forall k :: 0 <= k < |init| ==> init[k] == xs[k];
    }
  }

  /** Mapping a concatenation maps each part. */
  lemma {:induction false} MapAppend<A, B>(f: A -> B, xs: seq<A>, ys: seq<A>)
    ensures Map(f, xs + ys) == Map(f, xs) + Map(f, ys)
    decreases |ys|
  {
    if ys == [] {
      assert xs + ys == xs;
    } else {
      var init := ys[..|ys| - 1];
      MapAppend(f, xs, init);
      assert (xs + ys)[..|xs + ys| - 1] == xs + init;
    }
  }

  /** `xs.map((x, k) => f(x, k))`: each element with its position, written from the back like `Map`. */
  function MapIndexed<A, B>(f: (A, nat) -> B, xs: seq<A>): (r: seq<B>)
    ensures |r| == |xs|
    decreases |xs|
  {
    if xs == [] then [] else MapIndexed(f, xs[..|xs| - 1]) + [f(xs[|xs| - 1], |xs| - 1)]
  }

  /** One more element maps to one more result, computed at its position. */
  lemma MapIndexedSnoc<A, B>(f: (A, nat) -> B, xs: seq<A>, i: nat)
    requires i < |xs|
    ensures MapIndexed(f, xs[..i + 1]) == MapIndexed(f, xs[..i]) + [f(xs[i], i)]
  {
    assert xs[..i + 1][..i] == xs[..i];
  }

  /** The indexed map has one result per element, in order, each computed at its own position. */
  lemma {:induction false} MapIndexedEach<A, B>(f: (A, nat) -> B, xs: seq<A>)
    ensures forall k :: 0 <= k < |xs| ==> MapIndexed(f, xs)[k] == f(xs[k], k)
    decreases |xs|
  {
    if xs != [] {
      var init := xs[..|xs| - 1];
      MapIndexedEach(f, init);
      assert forall k :: 0 <= k < |init| ==> init[k] == xs[k];
    }
  }

  /** `xs.forEach(x => list.push(f(x)))` on a list that holds `base`: one result per element is appended, in order. */
  method PushEach<A, B>(f: A -> B, xs: seq<A>, base: seq<B>) returns (list: seq<B>)
    ensures list == base + Map(f, xs)
  {
    list := base;
    var i := 0;
    while i < |xs|
      invariant i <= |xs|
      invariant list == base + Map(f, xs[..i])
    {
      MapSnoc(f, xs, i);
      list := list + [f(xs[i])];
      i := i + 1;
    }
    assert xs[..|xs|] == xs;
  }

  /** `xs.join(sep)`: the pieces in order with `sep` between neighbours; empty for no pieces. */
  function Joined<T>(xs: seq<seq<T>>, sep: seq<T>): seq<T>
    decreases |xs|
  {
    if xs == [] then []
    else if |xs| == 1 then xs[0]
    else xs[0] + sep + Joined(xs[1..], sep)
  }

  /** `s.split(c)`: the pieces between the occurrences of `c`; always at least one. */
  function SplitOn<T(==)>(s: seq<T>, c: T): (r: seq<seq<T>>)
    ensures |r| >= 1
    decreases |s|
  {
    if s == [] then [[]]
    else
      var rest := SplitOn(s[1..], c);
      if s[0] == c then [[]] + rest else [[s[0]] + rest[0]] + rest[1..]
  }

  /** Splitting and joining with the same separator gives the text back, and no piece holds the separator. */
  lemma {:induction false} JoinedSplitOn<T>(s: seq<T>, c: T)
    ensures Joined(SplitOn(s, c), [c]) == s
    ensures forall k :: 0 <= k < |SplitOn(s, c)| ==> c !in SplitOn(s, c)[k]
    decreases |s|
  {
    if s != [] {
      var rest := SplitOn(s[1..], c);
      JoinedSplitOn(s[1..], c);
      if s[0] == c {
        assert SplitOn(s, c)[1..] == rest;
      } else {
        var r := SplitOn(s, c);
        assert r[0] == [s[0]] + rest[0] && r[1..] == rest[1..];
        if |rest| > 1 {
          assert rest == [rest[0]] + rest[1..];
          assert Joined(rest, [c]) == rest[0] + [c] + Joined(rest[1..], [c]);
        }
        forall k | 0 <= k < |r|
          ensures c !in r[k]
        {
          if k > 0 {
            assert r[k] == rest[k];
          }
        }
      }
    }
  }

  /** The present results of `f` over `xs`, in order: a loop that pushes `f(x)` when it is not null. */
  function FilterMap<A, B>(f: A -> Option<B>, xs: seq<A>): seq<B>
    decreases |xs|
  {
    if xs == [] then []
    else
      var y := f(xs[|xs| - 1]);
      FilterMap(f, xs[..|xs| - 1]) + (if y.Some? then [y.value] else [])
  }

  /** Nothing is kept exactly when no element has a present result. */
  lemma {:induction false} FilterMapEmpty<A, B>(f: A -> Option<B>, xs: seq<A>)
    ensures FilterMap(f, xs) == [] <==> forall k :: 0 <= k < |xs| ==> f(xs[k]).None?
    decreases |xs|
  {
    if xs != [] {
      var init := xs[..|xs| - 1];
      FilterMapEmpty(f, init);
      assert forall k :: 0 <= k < |init| ==> init[k] == xs[k];
    }
  }

  /**
   * One round of the push loop: a list that held `base` and the results of
   * the first `i` elements, with the result `y` of element `i` pushed when
   * it is present, holds `base` and the results of the first `i + 1`.
   */
  lemma FilterMapPush<A, B>(f: A -> Option<B>, xs: seq<A>, i: nat, y: Option<B>, base: seq<B>, before: seq<B>, after: seq<B>)
    requires i < |xs| && y == f(xs[i])
    requires before == base + FilterMap(f, xs[..i])
    requires after == before + (if y.Some? then [y.value] else [])
    ensures after == base + FilterMap(f, xs[..i + 1])
  {
    assert xs[..i + 1][..i] == xs[..i];
  }

  /**
   * `xs.forEach(x => { const y = f(x); if (y) list.push(y); })` on a list
   * that holds `base`: the present results are appended, in order.
   */
  method PushPresent<A, B>(f: A -> Option<B>, xs: seq<A>, base: seq<B>) returns (list: seq<B>)
    ensures list == base + FilterMap(f, xs)
  {
    list := base;
    var i := 0;
    while i < |xs|
      invariant i <= |xs|
      invariant list == base + FilterMap(f, xs[..i])
    {
      var y := f(xs[i]);
      ghost var before := list;
      if y.Some? {
        list := list + [y.value];
      }
      FilterMapPush(f, xs, i, y, base, before, list);
      i := i + 1;
    }
    assert xs[..|xs|] == xs;
  }

  /** At most one result per element, and every result is the present result of some element. */
  lemma {:induction false} FilterMapFrom<A, B>(f: A -> Option<B>, xs: seq<A>)
    ensures |FilterMap(f, xs)| <= |xs|
    ensures forall y :: y in FilterMap(f, xs) ==> exists k :: 0 <= k < |xs| && f(xs[k]) == Some(y)
    decreases |xs|
  {
    if xs != [] {
      var init := xs[..|xs| - 1];
      FilterMapFrom(f, init);
      assert forall k :: 0 <= k < |init| ==> init[k] == xs[k];
    }
  }

  /** When every result is present, nothing is dropped: one result per element, in order. */
  lemma {:induction false} FilterMapAll<A, B>(f: A -> Option<B>, xs: seq<A>)
    requires forall k :: 0 <= k < |xs| ==> f(xs[k]).Some?
    ensures |FilterMap(f, xs)| == |xs|
    ensures forall k :: 0 <= k < |xs| ==> Some(FilterMap(f, xs)[k]) == f(xs[k])
    decreases |xs|
  {
    if xs != [] {
      var init := xs[..|xs| - 1];
      assert forall k :: 0 <= k < |init| ==> init[k] == xs[k];
      FilterMapAll(f, init);
    }
  }
}
