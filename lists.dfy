/** List operations the stores perform on JSON arrays: `push` unless
    `includes`, and `filter`. */
module Lists {

  predicate NoDuplicates<T(==,!new)>(l: seq<T>) {
    forall i, j :: 0 <= i < j < |l| ==> l[i] != l[j]
  }

  /** `if (!l.includes(x)) l.push(x)`. */
  function AddOnce<T(==,!new)>(l: seq<T>, x: T): seq<T> {
    if x in l then l else l + [x]
  }

  /** The list after pushing each of `items` in turn, skipping those
      already present. */
  function AppendNew<T(==,!new)>(l: seq<T>, items: seq<T>): (r: seq<T>)
    ensures l <= r
    ensures forall x :: x in r <==> x in l || x in items
    ensures NoDuplicates(l) ==> NoDuplicates(r)
    decreases |items|
  {
    if items == [] then l
    else AddOnce(AppendNew(l, items[..|items| - 1]), items[|items| - 1])
  }

  /** Reference definition: the items that are neither in `l` nor earlier
      in `items`, in the order of their first occurrence. */
  function FirstSeen<T(==,!new)>(l: seq<T>, items: seq<T>): seq<T>
    decreases |items|
  {
    if items == [] then []
    else
      var init, last := items[..|items| - 1], items[|items| - 1];
      FirstSeen(l, init) + (if last in l || last in init then [] else [last])
  }

  lemma {:induction false} FirstSeenMembers<T(!new)>(l: seq<T>, items: seq<T>)
    ensures forall x :: x in FirstSeen(l, items) <==> x in items && x !in l
    decreases |items|
  {
    if items != [] {
      var init := items[..|items| - 1];
      FirstSeenMembers(l, init);
      assert items == init + [items[|items| - 1]];
    }
  }

  /** Pushing unless present appends exactly the new items, once each, in
      first-seen order; the existing entries keep their order. */
  lemma {:induction false} AppendNewIsFirstSeen<T(!new)>(l: seq<T>, items: seq<T>)
    ensures AppendNew(l, items) == l + FirstSeen(l, items)
    decreases |items|
  {
    if items != [] {
      var init, last := items[..|items| - 1], items[|items| - 1];
      AppendNewIsFirstSeen(l, init);
      FirstSeenMembers(l, init);
      assert last in l + FirstSeen(l, init) <==> last in l || last in init;
    }
  }

  /** Pushing items that are all present already changes nothing. */
  lemma {:induction false} AppendNewPresent<T(!new)>(l: seq<T>, items: seq<T>)
    requires forall x :: x in items ==> x in l
    ensures AppendNew(l, items) == l
    decreases |items|
  {
    if items != [] {
      AppendNewPresent(l, items[..|items| - 1]);
    }
  }

  /** Pushing the same items twice is the same as pushing them once. */
  lemma AppendNewIdempotent<T(!new)>(l: seq<T>, items: seq<T>)
    ensures AppendNew(AppendNew(l, items), items) == AppendNew(l, items)
  {
    AppendNewPresent(AppendNew(l, items), items);
  }

  /** The `push` loop: `for (x of items) if (!r.includes(x)) r.push(x)`. */
  method PushEachNew<T(==,!new)>(l: seq<T>, items: seq<T>) returns (r: seq<T>)
    ensures r == AppendNew(l, items)
  {
    r := l;
    for i := 0 to |items|
      invariant r == AppendNew(l, items[..i])
    {
      assert items[..i + 1][..i] == items[..i];
      if items[i] !in r {
        r := r + [items[i]];
      }
    }
    assert items[..|items|] == items;
  }

  /** `l.filter(keep)`. */
  function Filter<T(!new)>(l: seq<T>, keep: T -> bool): (r: seq<T>)
    ensures |r| <= |l|
    ensures forall x :: x in r <==> x in l && keep(x)
    ensures NoDuplicates(l) ==> NoDuplicates(r)
    decreases |l|
  {
    if l == [] then []
    else (if keep(l[0]) then [l[0]] else []) + Filter(l[1..], keep)
  }

  /** Filtering keeps a list that already satisfies the condition. */
  lemma {:induction false} FilterAll<T(!new)>(l: seq<T>, keep: T -> bool)
    requires forall x :: x in l ==> keep(x)
    ensures Filter(l, keep) == l
    decreases |l|
  {
    if l != [] {
      assert keep(l[0]) && forall x :: x in l[1..] ==> x in l;
      FilterAll(l[1..], keep);
      assert Filter(l, keep) == [l[0]] + Filter(l[1..], keep);
      assert [l[0]] + l[1..] == l;
    }
  }

  /** Filtering out every element leaves nothing. */
  lemma {:induction false} FilterNone<T(!new)>(l: seq<T>, keep: T -> bool)
    requires forall x :: x in l ==> !keep(x)
    ensures Filter(l, keep) == []
    decreases |l|
  {
    if l != [] {
      FilterNone(l[1..], keep);
    }
  }

  /** Filtering distributes over concatenation, so what survives keeps its
      relative order. */
  lemma {:induction false} FilterAppend<T(!new)>(a: seq<T>, b: seq<T>, keep: T -> bool)
    ensures Filter(a + b, keep) == Filter(a, keep) + Filter(b, keep)
    decreases |a|
  {
    if a != [] {
      var head := if keep(a[0]) then [a[0]] else [];
      FilterAppend(a[1..], b, keep);
      assert (a + b)[0] == a[0] && (a + b)[1..] == a[1..] + b;
      var rest, tail := Filter(a[1..], keep), Filter(b, keep);
      assert Filter(a + b, keep) == head + (rest + tail);
      assert Filter(a, keep) == head + rest;
      assert head + (rest + tail) == (head + rest) + tail;
    } else {
      assert a + b == b;
    }
  }

  /** Filters that agree on the elements of a list keep the same entries. */
  lemma {:induction false} FilterCongruent<T(!new)>(l: seq<T>, keep: T -> bool, keep2: T -> bool)
    requires forall x :: x in l ==> keep(x) == keep2(x)
    ensures Filter(l, keep) == Filter(l, keep2)
    decreases |l|
  {
    if l != [] {
      FilterCongruent(l[1..], keep, keep2);
    }
  }

  /** `l.filter((x) => !xs.includes(x))`. */
  function RemoveAll<T(==,!new)>(l: seq<T>, xs: seq<T>): (r: seq<T>)
    ensures forall x :: x in r <==> x in l && x !in xs
    ensures NoDuplicates(l) ==> NoDuplicates(r)
  {
    Filter(l, x => x !in xs)
  }

  /** Removing the same entries again changes nothing. */
  lemma RemoveAllIdempotent<T(!new)>(l: seq<T>, xs: seq<T>)
    ensures RemoveAll(RemoveAll(l, xs), xs) == RemoveAll(l, xs)
  {
    FilterAll(RemoveAll(l, xs), x => x !in xs);
  }
}
