/**
 * The category filter shared by the product catalog and the gallery: a list
 * of items, each tagged 'marble' or 'granite', shown either whole ('all') or
 * restricted to one category with the original order kept.
 */
module CategoryFilter {

  /** The two stone kinds an item can belong to. */
  datatype Category = Marble | Granite

  /** The state of a filter button row: everything, or one category. */
  datatype Filter = All | Only(category: Category)

  /** Whether an item of category `c` is shown under filter `f`. */
  predicate Admits(f: Filter, c: Category)
  {
    f.All? || f.category == c
  }

  /** `r` can be obtained from `s` by deleting elements, keeping order. */
  ghost predicate SubsequenceOf<T>(r: seq<T>, s: seq<T>)
    decreases |s|
  {
    r == [] ||
    (s != [] && ((r[0] == s[0] && SubsequenceOf(r[1..], s[1..])) || SubsequenceOf(r, s[1..])))
  }

  lemma {:induction false} SubsequenceOfSelf<T>(s: seq<T>)
    ensures SubsequenceOf(s, s)
    decreases |s|
  {
    if s != [] {
      SubsequenceOfSelf(s[1..]);
    }
  }

  /** `items.filter(x => category(x) === c)`: the items of category `c`. */
  function Keep<T>(items: seq<T>, category: T -> Category, c: Category): (r: seq<T>)
    ensures |r| <= |items|
  {
    if items == [] then []
    else if category(items[0]) == c then [items[0]] + Keep(items[1..], category, c)
    else Keep(items[1..], category, c)
  }

  /**
   * The displayed list: the array itself for `All`, otherwise exactly the
   * items of the chosen category, in their original relative order.
   */
  function Displayed<T(!new)>(items: seq<T>, category: T -> Category, f: Filter): (r: seq<T>)
    ensures f == All ==> r == items
    ensures forall i :: 0 <= i < |r| ==> r[i] in items && Admits(f, category(r[i]))
    ensures forall i :: 0 <= i < |items| && Admits(f, category(items[i])) ==> items[i] in r
    ensures SubsequenceOf(r, items)
    ensures forall x :: multiset(r)[x] == if Admits(f, category(x)) then multiset(items)[x] else 0
  {
    match f
    case All => SubsequenceOfSelf(items); items
    case Only(c) =>
      KeepIsSubsequence(items, category, c);
      KeepMembers(items, category, c);
      KeepCounts(items, category, c);
      Keep(items, category, c)
  }

  /** An item is kept exactly when it occurs in `items` with category `c`. */
  lemma {:induction false} KeepMembers<T>(items: seq<T>, category: T -> Category, c: Category)
    ensures forall i :: 0 <= i < |Keep(items, category, c)| ==>
              Keep(items, category, c)[i] in items && category(Keep(items, category, c)[i]) == c
    ensures forall i :: 0 <= i < |items| && category(items[i]) == c ==> items[i] in Keep(items, category, c)
  {
    if items != [] {
      KeepMembers(items[1..], category, c);
      var rest := Keep(items[1..], category, c);
      assert forall i :: 0 <= i < |rest| ==> rest[i] in items[1..];
      assert forall i :: 1 <= i < |items| ==> items[i] == items[1..][i - 1];
    }
  }

  /** Filtering only deletes: the kept items appear in `items` in the same order. */
  lemma {:induction false} KeepIsSubsequence<T>(items: seq<T>, category: T -> Category, c: Category)
    ensures SubsequenceOf(Keep(items, category, c), items)
  {
    if items != [] {
      var rest := Keep(items[1..], category, c);
      KeepIsSubsequence(items[1..], category, c);
      if category(items[0]) == c {
        var r := [items[0]] + rest;
        assert r[0] == items[0] && r[1..] == rest;
      }
    }
  }

  /** Each item of category `c` is kept as often as it occurs; no other item is kept. */
  lemma {:induction false} KeepCounts<T>(items: seq<T>, category: T -> Category, c: Category)
    ensures forall x :: multiset(Keep(items, category, c))[x] ==
                        if category(x) == c then multiset(items)[x] else 0
  {
    if items != [] {
      KeepCounts(items[1..], category, c);
      assert items == [items[0]] + items[1..];
    }
  }

  /** Filtering a concatenation filters each part: relative order is preserved. */
  lemma {:induction false} KeepAppend<T>(a: seq<T>, b: seq<T>, category: T -> Category, c: Category)
    ensures Keep(a + b, category, c) == Keep(a, category, c) + Keep(b, category, c)
  {
    if a == [] {
      assert a + b == b;
    } else {
      var ab := a + b;
      assert ab[0] == a[0] && ab[1..] == a[1..] + b;
      KeepAppend(a[1..], b, category, c);
      if category(a[0]) == c {
        calc {
          Keep(ab, category, c);
          [a[0]] + Keep(a[1..] + b, category, c);
          [a[0]] + (Keep(a[1..], category, c) + Keep(b, category, c));
          ([a[0]] + Keep(a[1..], category, c)) + Keep(b, category, c);
        }
      }
    }
  }

  /** The marble list and the granite list partition the array. */
  lemma {:induction false} KeepPartition<T>(items: seq<T>, category: T -> Category)
    ensures |Keep(items, category, Marble)| + |Keep(items, category, Granite)| == |items|
    ensures multiset(Keep(items, category, Marble)) + multiset(Keep(items, category, Granite))
            == multiset(items)
  {
    if items != [] {
      KeepPartition(items[1..], category);
      assert items == [items[0]] + items[1..];
    }
  }

  /** Filtering an already filtered list by the same category changes nothing. */
  lemma {:induction false} KeepIdempotent<T>(items: seq<T>, category: T -> Category, c: Category)
    ensures Keep(Keep(items, category, c), category, c) == Keep(items, category, c)
  {
    if items != [] {
      KeepIdempotent(items[1..], category, c);
    }
  }

  /** Filtering an already filtered list by the other category leaves nothing. */
  lemma {:induction false} KeepOtherEmpty<T>(items: seq<T>, category: T -> Category, c: Category, d: Category)
    requires c != d
    ensures Keep(Keep(items, category, c), category, d) == []
  {
    if items != [] {
      KeepOtherEmpty(items[1..], category, c, d);
    }
  }

  /** A subsequence made only of category-`c` items is no longer than `Keep`. */
  lemma {:induction false} SubsequenceBound<T>(r: seq<T>, items: seq<T>, category: T -> Category, c: Category)
    requires SubsequenceOf(r, items)
    requires forall x :: x in r ==> category(x) == c
    ensures |r| <= |Keep(items, category, c)|
    decreases |items|
  {
    if r != [] {
      if r[0] == items[0] && SubsequenceOf(r[1..], items[1..]) {
        assert forall x :: x in r[1..] ==> x in r;
        SubsequenceBound(r[1..], items[1..], category, c);
      } else {
        SubsequenceBound(r, items[1..], category, c);
      }
    }
  }

  /**
   * `Keep` is characterised without reference to how it computes: it is the
   * only subsequence of `items` that holds nothing but category-`c` items and
   * is at least as long as every other such subsequence.
   */
  lemma {:induction false} KeepIsUnique<T>(r: seq<T>, items: seq<T>, category: T -> Category, c: Category)
    requires SubsequenceOf(r, items)
    requires forall x :: x in r ==> category(x) == c
    requires |r| >= |Keep(items, category, c)|
    ensures r == Keep(items, category, c)
    decreases |items|
  {
    if items == [] {
    } else if r == [] {
    } else {
      var h := items[0];
      assert forall x :: x in r[1..] ==> x in r;
      if r[0] == h && SubsequenceOf(r[1..], items[1..]) {
        assert category(h) == c;
        KeepIsUnique(r[1..], items[1..], category, c);
        assert r == [r[0]] + r[1..];
      } else {
        assert SubsequenceOf(r, items[1..]);
        SubsequenceBound(r, items[1..], category, c);
        if category(h) == c {
          assert false;
        }
        KeepIsUnique(r, items[1..], category, c);
      }
    }
  }

}
