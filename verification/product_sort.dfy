/**
 * The product grid's ordering (app/products/page.tsx): the comparator chosen by the
 * sort key, applied with a stable sort (`Array.prototype.sort` is stable) to a copy of
 * the filtered list.
 */
module ProductSort {
  import opened Catalog

  datatype SortKey = Featured | PriceLow | PriceHigh | Name | Rating

  /** The sort dropdown's values; anything else falls to the comparator's `default: 0`. */
  function SortKeyOf(sortBy: string): SortKey {
    if sortBy == "price-low" then PriceLow
    else if sortBy == "price-high" then PriceHigh
    else if sortBy == "name" then Name
    else if sortBy == "rating" then Rating
    else Featured
  }

  /** Lexicographic order of Unicode code points, standing in for `localeCompare`. */
  predicate NameLe(a: string, b: string)
    decreases |a|
  {
    if a == [] then true
    else if b == [] then false
    else if a[0] != b[0] then a[0] < b[0]
    else NameLe(a[1..], b[1..])
  }

  lemma {:induction false} NameLeTotal(a: string, b: string)
    ensures NameLe(a, b) || NameLe(b, a)
    decreases |a|
  {
    if a != [] && b != [] && a[0] == b[0] {
      NameLeTotal(a[1..], b[1..]);
    }
  }

  lemma {:induction false} NameLeTransitive(a: string, b: string, c: string)
    requires NameLe(a, b) && NameLe(b, c)
    ensures NameLe(a, c)
    decreases |a|
  {
    if a != [] && b != [] && c != [] && a[0] == b[0] && b[0] == c[0] {
      NameLeTransitive(a[1..], b[1..], c[1..]);
    }
  }

  /** The comparator of `a` and `b` is at most 0: `a` may stay in front of `b`. */
  predicate Precedes(k: SortKey, a: Product, b: Product) {
    match k
    case Featured => true
    case PriceLow => a.price <= b.price
    case PriceHigh => b.price <= a.price
    case Name => NameLe(a.name, b.name)
    case Rating => b.rating <= a.rating
  }

  /** Each comparator orders products totally and transitively. */
  lemma PrecedesIsTotalPreorder(k: SortKey, a: Product, b: Product, c: Product)
    ensures Precedes(k, a, b) || Precedes(k, b, a)
    ensures Precedes(k, a, b) && Precedes(k, b, c) ==> Precedes(k, a, c)
  {
    if k == Name {
      NameLeTotal(a.name, b.name);
      if NameLe(a.name, b.name) && NameLe(b.name, c.name) {
        NameLeTransitive(a.name, b.name, c.name);
      }
    }
  }

  /** Insert `x` after a sorted list, moving it in front of every element that must follow it. */
  function Insert(k: SortKey, s: seq<Product>, x: Product): seq<Product>
    decreases |s|
  {
    if s == [] then [x]
    else if !Precedes(k, s[|s| - 1], x) then Insert(k, s[..|s| - 1], x) + [s[|s| - 1]]
    else s + [x]
  }

  /** A stable insertion sort under the comparator of `k`. */
  function Sort(k: SortKey, s: seq<Product>): seq<Product> {
    if s == [] then [] else Insert(k, Sort(k, s[..|s| - 1]), s[|s| - 1])
  }

  ghost predicate SortedBy(k: SortKey, s: seq<Product>) {
    forall i, j :: 0 <= i < j < |s| ==> Precedes(k, s[i], s[j])
  }

  lemma {:induction false} InsertPermutes(k: SortKey, s: seq<Product>, x: Product)
    ensures multiset(Insert(k, s, x)) == multiset(s) + multiset{x}
    decreases |s|
  {
    if s != [] && !Precedes(k, s[|s| - 1], x) {
      InsertPermutes(k, s[..|s| - 1], x);
      assert s == s[..|s| - 1] + [s[|s| - 1]];
    }
  }

  /** Sorting rearranges the list: the same products, each as often as before. */
  lemma {:induction false} SortPermutes(k: SortKey, s: seq<Product>)
    ensures multiset(Sort(k, s)) == multiset(s)
    ensures |Sort(k, s)| == |s|
  {
    if s != [] {
      SortPermutes(k, s[..|s| - 1]);
      InsertPermutes(k, Sort(k, s[..|s| - 1]), s[|s| - 1]);
      assert s == s[..|s| - 1] + [s[|s| - 1]];
      assert |multiset(Sort(k, s))| == |Sort(k, s)|;
    }
  }

  lemma {:induction false} InsertSorted(k: SortKey, s: seq<Product>, x: Product)
    requires SortedBy(k, s)
    ensures SortedBy(k, Insert(k, s, x))
    decreases |s|
  {
    if s != [] {
      var init, last := s[..|s| - 1], s[|s| - 1];
      if !Precedes(k, last, x) {
        var t := Insert(k, init, x);
        InsertSorted(k, init, x);
        InsertPermutes(k, init, x);
        forall i | 0 <= i < |t| ensures Precedes(k, t[i], last) {
          assert t[i] in multiset(t);
          if t[i] == x {
            PrecedesIsTotalPreorder(k, last, x, x);
          } else {
            var m :| 0 <= m < |init| && init[m] == t[i];
            assert s[m] == t[i];
          }
        }
      } else {
        forall i | 0 <= i < |s| - 1 ensures Precedes(k, s[i], x) {
          PrecedesIsTotalPreorder(k, s[i], last, x);
        }
      }
    }
  }

  /** The sorted list is in comparator order. */
  lemma {:induction false} SortSorted(k: SortKey, s: seq<Product>)
    ensures SortedBy(k, Sort(k, s))
  {
    if s != [] {
      SortSorted(k, s[..|s| - 1]);
      InsertSorted(k, Sort(k, s[..|s| - 1]), s[|s| - 1]);
    }
  }

  /** With the comparator that always answers 0 the list keeps its order. */
  lemma {:induction false} FeaturedKeepsOrder(s: seq<Product>)
    ensures Sort(Featured, s) == s
  {
    if s != [] {
      FeaturedKeepsOrder(s[..|s| - 1]);
      assert s == s[..|s| - 1] + [s[|s| - 1]];
    }
  }

  /**
   * What each key promises, spelled out: ascending price, descending price, descending
   * rating, name order; unknown keys leave the order alone. Always a rearrangement.
   */
  lemma SortByKey(sortBy: string, s: seq<Product>)
    ensures var r := Sort(SortKeyOf(sortBy), s);
      && multiset(r) == multiset(s)
      && (sortBy == "price-low" ==> forall i, j :: 0 <= i < j < |r| ==> r[i].price <= r[j].price)
      && (sortBy == "price-high" ==> forall i, j :: 0 <= i < j < |r| ==> r[i].price >= r[j].price)
      && (sortBy == "rating" ==> forall i, j :: 0 <= i < j < |r| ==> r[i].rating >= r[j].rating)
      && (sortBy == "name" ==> forall i, j :: 0 <= i < j < |r| ==> NameLe(r[i].name, r[j].name))
      && (SortKeyOf(sortBy) == Featured ==> r == s)
  {
    var k := SortKeyOf(sortBy);
    SortPermutes(k, s);
    SortSorted(k, s);
    if k == Featured {
      FeaturedKeepsOrder(s);
    }
  }
}
