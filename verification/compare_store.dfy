/**
 * The comparison store (store/useCompareStore.ts): at most four products, no id
 * twice. A full list and a duplicate id make an add silently do nothing.
 */
module Compare {
  import opened Catalog

  const MaxCompare: nat := 4

  /** What every action keeps: at most four entries, distinct ids. */
  ghost predicate CompareInvariant(list: seq<Product>) {
    |list| <= MaxCompare && DistinctIds(list)
  }

  /** addToCompare: ignored when the list is full or already holds the id, else appended. */
  function CompareAdd(list: seq<Product>, p: Product): seq<Product> {
    if |list| >= MaxCompare then list
    else if HasId(list, p.id) then list
    else list + [p]
  }

  /** The store's three actions, as data, so that runs of them can be reasoned about. */
  datatype CompareAction = Add(product: Product) | Remove(id: int) | Clear

  function Step(list: seq<Product>, a: CompareAction): seq<Product> {
    match a
    case Add(p) => CompareAdd(list, p)
    case Remove(id) => WithoutId(list, id)
    case Clear => []
  }

  /** The list after performing the actions in order. */
  function Run(list: seq<Product>, actions: seq<CompareAction>): seq<Product>
    decreases |actions|
  {
    if actions == [] then list else Run(Step(list, actions[0]), actions[1..])
  }

  /**
   * An add either changes nothing (full list, or id already present) or appends the
   * product after the earlier entries, which keep their order.
   */
  lemma CompareAddProperties(list: seq<Product>, p: Product)
    ensures var r := CompareAdd(list, p);
      && (|list| >= MaxCompare ==> r == list)
      && (HasId(list, p.id) ==> r == list)
      && (|list| < MaxCompare && !HasId(list, p.id) ==>
            |r| == |list| + 1 && r[..|list|] == list && r[|list|] == p)
      && (CompareInvariant(list) ==> CompareInvariant(r))
      && (CompareInvariant(list) ==> (HasId(r, p.id) <==> HasId(list, p.id) || |list| < MaxCompare))
  {
    var r := CompareAdd(list, p);
    if |list| < MaxCompare && !HasId(list, p.id) {
      assert r[|list|].id == p.id;
    }
  }

  /** Every single action keeps the invariant. */
  lemma StepKeepsInvariant(list: seq<Product>, a: CompareAction)
    requires CompareInvariant(list)
    ensures CompareInvariant(Step(list, a))
  {
    match a
    case Add(p) => CompareAddProperties(list, p);
    case Remove(id) =>
      WithoutIdProperties(list, id);
      assert |WithoutId(list, id)| <= |list|;
    case Clear =>
  }

  /** From a list of at most four distinct ids, any run of actions stays so. */
  lemma {:induction false} RunKeepsInvariant(list: seq<Product>, actions: seq<CompareAction>)
    requires CompareInvariant(list)
    ensures CompareInvariant(Run(list, actions))
    decreases |actions|
  {
    if actions != [] {
      StepKeepsInvariant(list, actions[0]);
      RunKeepsInvariant(Step(list, actions[0]), actions[1..]);
    }
  }

  class CompareStore {
    var compareProducts: seq<Product>

    ghost predicate Valid()
      reads this
    {
      CompareInvariant(compareProducts)
    }

    constructor ()
      ensures Valid() && compareProducts == []
    {
      compareProducts := [];
    }

    method AddToCompare(product: Product)
      requires Valid()
      modifies this
      ensures Valid()
      ensures compareProducts == CompareAdd(old(compareProducts), product)
    {
      CompareAddProperties(compareProducts, product);
      var current := compareProducts;
      if |current| >= MaxCompare {
        return;
      }
      if !HasId(current, product.id) {
        compareProducts := current + [product];
      }
    }

    method RemoveFromCompare(id: int)
      requires Valid()
      modifies this
      ensures Valid()
      ensures compareProducts == WithoutId(old(compareProducts), id)
    {
      StepKeepsInvariant(compareProducts, Remove(id));
      compareProducts := WithoutId(compareProducts, id);
    }

    method ClearCompare()
      requires Valid()
      modifies this
      ensures Valid() && compareProducts == []
    {
      compareProducts := [];
    }
  }
}
