/**
 * The closed set of sort keys shared by both repositories and the comparisons they
 * induce on properties. Name and address compare by `collate`, a total preorder on
 * strings standing for the store's collation or the runtime's string comparer;
 * `Text.CodePointLe` is the binary (code point) order.
 */
module PropertyOrder {
  import opened Domain
  import opened Sorting

  datatype SortKey = ByPrice | ByName | ByAddress | ById

  /** Ascending comparison of two properties on `key`. */
  function KeyLe(key: SortKey, collate: (string, string) -> bool): (Property, Property) -> bool {
    match key
    case ByPrice => (a: Property, b: Property) => a.price <= b.price
    case ByName => (a: Property, b: Property) => collate(a.name, b.name)
    case ByAddress => (a: Property, b: Property) => collate(a.address, b.address)
    case ById => (a: Property, b: Property) => a.idProperty <= b.idProperty
  }

  /** The comparison a sort on `key` uses: ascending, or descending (the flipped comparison). */
  function Ordering(key: SortKey, ascending: bool, collate: (string, string) -> bool): (Property, Property) -> bool {
    if ascending then KeyLe(key, collate) else Flip(KeyLe(key, collate))
  }

  /** Every key, in either direction, orders properties totally when the string order is total. */
  lemma OrderingIsTotalPreorder(key: SortKey, ascending: bool, collate: (string, string) -> bool)
    requires TotalPreorder(collate)
    ensures TotalPreorder(Ordering(key, ascending, collate))
  {
    var le := KeyLe(key, collate);
    forall a, b ensures le(a, b) || le(b, a) {
      if key == ByName { assert collate(a.name, b.name) || collate(b.name, a.name); }
      if key == ByAddress { assert collate(a.address, b.address) || collate(b.address, a.address); }
    }
    forall a, b, c | le(a, b) && le(b, c) ensures le(a, c) {
      if key == ByName { assert collate(a.name, b.name) && collate(b.name, c.name); }
      if key == ByAddress { assert collate(a.address, b.address) && collate(b.address, c.address); }
    }
    if !ascending {
      FlipIsTotalPreorder(KeyLe(key, collate));
    }
  }

  /**
   * Price and id sorts do not look at the string order, so two string orders give the
   * same comparison on them; name and address sorts agree when the string orders do.
   */
  lemma OrderingAgrees(key: SortKey, ascending: bool, c1: (string, string) -> bool, c2: (string, string) -> bool)
    requires key == ByPrice || key == ById || forall x, y :: c1(x, y) == c2(x, y)
    ensures forall a, b :: Ordering(key, ascending, c1)(a, b) == Ordering(key, ascending, c2)(a, b)
  {
    forall a, b ensures KeyLe(key, c1)(a, b) == KeyLe(key, c2)(a, b) {
      if key == ByName { assert c1(a.name, b.name) == c2(a.name, b.name); }
      if key == ByAddress { assert c1(a.address, b.address) == c2(a.address, b.address); }
    }
  }

  /** The sort keys of a list row compare as those of the property it came from. */
  predicate RowInOrder(key: SortKey, ascending: bool, collate: (string, string) -> bool,
                       a: PropertyListDto, b: PropertyListDto)
  {
    match key
    case ByPrice => if ascending then a.price <= b.price else b.price <= a.price
    case ByName => if ascending then collate(a.name, b.name) else collate(b.name, a.name)
    case ByAddress => if ascending then collate(a.address, b.address) else collate(b.address, a.address)
    case ById => if ascending then a.idProperty <= b.idProperty else b.idProperty <= a.idProperty
  }
}
