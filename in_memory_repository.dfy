/**
 * The in-memory reference search used by the unit tests: a LINQ pipeline over a
 * fixed seed of properties that applies the same kind of filter and sort as the
 * store, without escaping, without paging and without the min/max swap.
 */
module InMemoryRepository {
  import opened Wrappers
  import opened Domain
  import opened Text
  import opened Seqs
  import opened Sorting
  import opened PropertyOrder

  /** The repository's only state, set once when it is built. */
  datatype Repository = Repository(data: seq<Property>)

  /** The three properties the repository holds when built without a seed. */
  function DefaultSeed(): seq<Property> {
    [ Property(101, "Casa Norte", "Cll 10 #1-23", 300_000_000, "P-001", 2015, 1),
      Property(102, "Apto Centro", "Cra 7 #45-10", 450_000_000, "P-002", 2018, 2),
      Property(103, "Loft Chicó", "Cll 93 #12-34", 800_000_000, "P-003", 2020, 1) ]
  }

  /** The constructor: the given seed, or the default one when there is none. */
  function Create(seed: Option<seq<Property>>): (r: Repository)
    ensures seed.None? ==> |r.data| == 3 && r.data[0].idProperty == 101
    ensures seed.Some? ==> r.data == seed.value
  {
    Repository(if seed.Some? then seed.value else DefaultSeed())
  }

  /** One optional `Where`: applied when `active`, skipped otherwise. */
  function When(q: seq<Property>, active: bool, keep: Property -> bool): seq<Property> {
    if active then Filter(q, keep) else q
  }

  predicate NameHas(name: Option<string>, p: Property)
    requires name.Some?
  {
    ContainsIgnoreCase(p.name, name.value)
  }

  predicate AddressHas(address: Option<string>, p: Property)
    requires address.Some?
  {
    ContainsIgnoreCase(p.address, address.value)
  }

  /** The four `Where`s of the search, chained in source order. */
  function Narrowed(data: seq<Property>, name: Option<string>, address: Option<string>,
                    minPrice: Option<Int64>, maxPrice: Option<Int64>): seq<Property>
  {
    var q1 := When(data, !IsNullOrWhiteSpace(name), (p: Property) => name.Some? && NameHas(name, p));
    var q2 := When(q1, !IsNullOrWhiteSpace(address), (p: Property) => address.Some? && AddressHas(address, p));
    var q3 := When(q2, minPrice.Some?, (p: Property) => minPrice.Some? && p.price >= minPrice.value);
    When(q3, maxPrice.Some?, (p: Property) => maxPrice.Some? && p.price <= maxPrice.value)
  }

  /**
   * What a property must satisfy to be returned: a blank or absent text and an absent
   * bound impose nothing; text is an ordinal case-insensitive substring; bounds are
   * inclusive and used as given.
   */
  predicate Accepts(name: Option<string>, address: Option<string>,
                    minPrice: Option<Int64>, maxPrice: Option<Int64>, p: Property)
  {
    && (IsNullOrWhiteSpace(name) || ContainsIgnoreCase(p.name, name.value))
    && (IsNullOrWhiteSpace(address) || ContainsIgnoreCase(p.address, address.value))
    && (minPrice.None? || p.price >= minPrice.value)
    && (maxPrice.None? || p.price <= maxPrice.value)
  }

  /** Adding one optional `Where` to a filtered sequence filters by the extended conjunction. */
  lemma WhenFilter(s: seq<Property>, acc: Property -> bool, active: bool, keep: Property -> bool,
                   acc2: Property -> bool)
    requires forall p :: acc2(p) == (acc(p) && (!active || keep(p)))
    ensures When(Filter(s, acc), active, keep) == Filter(s, acc2)
  {
    if active {
      FilterFilter(s, acc, keep, acc2);
    } else {
      FilterAgrees(s, acc, acc2);
    }
  }

  /** The chained `Where`s select exactly the accepted properties, in seed order. */
  lemma NarrowedAccepts(data: seq<Property>, name: Option<string>, address: Option<string>,
                        minPrice: Option<Int64>, maxPrice: Option<Int64>)
    ensures Narrowed(data, name, address, minPrice, maxPrice)
         == Filter(data, (p: Property) => Accepts(name, address, minPrice, maxPrice, p))
  {
    var a0: Property -> bool := (p: Property) => true;
    var k1: Property -> bool := (p: Property) => name.Some? && NameHas(name, p);
    var k2: Property -> bool := (p: Property) => address.Some? && AddressHas(address, p);
    var k3: Property -> bool := (p: Property) => minPrice.Some? && p.price >= minPrice.value;
    var k4: Property -> bool := (p: Property) => maxPrice.Some? && p.price <= maxPrice.value;
    var a1: Property -> bool := (p: Property) => IsNullOrWhiteSpace(name) || ContainsIgnoreCase(p.name, name.value);
    var a2: Property -> bool := (p: Property) => a1(p) && (IsNullOrWhiteSpace(address) || ContainsIgnoreCase(p.address, address.value));
    var a3: Property -> bool := (p: Property) => a2(p) && (minPrice.None? || p.price >= minPrice.value);
    var a4: Property -> bool := (p: Property) => Accepts(name, address, minPrice, maxPrice, p);
    FilterKeepsAll(data, a0);
    WhenFilter(data, a0, !IsNullOrWhiteSpace(name), k1, a1);
    WhenFilter(data, a1, !IsNullOrWhiteSpace(address), k2, a2);
    WhenFilter(data, a2, minPrice.Some?, k3, a3);
    WhenFilter(data, a3, maxPrice.Some?, k4, a4);
  }

  /**
   * The key the sort name selects, compared after lower-casing: "id" and
   * "idproperty" sort by id, an absent or unknown name by price.
   */
  function KeyOf(sortBy: Option<string>): (key: SortKey)
    ensures key == ByName <==> Lower(sortBy.GetOr("price")) == "name"
    ensures key == ByAddress <==> Lower(sortBy.GetOr("price")) == "address"
    ensures key == ById <==> Lower(sortBy.GetOr("price")) in {"id", "idproperty"}
    ensures sortBy.None? ==> key == ByPrice
  {
    assert Lower("price") == "price";
    match Lower(sortBy.GetOr("price"))
    case "name" => ByName
    case "address" => ByAddress
    case "id" => ById
    case "idproperty" => ById
    case _ => ByPrice
  }

  /**
   * `SearchAsync`: the accepted properties sorted on the selected key, descending when
   * `desc`, with equal keys in seed order; the total is the number of items.
   */
  function Search(repo: Repository, name: Option<string>, address: Option<string>,
                  minPrice: Option<Int64>, maxPrice: Option<Int64>, sortBy: Option<string>, desc: bool,
                  collate: (string, string) -> bool): (r: (seq<Property>, nat))
    ensures r.1 == |r.0| && r.1 <= |repo.data|
  {
    var items := StableSort(Narrowed(repo.data, name, address, minPrice, maxPrice),
                            Ordering(KeyOf(sortBy), !desc, collate));
    (items, |items|)
  }

  /** The items are a rearrangement of the accepted properties, so a sub-multiset of the data. */
  lemma SearchPermutes(repo: Repository, name: Option<string>, address: Option<string>,
                       minPrice: Option<Int64>, maxPrice: Option<Int64>, sortBy: Option<string>, desc: bool,
                       collate: (string, string) -> bool)
    ensures var items := Search(repo, name, address, minPrice, maxPrice, sortBy, desc, collate).0;
            var accepted := Filter(repo.data, (p: Property) => Accepts(name, address, minPrice, maxPrice, p));
            multiset(items) == multiset(accepted) && multiset(items) <= multiset(repo.data)
  {
    var accepted := Filter(repo.data, (p: Property) => Accepts(name, address, minPrice, maxPrice, p));
    NarrowedAccepts(repo.data, name, address, minPrice, maxPrice);
    SortPermutes(accepted, Ordering(KeyOf(sortBy), !desc, collate));
    FilterSubMultiset(repo.data, (p: Property) => Accepts(name, address, minPrice, maxPrice, p));
  }

  /** Every returned item is accepted, and every accepted property is returned. */
  lemma SearchSelects(repo: Repository, name: Option<string>, address: Option<string>,
                      minPrice: Option<Int64>, maxPrice: Option<Int64>, sortBy: Option<string>, desc: bool,
                      collate: (string, string) -> bool, p: Property)
    ensures p in Search(repo, name, address, minPrice, maxPrice, sortBy, desc, collate).0
        <==> p in repo.data && Accepts(name, address, minPrice, maxPrice, p)
  {
    var accepted := Filter(repo.data, (q: Property) => Accepts(name, address, minPrice, maxPrice, q));
    assert p in Search(repo, name, address, minPrice, maxPrice, sortBy, desc, collate).0 <==> p in accepted by {
      var items := Search(repo, name, address, minPrice, maxPrice, sortBy, desc, collate).0;
      SearchPermutes(repo, name, address, minPrice, maxPrice, sortBy, desc, collate);
      assert p in items <==> p in multiset(items);
      assert p in accepted <==> p in multiset(accepted);
    }
    FilterHas(repo.data, (q: Property) => Accepts(name, address, minPrice, maxPrice, q), p);
  }

  /**
   * The items are sorted on the selected key: non-decreasing, or non-increasing when
   * `desc`; items with equal keys keep their seed order.
   */
  lemma SearchOrdered(repo: Repository, name: Option<string>, address: Option<string>,
                      minPrice: Option<Int64>, maxPrice: Option<Int64>, sortBy: Option<string>, desc: bool,
                      collate: (string, string) -> bool)
    requires TotalPreorder(collate)
    ensures var items := Search(repo, name, address, minPrice, maxPrice, sortBy, desc, collate).0;
            var le := KeyLe(KeyOf(sortBy), collate);
            && (forall i, j :: 0 <= i < j < |items| ==> if desc then le(items[j], items[i]) else le(items[i], items[j]))
            && (forall e :: TiedWith(items, e, le)
                         == TiedWith(Narrowed(repo.data, name, address, minPrice, maxPrice), e, le))
  {
    var le := KeyLe(KeyOf(sortBy), collate);
    var order := Ordering(KeyOf(sortBy), !desc, collate);
    var s := Narrowed(repo.data, name, address, minPrice, maxPrice);
    OrderingIsTotalPreorder(KeyOf(sortBy), !desc, collate);
    SortSorted(s, order);
    forall e ensures TiedWith(StableSort(s, order), e, le) == TiedWith(s, e, le) {
      SortStable(s, e, order);
      TiedWithFlip(StableSort(s, order), e, le);
      TiedWithFlip(s, e, le);
    }
  }

  /** Ties under a comparison are ties under its flip. */
  lemma {:induction false} TiedWithFlip(s: seq<Property>, e: Property, le: (Property, Property) -> bool)
    ensures TiedWith(s, e, Flip(le)) == TiedWith(s, e, le)
    decreases |s|
  {
    if s != [] {
      TiedWithFlip(s[1..], e, le);
    }
  }

  /** A text in which no "c" is followed by an "a" (ignoring case) does not contain "casa". */
  lemma LacksCasa(hay: string)
    requires forall j :: 0 <= j < |hay| - 1 ==> !(LowerChar(hay[j]) == 'c' && LowerChar(hay[j + 1]) == 'a')
    ensures !ContainsIgnoreCase(hay, "casa")
  {
    assert Lower("casa") == "casa";
    forall i ensures !MatchAt(hay, "casa", i) {
      if 0 <= i && i + 4 <= |hay| {
        var w := hay[i..i + 4];
        assert Lower(w)[0] == LowerChar(hay[i]) && Lower(w)[1] == LowerChar(hay[i + 1]);
      }
    }
  }

  lemma AptoLacksCasa()
    ensures !ContainsIgnoreCase("Apto Centro", "casa")
  {
    LacksCasa("Apto Centro");
  }

  lemma LoftLacksCasa()
    ensures !ContainsIgnoreCase("Loft Chicó", "casa")
  {
    forall j | 0 <= j < |"Loft Chicó"| - 1 && LowerChar("Loft Chicó"[j]) == 'c'
      ensures LowerChar("Loft Chicó"[j + 1]) != 'a'
    {
      assert j == 5 || j == 8;
    }
    LacksCasa("Loft Chicó");
  }

  /** Of the default seed, only Casa Norte has "casa" in its name. */
  lemma CasaOnlyInFirst()
    ensures var seed := DefaultSeed();
            && ContainsIgnoreCase(seed[0].name, "casa")
            && !ContainsIgnoreCase(seed[1].name, "casa")
            && !ContainsIgnoreCase(seed[2].name, "casa")
  {
    assert MatchAt("Casa Norte", "casa", 0) by {
      assert "Casa Norte"[0..4] == "Casa";
    }
    AptoLacksCasa();
    LoftLacksCasa();
  }

  /** Filtering a sequence with a first element decides that element, then filters the rest. */
  lemma FilterCons(x: Property, s: seq<Property>, keep: Property -> bool)
    ensures Filter([x] + s, keep) == (if keep(x) then [x] else []) + Filter(s, keep)
  {
    assert ([x] + s)[1..] == s;
  }

  lemma FilterOne(c: Property, keep: Property -> bool)
    ensures Filter([c], keep) == (if keep(c) then [c] else [])
  {
    FilterCons(c, [], keep);
    assert [c] + [] == [c];
  }

  lemma FilterTwo(b: Property, c: Property, keep: Property -> bool)
    ensures Filter([b, c], keep) == (if keep(b) then [b] else []) + (if keep(c) then [c] else [])
  {
    FilterOne(c, keep);
    FilterCons(b, [c], keep);
    assert [b] + [c] == [b, c];
  }

  /** Filtering three properties keeps each one that passes, in order. */
  lemma FilterThree(a: Property, b: Property, c: Property, keep: Property -> bool)
    ensures Filter([a, b, c], keep)
         == (if keep(a) then [a] else []) + ((if keep(b) then [b] else []) + (if keep(c) then [c] else []))
  {
    FilterTwo(b, c, keep);
    FilterCons(a, [b, c], keep);
    assert [a] + [b, c] == [a, b, c];
  }

  /** The sort name "price" selects the price key. */
  lemma PriceKey()
    ensures KeyOf(Some("price")) == ByPrice
  {
    assert Lower("price") == "price";
  }

  /** Of three properties, a name search keeps the first when only its name contains the text. */
  lemma NameSelects(a: Property, b: Property, c: Property, name: Option<string>)
    requires !IsNullOrWhiteSpace(name)
    requires ContainsIgnoreCase(a.name, name.value)
    requires !ContainsIgnoreCase(b.name, name.value) && !ContainsIgnoreCase(c.name, name.value)
    ensures Narrowed([a, b, c], name, None, None, None) == [a]
  {
    var k1: Property -> bool := (p: Property) => name.Some? && NameHas(name, p);
    assert k1(a) && !k1(b) && !k1(c);
    FilterThree(a, b, c, k1);
    assert [a] + ([] + []) == [a];
  }

  /** A name search over three properties that only the first matches returns that one, whatever the order. */
  lemma NameSearchSingle(a: Property, b: Property, c: Property, name: Option<string>, sortBy: Option<string>,
                         desc: bool, collate: (string, string) -> bool)
    requires !IsNullOrWhiteSpace(name)
    requires ContainsIgnoreCase(a.name, name.value)
    requires !ContainsIgnoreCase(b.name, name.value) && !ContainsIgnoreCase(c.name, name.value)
    ensures Search(Repository([a, b, c]), name, None, None, None, sortBy, desc, collate) == ([a], 1)
  {
    NameSelects(a, b, c, name);
    var order := Ordering(KeyOf(sortBy), !desc, collate);
    assert StableSort([a], order) == [a];
  }

  lemma CasaIsText()
    ensures !IsNullOrWhiteSpace(Some("casa"))
  {
    assert !IsWhiteSpace("casa"[0]);
  }

  /** The first unit-test scenario: "casa" on the default seed finds Casa Norte only. */
  lemma SearchCasaScenario(collate: (string, string) -> bool)
    ensures var r := Search(Create(None), Some("casa"), None, None, None, Some("price"), true, collate);
            && r.1 == 1 && r.0[0].idProperty == 101
            && ContainsIgnoreCase(r.0[0].name, "casa")
  {
    var seed := DefaultSeed();
    CasaOnlyInFirst();
    CasaIsText();
    NameSearchSingle(seed[0], seed[1], seed[2], Some("casa"), Some("price"), true, collate);
    assert Create(None) == Repository([seed[0], seed[1], seed[2]]);
  }

  /** Of three properties, the bounds keep the last two when only the first is priced below them. */
  lemma PriceRangeSelects(a: Property, b: Property, c: Property, minPrice: Option<Int64>, maxPrice: Option<Int64>)
    requires minPrice.Some? && maxPrice.Some?
    requires a.price < minPrice.value
    requires minPrice.value <= b.price <= maxPrice.value && minPrice.value <= c.price <= maxPrice.value
    ensures Narrowed([a, b, c], None, None, minPrice, maxPrice) == [b, c]
  {
    var k3: Property -> bool := (p: Property) => minPrice.Some? && p.price >= minPrice.value;
    var k4: Property -> bool := (p: Property) => maxPrice.Some? && p.price <= maxPrice.value;
    assert !k3(a) && k3(b) && k3(c) && k4(b) && k4(c);
    FilterThree(a, b, c, k3);
    assert [] + ([b] + [c]) == [b, c];
    FilterTwo(b, c, k4);
    assert [b] + [c] == [b, c];
  }

  /** The second unit-test scenario: prices 350M-900M by price descending give 103 then 102. */
  lemma SearchPriceRangeScenario(collate: (string, string) -> bool)
    ensures var r := Search(Create(None), None, None, Some(350_000_000), Some(900_000_000), Some("price"), true, collate);
            && r.1 == 2 && r.0[0].price >= r.0[1].price
            && r.0[0].idProperty == 103 && r.0[1].idProperty == 102
  {
    var seed := DefaultSeed();
    PriceRangeSelects(seed[0], seed[1], seed[2], Some(350_000_000), Some(900_000_000));
    assert seed == [seed[0], seed[1], seed[2]];
    PriceKey();
    var order := Ordering(ByPrice, false, collate);
    assert StableSort([seed[1], seed[2]], order) == [seed[2], seed[1]] by {
      assert [seed[1], seed[2]][1..] == [seed[2]];
      assert StableSort([seed[2]], order) == [seed[2]];
      assert !order(seed[1], seed[2]);
    }
  }
}
