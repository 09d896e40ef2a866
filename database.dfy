/**
 * The database facade: the shop registry, the loan ledger, the economy
 * indicator series and the relation table, each a map the facade updates
 * in place.
 */
module Data {
  import opened Wrappers
  import opened Casing
  import JavaInt
  import opened Shops
  import opened RelationTable

  /** A loan record; its fields are read and written only by the loan code. */
  type Loan(0)

  /** The fixed economy indicators, in the order they are seeded. */
  const EconomyDataKeys: seq<string> := ["GDP", "BALANCE", "DEBT", "LOSS", "INFLATION", "POPULATION"]

  /** `m` with the value at `k` replaced, when `k` is already a key; `m` itself otherwise. */
  function ReplaceExisting<K, V>(m: map<K, V>, k: K, v: V): (r: map<K, V>)
    ensures r.Keys == m.Keys
    ensures k in m ==> r[k] == v
    ensures forall j :: j in m && j != k ==> r[j] == m[j]
    ensures k !in m ==> r == m
  {
    if k in m then m[k := v] else m
  }

  /** Overwriting an existing key and reading it back gives the new value; the key set is untouched. */
  lemma ReplaceThenRead<K, V>(m: map<K, V>, k: K, v0: V, v1: V)
    ensures var r := ReplaceExisting(m[k := v0], k, v1); k in r && r[k] == v1 && r.Keys == m.Keys + {k}
  {
  }

  /** The indicator series a fresh store is seeded with: each fixed indicator with a single zero slot. */
  function InitialEconomyData(): (r: map<string, seq<real>>)
    ensures r.Keys == {"GDP", "BALANCE", "DEBT", "LOSS", "INFLATION", "POPULATION"}
    ensures |r| == 6
    ensures forall k :: k in r ==> r[k] == [0.0]
  {
    var r := map k | k in EconomyDataKeys :: [0.0];
    assert r.Keys == {"GDP", "BALANCE", "DEBT", "LOSS", "INFLATION", "POPULATION"};
    EconomyKeysDistinct();
    r
  }

  /** The six indicator names are distinct. */
  lemma EconomyKeysDistinct()
    ensures |{"GDP", "BALANCE", "DEBT", "LOSS", "INFLATION", "POPULATION"}| == 6
  {
    var keys: set<string> := {"GDP"};
    assert |"BALANCE"| != |"GDP"|;
    keys := keys + {"BALANCE"};
    assert |"DEBT"| != |"GDP"| && |"DEBT"| != |"BALANCE"|;
    keys := keys + {"DEBT"};
    assert "LOSS"[0] != "DEBT"[0] && |"LOSS"| != |"GDP"| && |"LOSS"| != |"BALANCE"|;
    keys := keys + {"LOSS"};
    assert |"INFLATION"| !in {|"GDP"|, |"BALANCE"|, |"DEBT"|, |"LOSS"|};
    keys := keys + {"INFLATION"};
    assert |"POPULATION"| !in {|"GDP"|, |"BALANCE"|, |"DEBT"|, |"LOSS"|, |"INFLATION"|};
    keys := keys + {"POPULATION"};
    assert keys == {"GDP", "BALANCE", "DEBT", "LOSS", "INFLATION", "POPULATION"};
  }

  /** The value Java's `getOrDefault(player, 0)` reads from a recent-purchase map. */
  function RecentCount(recent: map<Uuid, JavaInt.Int32>, player: Uuid): JavaInt.Int32 {
    if player in recent then recent[player] else 0
  }

  class Database {
    var shops: map<string, Shop>
    var loans: map<int, Loan>
    var economyData: map<string, seq<real>>
    var relations: map<Pair, Relation>

    /** Every shop is registered under a lower-case key. */
    ghost predicate Valid()
      reads this
    {
      AllLower(shops.Keys)
    }

    /** The maps as the store opened them; the relation table always starts empty. */
    constructor (storedShops: map<string, Shop>, storedLoans: map<int, Loan>,
                 storedEconomyData: map<string, seq<real>>)
      requires AllLower(storedShops.Keys)
      ensures Valid()
      ensures shops == storedShops && loans == storedLoans && economyData == storedEconomyData
      ensures relations == map[]
    {
      shops := storedShops;
      loans := storedLoans;
      economyData := storedEconomyData;
      relations := map[];
    }

    /**
     * The shop registered under the lower-cased name, or `None`. In a valid
     * registry this is the shop whose key equals the name up to case.
     */
    function GetShop(s: string): (r: Option<Shop>)
      reads this
      ensures r.Some? <==> Lower(s) in shops
      ensures r.Some? ==> r.value in shops.Values
      ensures Valid() ==> forall k :: k in shops && Lower(k) == Lower(s) ==> r == Some(shops[k])
    {
      var item := Lower(s);
      if item !in shops then None else Some(shops[item])
    }

    /** Lookup ignores case: names that lower-case alike find the same shop. */
    lemma GetShopIgnoresCase(a: string, b: string)
      requires |a| == |b|
      requires forall i :: 0 <= i < |a| ==> LowerChar(a[i]) == LowerChar(b[i])
      ensures GetShop(a) == GetShop(b)
    {
      CaseInsensitive(a, b);
    }

    /** "DIAMOND" and "diamond" are the same shop. */
    lemma DiamondIgnoresCase()
      ensures GetShop("DIAMOND") == GetShop("diamond")
      ensures GetShop("DIAMOND").Some? <==> "diamond" in shops
    {
      DiamondLowerCase();
    }

    /** Overwrites the shop under the lower-cased key; never registers a new key. */
    method PutShop(key: string, shop: Shop)
      modifies this`shops
      ensures shops == ReplaceExisting(old(shops), Lower(key), shop)
      ensures shops.Keys == old(shops).Keys
      ensures old(Valid()) ==> Valid()
    {
      var name := Lower(key);
      if name in shops {
        shops := shops[name := shop];
      }
    }

    /** The keys of the registry, each once, in some order. */
    method GetShopNames() returns (names: seq<string>)
      ensures |names| == |shops|
      ensures forall k :: k in shops <==> k in names
      ensures forall i, j :: 0 <= i < j < |names| ==> names[i] != names[j]
    {
      names := [];
      var pending := shops.Keys;
      while pending != {}
        invariant pending <= shops.Keys
        invariant forall k :: k in shops <==> k in names || k in pending
        invariant forall k :: k in names ==> k !in pending
        invariant forall i, j :: 0 <= i < j < |names| ==> names[i] != names[j]
        invariant |names| + |pending| == |shops|
        decreases pending
      {
        var name :| name in pending;
        names := names + [name];
        pending := pending - {name};
      }
    }

    /**
     * How many more units `player` may buy (`isBuy`) or sell this period:
     * the configured maximum less the player's recent count, in Java int
     * arithmetic. A missing shop is `None` (the source dereferences null).
     */
    function GetPurchasesLeft(item: string, player: Uuid, isBuy: bool): (r: Option<JavaInt.Int32>)
      reads this
      ensures r.Some? <==> Lower(item) in shops
      ensures r.Some? && isBuy && player !in shops[Lower(item)].recentBuys ==>
                r.value == shops[Lower(item)].maxBuys
      ensures r.Some? && !isBuy && player !in shops[Lower(item)].recentSells ==>
                r.value == shops[Lower(item)].maxSells
      ensures r.Some? && isBuy && player in shops[Lower(item)].recentBuys &&
              JavaInt.InRange(shops[Lower(item)].maxBuys - shops[Lower(item)].recentBuys[player]) ==>
                r.value == shops[Lower(item)].maxBuys - shops[Lower(item)].recentBuys[player]
      ensures r.Some? && !isBuy && player in shops[Lower(item)].recentSells &&
              JavaInt.InRange(shops[Lower(item)].maxSells - shops[Lower(item)].recentSells[player]) ==>
                r.value == shops[Lower(item)].maxSells - shops[Lower(item)].recentSells[player]
      ensures r.Some? && isBuy ==>
                r.value == JavaInt.Sub(shops[Lower(item)].maxBuys, RecentCount(shops[Lower(item)].recentBuys, player))
      ensures r.Some? && !isBuy ==>
                r.value == JavaInt.Sub(shops[Lower(item)].maxSells, RecentCount(shops[Lower(item)].recentSells, player))
    {
      match GetShop(item)
      case None => None
      case Some(shop) =>
        var max := if isBuy then shop.maxBuys else shop.maxSells;
        var recent := if isBuy then RecentCount(shop.recentBuys, player) else RecentCount(shop.recentSells, player);
        Some(JavaInt.Sub(max, recent))
    }

    /** A player who bought more than the limit has a negative allowance; it is not an error. */
    lemma PurchasesLeftMayBeNegative(item: string, player: Uuid)
      requires Lower(item) in shops
      requires player in shops[Lower(item)].recentBuys
      requires 0 <= shops[Lower(item)].maxBuys < shops[Lower(item)].recentBuys[player]
      ensures GetPurchasesLeft(item, player, true).Some?
      ensures GetPurchasesLeft(item, player, true).value < 0
    {
    }

    /** Removes the shop under the lower-cased key; reports whether there was one. */
    method RemoveShop(item: string) returns (removed: bool)
      modifies this`shops
      ensures removed <==> Lower(item) in old(shops)
      ensures shops == old(shops) - {Lower(item)}
      ensures !removed ==> shops == old(shops)
      ensures old(Valid()) ==> Valid()
    {
      var name := Lower(item);
      if name in shops {
        shops := shops - {name};
        return true;
      }
      return false;
    }

    /** Replaces an existing loan; an unknown key leaves the ledger as it was (the source logs an error). */
    method UpdateLoan(key: int, loan: Loan)
      modifies this`loans
      ensures loans == ReplaceExisting(old(loans), key, loan)
      ensures loans.Keys == old(loans).Keys
      ensures key !in old(loans) ==> loans == old(loans)
    {
      if key in loans {
        loans := loans[key := loan];
      }
    }

    /**
     * Recomputes every shop's change (`Shop.updateChange`, here `update`) and
     * writes it back through `PutShop`; the set of shops is unchanged.
     */
    method UpdateChanges(update: Shop -> Shop)
      requires Valid()
      modifies this`shops
      ensures Valid()
      ensures shops.Keys == old(shops).Keys
      ensures forall k :: k in shops ==> shops[k] == update(old(shops)[k])
    {
      var pending := shops.Keys;
      while pending != {}
        invariant Valid()
        invariant shops.Keys == old(shops).Keys
        invariant pending <= shops.Keys
        invariant forall k :: k in shops && k !in pending ==> shops[k] == update(old(shops)[k])
        invariant forall k :: k in pending ==> shops[k] == old(shops)[k]
        decreases pending
      {
        var name :| name in pending;
        assert Lower(name) == name;
        var shop := GetShop(name).value;
        shop := update(shop);
        PutShop(name, shop);
        pending := pending - {name};
      }
    }

    /**
     * Relates every ordered pair of distinct shops. The table is not cleared
     * first: entries for other pairs, such as pairs of removed shops, stay.
     */
    method UpdateRelations()
      requires Valid()
      modifies this`relations
      ensures relations == old(relations) + FullTable(shops)
      ensures forall a, b :: a in shops && b in shops && a != b ==>
                (a, b) in relations && relations[(a, b)] == Relation(shops[a], shops[b])
      ensures forall a :: (a, a) in relations ==> (a, a) in old(relations) && relations[(a, a)] == old(relations)[(a, a)]
    {
      var outer := shops.Keys;
      ghost var doneOuter: set<string> := {};
      while outer != {}
        invariant outer + doneOuter == shops.Keys && outer !! doneOuter
        invariant relations == old(relations) + Table(shops, doneOuter, shops.Keys)
        decreases outer
      {
        var name :| name in outer;
        ghost var prev := relations;
        RelateFrom(name);
        calc {
          relations;
          prev + Table(shops, {name}, shops.Keys);
          old(relations) + Table(shops, doneOuter, shops.Keys) + Table(shops, {name}, shops.Keys);
          { UnionAssociative(old(relations), Table(shops, doneOuter, shops.Keys), Table(shops, {name}, shops.Keys)); }
          old(relations) + (Table(shops, doneOuter, shops.Keys) + Table(shops, {name}, shops.Keys));
          { TableAddFrom(shops, doneOuter, name, shops.Keys); }
          old(relations) + Table(shops, doneOuter + {name}, shops.Keys);
        }
        outer := outer - {name};
        doneOuter := doneOuter + {name};
      }
      RebuiltTable(old(relations), shops);
    }

    /** The inner loop of `UpdateRelations`: relates `name` to every other shop. */
    method RelateFrom(name: string)
      requires Valid() && name in shops
      modifies this`relations
      ensures relations == old(relations) + Table(shops, {name}, shops.Keys)
    {
      var inner := shops.Keys;
      ghost var doneInner: set<string> := {};
      while inner != {}
        invariant inner + doneInner == shops.Keys && inner !! doneInner
        invariant relations == old(relations) + Table(shops, {name}, doneInner)
        decreases inner
      {
        var name2 :| name2 in inner;
        if name != name2 {
          assert Lower(name) == name && Lower(name2) == name2;
          var relation := Relation(GetShop(name).value, GetShop(name2).value);
          TableAddTo(shops, name, doneInner, name2);
          UnionUpdate(old(relations), Table(shops, {name}, doneInner), (name, name2), relation);
          relations := relations[(name, name2) := relation];
        } else {
          TableAddSelf(shops, name, doneInner);
        }
        inner := inner - {name2};
        doneInner := doneInner + {name2};
      }
    }

    /** When the store holds no indicator series, installs the six fixed ones, each a single zero slot. */
    method SeedEconomyData()
      modifies this`economyData
      ensures old(economyData) == map[] ==> economyData == InitialEconomyData()
      ensures old(economyData) != map[] ==> economyData == old(economyData)
    {
      if |economyData| == 0 {
        for i := 0 to |EconomyDataKeys|
          invariant economyData == map k | k in EconomyDataKeys[..i] :: [0.0]
        {
          assert EconomyDataKeys[..i + 1] == EconomyDataKeys[..i] + [EconomyDataKeys[i]];
          economyData := economyData[EconomyDataKeys[i] := [0.0]];
        }
        assert EconomyDataKeys[..|EconomyDataKeys|] == EconomyDataKeys;
      }
    }

    /**
     * Folds the shops configuration into the registry: each accepted item
     * reconfigures its existing shop or creates a new one under the
     * lower-cased key; rejected items are skipped.
     */
    method LoadShopDefaults(config: seq<SectionEntry>, catalog: Catalog, factory: ShopFactory)
      modifies this`shops
      ensures shops == LoadSections(old(shops), catalog, factory, config)
      ensures shops.Keys == old(shops).Keys + SectionKeys(catalog, config)
      ensures old(Valid()) ==> Valid()
    {
      for i := 0 to |config|
        invariant shops == LoadSections(old(shops), catalog, factory, config[..i])
      {
        var sectionName := config[i].name;
        var items := config[i].items;
        ghost var before := shops;
        for j := 0 to |items|
          invariant shops == LoadItems(before, catalog, factory, sectionName, items[..j])
        {
          var name := items[j].name;
          var key := Lower(name);
          var isEnchantment := catalog.isEnchantment(key);
          var section := items[j].settings;
          assert items[..j + 1][..j] == items[..j];
          if (!catalog.isMaterial(key) && !isEnchantment) || section.None? {
            continue;
          }
          if key in shops {
            var shop := GetShop(key).value;
            shop := factory.reload(shop, section.value, sectionName);
            shops := shops[key := shop];
            continue;
          }
          shops := shops[key := factory.create(section.value, sectionName, isEnchantment)];
        }
        assert items[..|items|] == items;
        assert config[..i + 1][..i] == config[..i];
      }
      assert config[..|config|] == config;
      LoadSectionsEffect(old(shops), catalog, factory, config);
      if old(Valid()) {
        LoadSectionsKeepsLowerCase(old(shops), catalog, factory, config);
      }
    }

    /**
     * The synchronous part of `reload`: load the shop defaults, recompute
     * every change, then seed the indicator series if the store has none.
     */
    method Reload(config: seq<SectionEntry>, catalog: Catalog, factory: ShopFactory, update: Shop -> Shop)
      requires Valid()
      modifies this`shops, this`economyData
      ensures Valid()
      ensures shops.Keys == old(shops).Keys + SectionKeys(catalog, config)
      ensures shops.Keys == LoadSections(old(shops), catalog, factory, config).Keys
      ensures forall k :: k in shops ==> shops[k] == update(LoadSections(old(shops), catalog, factory, config)[k])
      ensures economyData == if old(economyData) == map[] then InitialEconomyData() else old(economyData)
    {
      LoadShopDefaults(config, catalog, factory);
      UpdateChanges(update);
      SeedEconomyData();
    }
  }

  lemma UnionUpdate<K, V>(base: map<K, V>, t: map<K, V>, k: K, v: V)
    ensures (base + t)[k := v] == base + t[k := v]
  {
    assert ((base + t)[k := v]).Keys == (base + t[k := v]).Keys;
  }

  lemma UnionAssociative<K, V>(a: map<K, V>, b: map<K, V>, c: map<K, V>)
    ensures a + b + c == a + (b + c)
  {
    assert (a + b + c).Keys == (a + (b + c)).Keys;
  }

  /** After a rebuild every ordered pair of distinct shops is related, and no self-pair was added. */
  lemma RebuiltTable(before: map<Pair, Relation>, shops: map<string, Shop>)
    ensures var r := before + FullTable(shops);
            && (forall a, b :: a in shops && b in shops && a != b ==> (a, b) in r && r[(a, b)] == Relation(shops[a], shops[b]))
            && (forall a :: (a, a) in r ==> (a, a) in before && r[(a, a)] == before[(a, a)])
  {
  }

  /** A relation table rebuild keeps the relations of a shop that has since been removed. */
  lemma StaleRelationSurvives(before: map<Pair, Relation>, shops: map<string, Shop>, a: string, b: string)
    requires (a, b) in before
    requires a !in shops
    ensures var r := before + FullTable(shops); (a, b) in r && r[(a, b)] == before[(a, b)]
  {
  }
}
