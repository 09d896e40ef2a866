/**
 * The values the shop registry stores, the configuration tree it is loaded
 * from, and the merge-or-create rule by which `loadShopDefaults` folds that
 * tree into the registry.
 */
module Shops {
  import opened Wrappers
  import opened Casing
  import JavaInt

  /** A player's `java.util.UUID`: two 64-bit halves. */
  datatype Uuid = Uuid(mostSigBits: int, leastSigBits: int)

  /**
   * The part of a `Shop` the registry reads: the per-period purchase limits,
   * each player's recent buys and sells, and the last computed price change.
   */
  datatype Shop = Shop(
    maxBuys: JavaInt.Int32,
    maxSells: JavaInt.Int32,
    recentBuys: map<Uuid, JavaInt.Int32>,
    recentSells: map<Uuid, JavaInt.Int32>,
    change: real)

  /** A relation is computed from two shop snapshots; it is recorded here by those two snapshots. */
  datatype Relation = Relation(first: Shop, second: Shop)

  /** The configuration sub-section of one item; its contents are read only by the `Shop` code. */
  type ItemSettings(0)

  /** One item key under a shop section; `settings` is `None` when the key holds no sub-section. */
  datatype ItemEntry = ItemEntry(name: string, settings: Option<ItemSettings>)

  /** One section of the shops configuration with its items, in configuration order. */
  datatype SectionEntry = SectionEntry(name: string, items: seq<ItemEntry>)

  /** The game server's catalog: does a lower-case key name a material, an enchantment? */
  datatype Catalog = Catalog(isMaterial: string -> bool, isEnchantment: string -> bool)

  /**
   * The `Shop` code the registry calls into: the constructor
   * `new Shop(section, sectionName, isEnchantment)` and `loadConfiguration(section, sectionName)`.
   */
  datatype ShopFactory = ShopFactory(
    create: (ItemSettings, string, bool) -> Shop,
    reload: (Shop, ItemSettings, string) -> Shop)

  /** An item is loaded unless its key is neither a material nor an enchantment, or it has no sub-section. */
  predicate Accepted(catalog: Catalog, e: ItemEntry) {
    var key := Lower(e.name);
    (catalog.isMaterial(key) || catalog.isEnchantment(key)) && e.settings.Some?
  }

  /**
   * One step of `loadShopDefaults`: an existing shop is reconfigured in place,
   * a new one is created under the lower-cased key, a rejected entry is skipped.
   */
  function LoadItem(shops: map<string, Shop>, catalog: Catalog, factory: ShopFactory,
                    sectionName: string, e: ItemEntry): (r: map<string, Shop>)
    ensures r.Keys == shops.Keys + (if Accepted(catalog, e) then {Lower(e.name)} else {})
    ensures forall k :: k in shops && k != Lower(e.name) ==> r[k] == shops[k]
    ensures !Accepted(catalog, e) ==> r == shops
    ensures Accepted(catalog, e) && Lower(e.name) in shops ==>
              r[Lower(e.name)] == factory.reload(shops[Lower(e.name)], e.settings.value, sectionName)
    ensures Accepted(catalog, e) && Lower(e.name) !in shops ==>
              r[Lower(e.name)] == factory.create(e.settings.value, sectionName, catalog.isEnchantment(Lower(e.name)))
  {
    var key := Lower(e.name);
    if !Accepted(catalog, e) then shops
    else if key in shops then shops[key := factory.reload(shops[key], e.settings.value, sectionName)]
    else shops[key := factory.create(e.settings.value, sectionName, catalog.isEnchantment(key))]
  }

  /** The registry after the items of one section have been loaded in order. */
  function LoadItems(shops: map<string, Shop>, catalog: Catalog, factory: ShopFactory,
                     sectionName: string, items: seq<ItemEntry>): map<string, Shop>
    decreases |items|
  {
    if items == [] then shops
    else LoadItem(LoadItems(shops, catalog, factory, sectionName, items[..|items| - 1]),
                  catalog, factory, sectionName, items[|items| - 1])
  }

  /** The registry after every section has been loaded in order. */
  function LoadSections(shops: map<string, Shop>, catalog: Catalog, factory: ShopFactory,
                        sections: seq<SectionEntry>): map<string, Shop>
    decreases |sections|
  {
    if sections == [] then shops
    else
      var last := sections[|sections| - 1];
      LoadItems(LoadSections(shops, catalog, factory, sections[..|sections| - 1]),
                catalog, factory, last.name, last.items)
  }

  /** The lower-cased keys of the accepted items of one section. */
  function ItemKeys(catalog: Catalog, items: seq<ItemEntry>): set<string>
    decreases |items|
  {
    if items == [] then {}
    else
      var last := items[|items| - 1];
      ItemKeys(catalog, items[..|items| - 1]) + (if Accepted(catalog, last) then {Lower(last.name)} else {})
  }

  /** The lower-cased keys of the accepted items of every section. */
  function SectionKeys(catalog: Catalog, sections: seq<SectionEntry>): set<string>
    decreases |sections|
  {
    if sections == [] then {}
    else SectionKeys(catalog, sections[..|sections| - 1]) + ItemKeys(catalog, sections[|sections| - 1].items)
  }

  predicate AllLower(keys: set<string>) {
    forall k :: k in keys ==> IsLower(k)
  }

  /** Item `e` loads the shop key `k`. */
  predicate LoadsKey(catalog: Catalog, e: ItemEntry, k: string) {
    Accepted(catalog, e) && Lower(e.name) == k
  }

  /** A key is loaded from a section exactly when some accepted item of it lower-cases to that key. */
  lemma ItemKeysMembership(catalog: Catalog, items: seq<ItemEntry>, k: string)
    ensures k in ItemKeys(catalog, items) <==>
            exists j :: 0 <= j < |items| && Accepted(catalog, items[j]) && Lower(items[j].name) == k
  {
    if k in ItemKeys(catalog, items) {
      var j := ItemKeysWitness(catalog, items, k);
      assert LoadsKey(catalog, items[j], k);
    }
    if exists j :: 0 <= j < |items| && Accepted(catalog, items[j]) && Lower(items[j].name) == k {
      var j :| 0 <= j < |items| && Accepted(catalog, items[j]) && Lower(items[j].name) == k;
      ItemKeysComplete(catalog, items, j);
    }
  }

  /** Every loaded key comes from an accepted item. */
  lemma {:induction false} ItemKeysWitness(catalog: Catalog, items: seq<ItemEntry>, k: string) returns (j: nat)
    requires k in ItemKeys(catalog, items)
    ensures j < |items| && LoadsKey(catalog, items[j], k)
    decreases |items|
  {
    var init := items[..|items| - 1];
    if k in ItemKeys(catalog, init) {
      j := ItemKeysWitness(catalog, init, k);
      assert items[j] == init[j];
    } else {
      j := |items| - 1;
    }
  }

  /** Every accepted item's lower-cased key is loaded. */
  lemma {:induction false} ItemKeysComplete(catalog: Catalog, items: seq<ItemEntry>, j: nat)
    requires j < |items| && Accepted(catalog, items[j])
    ensures Lower(items[j].name) in ItemKeys(catalog, items)
    decreases |items|
  {
    var init := items[..|items| - 1];
    if j < |init| {
      assert init[j] == items[j];
      ItemKeysComplete(catalog, init, j);
    }
  }

  /** Every loaded key is lower-case. */
  lemma {:induction false} SectionKeysLower(catalog: Catalog, sections: seq<SectionEntry>)
    ensures AllLower(SectionKeys(catalog, sections))
    decreases |sections|
  {
    if sections != [] {
      SectionKeysLower(catalog, sections[..|sections| - 1]);
      ItemKeysLower(catalog, sections[|sections| - 1].items);
    }
  }

  lemma {:induction false} ItemKeysLower(catalog: Catalog, items: seq<ItemEntry>)
    ensures AllLower(ItemKeys(catalog, items))
    decreases |items|
  {
    if items != [] {
      ItemKeysLower(catalog, items[..|items| - 1]);
    }
  }

  /**
   * Loading one section adds exactly its accepted keys and leaves every shop
   * whose key it does not mention as it was.
   */
  lemma {:induction false} LoadItemsEffect(shops: map<string, Shop>, catalog: Catalog, factory: ShopFactory,
                                           sectionName: string, items: seq<ItemEntry>)
    ensures LoadItems(shops, catalog, factory, sectionName, items).Keys == shops.Keys + ItemKeys(catalog, items)
    ensures forall k :: k in shops && k !in ItemKeys(catalog, items) ==>
              LoadItems(shops, catalog, factory, sectionName, items)[k] == shops[k]
    decreases |items|
  {
    if items != [] {
      LoadItemsEffect(shops, catalog, factory, sectionName, items[..|items| - 1]);
    }
  }

  /**
   * Loading the whole configuration never removes a shop, adds exactly the
   * accepted keys, and leaves every shop the configuration does not mention as it was.
   */
  lemma {:induction false} LoadSectionsEffect(shops: map<string, Shop>, catalog: Catalog, factory: ShopFactory,
                                              sections: seq<SectionEntry>)
    ensures LoadSections(shops, catalog, factory, sections).Keys == shops.Keys + SectionKeys(catalog, sections)
    ensures forall k :: k in shops && k !in SectionKeys(catalog, sections) ==>
              LoadSections(shops, catalog, factory, sections)[k] == shops[k]
    decreases |sections|
  {
    if sections != [] {
      var init := sections[..|sections| - 1];
      var last := sections[|sections| - 1];
      LoadSectionsEffect(shops, catalog, factory, init);
      LoadItemsEffect(LoadSections(shops, catalog, factory, init), catalog, factory, last.name, last.items);
    }
  }

  /** Since every write uses a lower-cased key, a registry with lower-case keys keeps lower-case keys. */
  lemma LoadSectionsKeepsLowerCase(shops: map<string, Shop>, catalog: Catalog, factory: ShopFactory,
                                   sections: seq<SectionEntry>)
    requires AllLower(shops.Keys)
    ensures AllLower(LoadSections(shops, catalog, factory, sections).Keys)
  {
    LoadSectionsEffect(shops, catalog, factory, sections);
    SectionKeysLower(catalog, sections);
  }
}
