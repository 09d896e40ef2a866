# Auto-Tune economy database, modelled in Dafny

This project models the in-memory registry behaviour of the Auto-Tune
plugin's economy database, plus two small stateful records.

The model keeps four of the `Database` facade's maps, which it updates in place:
- the shop registry: lower-case item key to `Shop`;
- the loan ledger: timestamp to loan;
- the economy indicator series: indicator name to a sequence of samples;
- the relation table: ordered pair of shop keys to `Relation`.

The model is the class `Data.Database`, whose fields are those maps and whose
methods are the lookups, writes and rebuild loops of the source. A `TimePeriod`
captures five sub-snapshots and appends itself to a shared history under the
history's current size (`Persistent`). An `EnchantmentData` record keeps buy and
sell counters with a price and a ratio (`Ephemeral`).

Collaborators whose code is not part of this model are parameters:
- `Shop.updateChange` is `update: Shop -> Shop`.
- The `Shop` constructor and `Shop.loadConfiguration` are a `ShopFactory`.
- The material and enchantment lookups of the game server are a `Catalog` of two predicates.
- The configuration tree is a sequence of `SectionEntry` values, in configuration order.
- A `Relation` is recorded by the two shop snapshots it is computed from.
- Loans, item settings and the five sub-snapshot kinds are opaque types.

Java `int` arithmetic wraps around in 32-bit two's complement (module `JavaInt`).
The model uses it wherever the source adds or subtracts `int` counters.

Two behaviours of the relation table are worth stating:
- `updateRelations` never clears `relations`, which is created once, at Database.java:313.
  Entries for pairs it does not visit therefore survive; `Data.StaleRelationSurvives` states this.
- (a, b) and (b, a) are related separately, so there are n * (n - 1) entries over n shops.

## Model

| member | source | states |
|---|---|---|
| `Casing.Lower` | src/main/java/unprotesting/com/github/data/Database.java:150 | lower-casing keeps the length, yields a lower-case string, and leaves a lower-case string alone (so it is idempotent) |
| `Casing.LowerAt` | src/main/java/unprotesting/com/github/data/Database.java:150 | lower-casing maps each character independently |
| `Casing.CaseInsensitive` | src/main/java/unprotesting/com/github/data/Database.java:149-158 | strings equal up to letter case lower-case to the same key |
| `Casing.LowerSeven` | src/main/java/unprotesting/com/github/data/Database.java:150 | a seven-character name lower-cases letter by letter |
| `Casing.DiamondLowerCase` | src/main/java/unprotesting/com/github/data/Database.java:150 | "DIAMOND" lower-cases to "diamond" |
| `JavaInt.Add` | src/main/java/unprotesting/com/github/Data/Ephemeral/Data/EnchantmentData.java:24-30 | Java int addition: the exact sum when it fits, otherwise the sum shifted by 2^32, with the sign flipped |
| `JavaInt.Sub` | src/main/java/unprotesting/com/github/data/Database.java:175-179 | Java int subtraction: the exact difference when it fits, otherwise shifted by 2^32 |
| `JavaInt.AddOverflowWraps` | src/main/java/unprotesting/com/github/Data/Ephemeral/Data/EnchantmentData.java:24-26 | the largest int plus one is the smallest int |
| `JavaInt.AddMonotone` | src/main/java/unprotesting/com/github/Data/Ephemeral/Data/EnchantmentData.java:24-30 | without overflow, adding a non-negative amount to a non-negative counter never decreases it and keeps it non-negative |
| `Shops.LoadItem` | src/main/java/unprotesting/com/github/data/Database.java:225-246 | one configured item: a rejected entry leaves the registry unchanged; an accepted one reconfigures the existing shop or creates a new one under the lower-cased key; no other shop changes |
| `Shops.ItemKeysMembership` | src/main/java/unprotesting/com/github/data/Database.java:224-235 | a key is loaded from a section exactly when some accepted item of that section lower-cases to it |
| `Shops.ItemKeysWitness` | src/main/java/unprotesting/com/github/data/Database.java:224-246 | every key loaded from a section comes from an accepted item that lower-cases to it |
| `Shops.ItemKeysComplete` | src/main/java/unprotesting/com/github/data/Database.java:224-246 | every accepted item's lower-cased key is loaded |
| `Shops.ItemKeysLower` | src/main/java/unprotesting/com/github/data/Database.java:225 | every key loaded from a section is lower-case |
| `Shops.SectionKeysLower` | src/main/java/unprotesting/com/github/data/Database.java:221-225 | every key loaded from the whole configuration is lower-case |
| `Shops.LoadItemsEffect` | src/main/java/unprotesting/com/github/data/Database.java:224-247 | loading one section adds exactly its accepted keys and leaves every shop it does not mention unchanged |
| `Shops.LoadSectionsEffect` | src/main/java/unprotesting/com/github/data/Database.java:218-249 | loading the configuration never removes a shop, adds exactly the accepted keys, and leaves unmentioned shops unchanged |
| `Shops.LoadSectionsKeepsLowerCase` | src/main/java/unprotesting/com/github/data/Database.java:225-245 | a registry with lower-case keys keeps lower-case keys after loading |
| `RelationTable.Table` | src/main/java/unprotesting/com/github/data/Database.java:122-131 | the table has a key exactly for the ordered pairs of distinct keys, each related from the two current shops, and no self-pair |
| `RelationTable.TableAddTo` | src/main/java/unprotesting/com/github/data/Database.java:128-130 | one inner-loop step adds exactly the pair (a, b) |
| `RelationTable.TableAddSelf` | src/main/java/unprotesting/com/github/data/Database.java:124-126 | the self-pair step is skipped and changes nothing |
| `RelationTable.TableAddFrom` | src/main/java/unprotesting/com/github/data/Database.java:122-132 | one outer-loop step adds exactly the pairs leaving one key |
| `RelationTable.PairsSize` | src/main/java/unprotesting/com/github/data/Database.java:121-133 | over n keys there are exactly n * (n - 1) ordered pairs of distinct keys |
| `RelationTable.PairsSizeStep` | src/main/java/unprotesting/com/github/data/Database.java:122-131 | adding one key to k others adds 2 * k ordered pairs |
| `RelationTable.FullTableSize` | src/main/java/unprotesting/com/github/data/Database.java:121-133 | a complete rebuild over n shops holds n * (n - 1) relations |
| `Data.ReplaceExisting` | src/main/java/unprotesting/com/github/data/Database.java:141-147 | overwrite-only update: the key set never changes, an existing key gets the new value, an absent key leaves the map unchanged |
| `Data.ReplaceThenRead` | src/main/java/unprotesting/com/github/data/Database.java:141-147 | insert, then overwrite, then read gives the overwriting value |
| `Data.InitialEconomyData` | src/main/java/unprotesting/com/github/data/Database.java:31-32 | exactly the six keys GDP, BALANCE, DEBT, LOSS, INFLATION, POPULATION, each a single zero slot |
| `Data.RebuiltTable` | src/main/java/unprotesting/com/github/data/Database.java:121-133 | after a rebuild every ordered pair of distinct shops is related from the current shops, and no self-pair has been added |
| `Data.EconomyKeysDistinct` | src/main/java/unprotesting/com/github/data/Database.java:31-32 | the six indicator names are distinct |
| `Data.StaleRelationSurvives` | src/main/java/unprotesting/com/github/data/Database.java:121-133 | an entry for a removed shop survives a rebuild, because the table is not cleared |
| `Data.Database.constructor` | src/main/java/unprotesting/com/github/data/Database.java:56-61 | the maps are those the store opened; the relation table starts empty |
| `Data.Database.GetShop` | src/main/java/unprotesting/com/github/data/Database.java:149-158 | a shop is found exactly when the lower-cased name is a key, and otherwise `None` without failing; in a valid registry it is the shop whose key equals the name up to case |
| `Data.Database.GetShopIgnoresCase` | src/main/java/unprotesting/com/github/data/Database.java:149-158 | names that differ only in letter case find the same shop |
| `Data.Database.DiamondIgnoresCase` | src/main/java/unprotesting/com/github/data/Database.java:149-158 | "DIAMOND" and "diamond" find the same shop, present exactly when "diamond" is registered |
| `Data.Database.PutShop` | src/main/java/unprotesting/com/github/data/Database.java:160-165 | writes only under an existing lower-cased key; the key set never grows; lower-case keys stay lower-case |
| `Data.Database.GetShopNames` | src/main/java/unprotesting/com/github/data/Database.java:167-169 | returns every registered key exactly once |
| `Data.Database.GetPurchasesLeft` | src/main/java/unprotesting/com/github/data/Database.java:171-182 | maximum buys (or sells) less the player's recent count, with Java int wrap-around; a player with no record gets the full maximum; a missing shop is `None` |
| `Data.Database.PurchasesLeftMayBeNegative` | src/main/java/unprotesting/com/github/data/Database.java:171-182 | a player over the limit gets a negative allowance |
| `Data.Database.RemoveShop` | src/main/java/unprotesting/com/github/data/Database.java:184-191 | true and exactly that lower-cased key removed when present; false and the registry unchanged when absent |
| `Data.Database.UpdateLoan` | src/main/java/unprotesting/com/github/data/Database.java:141-147 | replaces only an existing loan; an unknown key leaves the ledger unchanged and never creates a key |
| `Data.Database.UpdateChanges` | src/main/java/unprotesting/com/github/data/Database.java:107-116 | every shop becomes its updated self, written back through `PutShop`; the key set is preserved |
| `Data.Database.UpdateRelations` | src/main/java/unprotesting/com/github/data/Database.java:121-133 | every ordered pair of distinct keys is related from the current shops; no self-pair is inserted; other entries survive |
| `Data.Database.RelateFrom` | src/main/java/unprotesting/com/github/data/Database.java:123-131 | the inner loop relates one shop to every other shop, each from the two current shops, and adds nothing else |
| `Data.Database.SeedEconomyData` | src/main/java/unprotesting/com/github/data/Database.java:251-256 | an empty series map gets the six fixed indicators with a single zero slot each; a non-empty one is not re-seeded |
| `Data.Database.LoadShopDefaults` | src/main/java/unprotesting/com/github/data/Database.java:218-249 | the registry becomes the section-by-section fold of the merge-or-create rule; its keys grow by exactly the accepted lower-cased keys; lower-case keys stay lower-case |
| `Data.Database.Reload` | src/main/java/unprotesting/com/github/data/Database.java:94-98 | after loading defaults and recomputing changes, the keys are the old keys plus the accepted ones and each shop is the update of its loaded self; indicators are seeded if absent |
| `Persistent.Append` | src/main/java/unprotesting/com/github/Data/Persistent/TimePeriod.java:34-37 | stores at key = current size; on a dense history the keys stay 0..n, the size grows by one, and no stored snapshot changes |
| `Persistent.AppendAllFromEmpty` | src/main/java/unprotesting/com/github/Data/Persistent/TimePeriod.java:34-37 | n appends to an empty history store the i-th snapshot at key i |
| `Persistent.ThreeAppends` | src/main/java/unprotesting/com/github/Data/Persistent/TimePeriod.java:34-37 | three appends to an empty history use keys 0, 1, 2 |
| `Persistent.AppendWithGapOverwrites` | src/main/java/unprotesting/com/github/Data/Persistent/TimePeriod.java:35-36 | without density an append can overwrite a stored snapshot |
| `Persistent.TimePeriod.constructor` | src/main/java/unprotesting/com/github/Data/Persistent/TimePeriod.java:30-32 | all five sub-snapshots are taken, in the order item, enchantment, transaction, loan, GDP |
| `Persistent.TimePeriod.GetFromCache` | src/main/java/unprotesting/com/github/Data/Persistent/TimePeriod.java:39-45 | takes the five sub-snapshots in the fixed order |
| `Persistent.TimePeriod.GetItpFromCache` | src/main/java/unprotesting/com/github/Data/Persistent/TimePeriod.java:47-49 | takes the item sub-snapshot |
| `Persistent.TimePeriod.GetEtpFromCache` | src/main/java/unprotesting/com/github/Data/Persistent/TimePeriod.java:51-53 | takes the enchantment sub-snapshot |
| `Persistent.TimePeriod.GetTtpFromCache` | src/main/java/unprotesting/com/github/Data/Persistent/TimePeriod.java:55-57 | takes the transaction sub-snapshot |
| `Persistent.TimePeriod.GetLtpFromCache` | src/main/java/unprotesting/com/github/Data/Persistent/TimePeriod.java:59-61 | takes the loan sub-snapshot |
| `Persistent.TimePeriod.GetGtpFromCache` | src/main/java/unprotesting/com/github/Data/Persistent/TimePeriod.java:63-65 | takes the GDP sub-snapshot |
| `Persistent.TimePeriod.AddToMap` | src/main/java/unprotesting/com/github/Data/Persistent/TimePeriod.java:34-37 | the history becomes `Append` of itself; a dense history stays dense, grows by one, and keeps every earlier snapshot |
| `Persistent.CommitThree` | src/main/java/unprotesting/com/github/Data/Persistent/TimePeriod.java:34-37 | three commits to a new history land at 0, 1 and 2 |
| `Ephemeral.EnchantmentData.constructor` | src/main/java/unprotesting/com/github/Data/Ephemeral/Data/EnchantmentData.java:17-22 | buys = 0, sells = 0, price and ratio are the arguments |
| `Ephemeral.EnchantmentData.IncreaseBuys` | src/main/java/unprotesting/com/github/Data/Ephemeral/Data/EnchantmentData.java:24-26 | buys grows by the amount in Java int arithmetic; sells, price and ratio are unchanged; without overflow a non-negative amount never decreases buys |
| `Ephemeral.EnchantmentData.IncreaseSells` | src/main/java/unprotesting/com/github/Data/Ephemeral/Data/EnchantmentData.java:28-30 | sells grows by the amount in Java int arithmetic; buys, price and ratio are unchanged; without overflow a non-negative amount never decreases sells |
| `Ephemeral.EnchantmentData.SetPrice` | src/main/java/unprotesting/com/github/Data/Ephemeral/Data/EnchantmentData.java:13-14 | sets the price only |
| `Ephemeral.EnchantmentData.SetRatio` | src/main/java/unprotesting/com/github/Data/Ephemeral/Data/EnchantmentData.java:13-15 | sets the ratio only |
| `Ephemeral.BuysOverflowGoesNegative` | src/main/java/unprotesting/com/github/Data/Ephemeral/Data/EnchantmentData.java:24-26 | increasing a buy counter past the largest int makes it negative |

## Left out

- The MapDB store (`createDb`, `createMaps`, the serializers, `close`) is left out because it is a foreign storage library. Its maps are plain Dafny maps, given to the constructor as the store opened them.
- The `transactions` map is left out because no modelled operation reads or writes it.
- Asynchronous dispatch on the Bukkit scheduler is left out because it is concurrency. The constructor's background pipeline is the same sequence as `Reload`.
- `CsvHandler.writePriceData` is left out because it is file output whose code is not part of this model.
- `Data.Database.Reload`: does not model `loadSectionData` or the three indicator appends of `loadEconomyData`. Their collaborators (`Section`, `EconomyDataUtil`) are not part of this model. The ensures on `economyData` covers only the seeding.
- `loadSectionData` and `Section` are left out because the `Section` code is not part of this model.
- `calculateInflation`, `calculatePopulation` and `calculateBalance` are left out because they do floating-point arithmetic and call the game server and the economy plugin. `calculateInflation` divides by `shops.size()` without checking for an empty registry.
- The bodies of `Shop.updateChange`, `Shop.loadConfiguration`, the `Shop` and `Relation` constructors, and the sub-period constructors are not part of this model. They appear as parameters or opaque types.
- The material and enchantment catalog lookups are left out because they belong to the game server. They appear as the two predicates of a `Catalog`.
- Logging is left out, including the `warn` flag of `getShop` and the error message of `updateLoan`. It has no effect on state.
- `Casing.Lower`: maps only the ASCII letters A-Z. Java's `toLowerCase` also maps other Unicode letters and depends on the default locale.
- `Data.Database.GetPurchasesLeft`: a missing shop throws a `NullPointerException` in the source; the model returns `None`. A `null` value stored in a recent-purchase map is not modelled.
- `Data.Database.LoadShopDefaults`: a top-level entry of the shops configuration that is not a section makes the source throw at line 224. The model's configuration type has no such entries.
- `Data.Database.LoadShopDefaults`: the source builds `NamespacedKey.minecraft(key)` for every item (line 227). Bukkit rejects a key with characters outside `[a-z0-9/._-]`, such as "minecraft:diamond" or a name with a space, with an `IllegalArgumentException`, which aborts the whole pass. The model's `Catalog` predicates are total, so no entry aborts the load: such an entry is accepted when it names a material and skipped otherwise.
- `Data.Database.constructor`, `Data.Database.UpdateChanges` and `Data.Database.UpdateRelations` require lower-case shop keys (`Valid`). The constructor requires them of the stored map, and the two loops require them because `getShop` would return `null` for a shop stored under another key. The invariant holds because every write to `shops` in Database.java uses a lower-cased key (lines 161, 225, 245), so a store written only by this code has none other.
- The model visits key sets in an arbitrary order. Both loops write distinct keys, so the final state does not depend on HashMap iteration order.
- `change`, prices, ratios and indicator samples are `real` numbers. Floating-point rounding is not modelled.
- `Persistent.TimePeriod.AddToMap`: the Java `int` returned by `Map.size()` is treated as unbounded, so overflow after 2^31 snapshots is not modelled. The history is the `map` field of the database that owns it.
- Lombok getters are plain field reads.
