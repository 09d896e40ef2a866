/**
 * Composite snapshots of the economy and the history they are appended to,
 * keyed by the history's size at the time of the append.
 */
module Persistent {
  /** The five sub-snapshots; what each captures is decided by its own code. */
  type ItemTimePeriod(0)
  type EnchantmentsTimePeriod(0)
  type TransactionsTimePeriod(0)
  type LoanTimePeriod(0)
  type GdpTimePeriod(0)

  /** What each cache holds when a snapshot is taken. */
  datatype Caches = Caches(
    items: ItemTimePeriod,
    enchantments: EnchantmentsTimePeriod,
    transactions: TransactionsTimePeriod,
    loans: LoanTimePeriod,
    gdp: GdpTimePeriod)

  /** The sub-snapshot kinds, to record the order in which they are taken. */
  datatype Part = ItemPart | EnchantmentPart | TransactionPart | LoanPart | GdpPart

  /** The fixed capture order: item, enchantment, transaction, loan, GDP. */
  const CaptureOrder: seq<Part> := [ItemPart, EnchantmentPart, TransactionPart, LoanPart, GdpPart]

  /** The keys of `m` are exactly 0, 1, ..., |m| - 1. */
  ghost predicate Dense<V>(m: map<int, V>) {
    forall i :: i in m <==> 0 <= i < |m|
  }

  /** `m` with `v` stored at key `|m|`, the map's current size. */
  function Append<V>(m: map<int, V>, v: V): (r: map<int, V>)
    ensures |m| in r && r[|m|] == v
    ensures Dense(m) ==> Dense(r) && |r| == |m| + 1
    ensures Dense(m) ==> forall i :: i in m ==> i in r && r[i] == m[i]
  {
    m[|m| := v]
  }

  /** `m` after appending each of `vs` in turn. */
  function AppendAll<V>(m: map<int, V>, vs: seq<V>): map<int, V>
    decreases |vs|
  {
    if vs == [] then m else Append(AppendAll(m, vs[..|vs| - 1]), vs[|vs| - 1])
  }

  /** Appending n snapshots to an empty history stores the i-th of them at key i. */
  lemma {:induction false} AppendAllFromEmpty<V>(vs: seq<V>)
    ensures Dense(AppendAll(map[], vs))
    ensures AppendAll(map[], vs) == map i | 0 <= i < |vs| :: vs[i]
    decreases |vs|
  {
    if vs != [] {
      var init := vs[..|vs| - 1];
      AppendAllFromEmpty(init);
      var r := AppendAll(map[], vs);
      var expected := map i | 0 <= i < |vs| :: vs[i];
      assert |AppendAll(map[], init)| == |init|;
      assert r.Keys == expected.Keys;
    }
  }

  /** Three appends to an empty history use the keys 0, 1 and 2. */
  lemma ThreeAppends<V>(a: V, b: V, c: V)
    ensures Append(Append(Append(map[], a), b), c) == map[0 := a, 1 := b, 2 := c]
  {
    var m1 := Append(map[], a);
    var m2 := Append(m1, b);
    assert m1 == map[0 := a];
    assert m2 == map[0 := a, 1 := b];
  }

  /** Density is what keeps appends from overwriting: with a gap, the append lands on a used key. */
  lemma AppendWithGapOverwrites<V>(a: V, b: V)
    requires a != b
    ensures var m := map[1 := a]; !Dense(m) && 1 in m && Append(m, b)[1] != m[1]
  {
    var m := map[1 := a];
    assert !(0 in m);
  }

  class TimePeriod {
    var itp: ItemTimePeriod
    var etp: EnchantmentsTimePeriod
    var ttp: TransactionsTimePeriod
    var ltp: LoanTimePeriod
    var gtp: GdpTimePeriod
    /** The sub-snapshots taken so far, in order. */
    ghost var captured: seq<Part>

    /** Takes the five sub-snapshots from the caches, one after the other. */
    constructor (caches: Caches)
      ensures itp == caches.items && etp == caches.enchantments && ttp == caches.transactions
      ensures ltp == caches.loans && gtp == caches.gdp
      ensures captured == CaptureOrder
    {
      new;
      captured := [];
      GetFromCache(caches);
    }

    method GetFromCache(caches: Caches)
      modifies this
      ensures itp == caches.items && etp == caches.enchantments && ttp == caches.transactions
      ensures ltp == caches.loans && gtp == caches.gdp
      ensures captured == old(captured) + CaptureOrder
    {
      GetItpFromCache(caches);
      GetEtpFromCache(caches);
      GetTtpFromCache(caches);
      GetLtpFromCache(caches);
      GetGtpFromCache(caches);
    }

    method GetItpFromCache(caches: Caches)
      modifies this`itp, this`captured
      ensures itp == caches.items && captured == old(captured) + [ItemPart]
    {
      itp := caches.items;
      captured := captured + [ItemPart];
    }

    method GetEtpFromCache(caches: Caches)
      modifies this`etp, this`captured
      ensures etp == caches.enchantments && captured == old(captured) + [EnchantmentPart]
    {
      etp := caches.enchantments;
      captured := captured + [EnchantmentPart];
    }

    method GetTtpFromCache(caches: Caches)
      modifies this`ttp, this`captured
      ensures ttp == caches.transactions && captured == old(captured) + [TransactionPart]
    {
      ttp := caches.transactions;
      captured := captured + [TransactionPart];
    }

    method GetLtpFromCache(caches: Caches)
      modifies this`ltp, this`captured
      ensures ltp == caches.loans && captured == old(captured) + [LoanPart]
    {
      ltp := caches.loans;
      captured := captured + [LoanPart];
    }

    method GetGtpFromCache(caches: Caches)
      modifies this`gtp, this`captured
      ensures gtp == caches.gdp && captured == old(captured) + [GdpPart]
    {
      gtp := caches.gdp;
      captured := captured + [GdpPart];
    }

    /**
     * Stores this snapshot in the history under the history's current size.
     * On a dense history this is a fresh key: nothing stored is overwritten.
     */
    method AddToMap(history: History)
      modifies history
      ensures history.periods == Append(old(history.periods), this)
      ensures old(history.Valid()) ==> history.Valid() && |history.periods| == |old(history.periods)| + 1
      ensures old(history.Valid()) ==> forall i :: i in old(history.periods) ==>
                i in history.periods && history.periods[i] == old(history.periods)[i]
    {
      var size := |history.periods|;
      history.periods := history.periods[size := this];
    }
  }

  /** The snapshot history shared by every `TimePeriod`. */
  class History {
    var periods: map<int, TimePeriod>

    ghost predicate Valid()
      reads this
    {
      Dense(periods)
    }

    constructor ()
      ensures Valid() && periods == map[]
    {
      periods := map[];
    }
  }

  /** Three snapshots committed to a new history land at 0, 1 and 2. */
  method CommitThree(p0: TimePeriod, p1: TimePeriod, p2: TimePeriod) returns (history: History)
    ensures history.periods == map[0 := p0, 1 := p1, 2 := p2]
  {
    history := new History();
    p0.AddToMap(history);
    p1.AddToMap(history);
    p2.AddToMap(history);
    ThreeAppends(p0, p1, p2);
  }
}
