/** Per-enchantment trade counters with the current price and price ratio. */
module Ephemeral {
  import JavaInt

  class EnchantmentData {
    var buys: JavaInt.Int32
    var sells: JavaInt.Int32
    var price: real
    var ratio: real

    /** Both counters are non-negative. */
    ghost predicate Valid()
      reads this
    {
      buys >= 0 && sells >= 0
    }

    constructor (price: real, ratio: real)
      ensures Valid()
      ensures buys == 0 && sells == 0
      ensures this.price == price && this.ratio == ratio
    {
      buys := 0;
      sells := 0;
      this.price := price;
      this.ratio := ratio;
    }

    /** Adds `amount` to the buy counter with Java int arithmetic; nothing else changes. */
    method IncreaseBuys(amount: JavaInt.Int32)
      modifies this
      ensures buys == JavaInt.Add(old(buys), amount)
      ensures sells == old(sells) && price == old(price) && ratio == old(ratio)
      ensures 0 <= amount && old(buys) + amount <= JavaInt.MAX ==> old(buys) <= buys
      ensures old(Valid()) && 0 <= amount && old(buys) + amount <= JavaInt.MAX ==> Valid()
    {
      buys := JavaInt.Add(buys, amount);
    }

    /** Adds `amount` to the sell counter with Java int arithmetic; nothing else changes. */
    method IncreaseSells(amount: JavaInt.Int32)
      modifies this
      ensures sells == JavaInt.Add(old(sells), amount)
      ensures buys == old(buys) && price == old(price) && ratio == old(ratio)
      ensures 0 <= amount && old(sells) + amount <= JavaInt.MAX ==> old(sells) <= sells
      ensures old(Valid()) && 0 <= amount && old(sells) + amount <= JavaInt.MAX ==> Valid()
    {
      sells := JavaInt.Add(sells, amount);
    }

    method SetPrice(price: real)
      modifies this
      ensures this.price == price
      ensures buys == old(buys) && sells == old(sells) && ratio == old(ratio)
    {
      this.price := price;
    }

    method SetRatio(ratio: real)
      modifies this
      ensures this.ratio == ratio
      ensures buys == old(buys) && sells == old(sells) && price == old(price)
    {
      this.ratio := ratio;
    }
  }

  /** A buy counter at the largest int that is increased by one becomes negative. */
  method BuysOverflowGoesNegative() returns (d: EnchantmentData)
    ensures d.buys < 0
  {
    d := new EnchantmentData(1.0, 1.0);
    d.IncreaseBuys(JavaInt.MAX);
    d.IncreaseBuys(1);
    JavaInt.AddOverflowWraps();
  }
}
