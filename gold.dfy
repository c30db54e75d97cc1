/** Gold coins on the map (src/domain/objects/items/gold.py). */
module GoldItem {
  import opened RogueTypes

  const Symbol: string := "◈"
  const Color := 9

  /** A pile of gold; the amount is fixed when the pile is created. */
  datatype Gold = Gold(amount: int)

  /**
   * A pile created on `level`: `int(uniform(10, 20 + level) * (level / 7))`,
   * given here as the drawn `amount`, within the range that draw can reach.
   */
  function NewGold(level: nat, amount: int): (g: Gold)
    requires 10 * level / 7 <= amount <= (20 + level) * level / 7
    ensures g.amount == amount && 0 <= g.amount
  {
    Gold(amount)
  }

  /** The Russian noun phrase for `value` coins, chosen by the last digit alone. */
  function Spelling(value: int): (sp: string)
    ensures value % 10 == 1 <==> sp == "золотую монету"
    ensures value % 10 in {2, 3, 4} <==> sp == "золотые монеты"
    ensures !(value % 10 in {1, 2, 3, 4}) <==> sp == "золотых монет"
  {
    if value % 10 == 1 then "золотую монету"
    else if value % 10 in {2, 3, 4} then "золотые монеты"
    else "золотых монет"
  }

  /** Only the last digit matters: 11 to 14 are not treated apart from 1 to 4. */
  lemma SpellingLastDigit(value: int, tens: int)
    ensures Spelling(value + 10 * tens) == Spelling(value)
  {
    assert (value + 10 * tens) % 10 == value % 10;
  }

  /** Picking up reports the pile and yields exactly its amount. */
  function PickUp(g: Gold): (r: (seq<RogueEvent>, int))
    ensures r.1 == g.amount && |r.0| == 1
  {
    ([Event("Вы нашли " + IntToString(g.amount) + " " + Spelling(g.amount))], g.amount)
  }

  function ToString(g: Gold): string
  {
    "Золото: " + IntToString(g.amount)
  }
}
