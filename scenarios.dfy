/** Worked examples of the evaluator on single cards. */
module Scenarios {
  import opened Wrappers
  import opened Numeric
  import opened Rules

  function PlainCard(name: string): Card
  {
    Card(name, "miles", 0.0, 0.0, map[], None, None, false, [], [], None, None, None, "")
  }

  /** A shopping bonus of 4 mpd on a S$100 home-currency purchase earns 400 miles at 4 mpd. */
  lemma CategoryBonusAtHome()
    ensures var card := PlainCard("A").(baseMpd := 1.2, categoryMpd := map["shopping" := 4.0]);
            var r := ComputeCardRewards(card, 100.0, "shopping", false, "5311", "miles", "SGD");
            !r.blocked && r.miles == 400.0 && r.effectiveMpd == Some(4.0)
  {
    HomeCurrencyAnyCase("SGD");
    assert Times(100.0, 4.0) == 400.0;
    Round2OfCents(400.0);
  }

  /** A card that lists MCC 5411 as blocked earns nothing on it, and says so in its reason. */
  lemma BlockedMcc()
    ensures var card := PlainCard("B").(baseMpd := 1.0, cashbackRate := 1.5, blockedMccs := ["5411"]);
            var r := ComputeCardRewards(card, 80.0, "groceries", false, "5411", "miles", "SGD");
            r.blocked && r.miles == 0.0 && r.cashback == 0.0 &&
            r.blockedReason == MccBlockedMessage("5411", "B")
  {
    var card := PlainCard("B").(baseMpd := 1.0, cashbackRate := 1.5, blockedMccs := ["5411"]);
    BlockedReasonMccOnly(card, "groceries", "5411");
  }

  /**
   * Abroad, a card whose bonuses are home-only drops its 4 mpd dining bonus for its 2 mpd FCY
   * rate: S$50 earns 100 miles.
   */
  lemma HomeOnlyBonusAbroad()
    ensures var card := PlainCard("C").(baseMpd := 1.2, fcyMpd := Some(2.0), noFcyBonus := true,
                                        categoryMpd := map["dining" := 4.0]);
            var r := ComputeCardRewards(card, 50.0, "dining", false, "5812", "miles", "USD");
            !r.blocked && r.effectiveMpd == Some(2.0) && r.miles == 100.0 && r.isFcy == Some(true)
  {
    HomeCurrencyAnyCase("USD");
    assert Times(50.0, 2.0) == 100.0;
    Round2OfCents(100.0);
  }

  /** Without the home-only restriction, a higher FCY rate upgrades the category rate abroad. */
  lemma FcyUpgradeAbroad()
    ensures var card := PlainCard("D").(baseMpd := 0.4, fcyMpd := Some(2.4), categoryMpd := map["dining" := 1.2]);
            var r := ComputeCardRewards(card, 10.0, "dining", true, "5812", "miles", "usd");
            !r.blocked && r.effectiveMpd == Some(2.4) && r.miles == 24.0
  {
    HomeCurrencyAnyCase("usd");
    assert Times(10.0, 2.4) == 24.0;
    Round2OfCents(24.0);
  }
}
