/**
 * The reward rule evaluator: given one card of the catalog and one transaction, decide
 * whether the card is blocked, resolve its miles-per-dollar rate (base, then online bonus,
 * then category override, then the foreign-currency adjustment), compute miles and cashback
 * and attach the advisory bonus-cap note.
 *
 * A card record's optional keys are fields here; a key the record leaves out is represented
 * by the default the evaluator reads in its place (`type` "miles", `base_mpd` and
 * `cashback_rate` 0.0, an empty `category_mpd`, empty blocked lists, `no_fcy_bonus` false,
 * empty `notes`). The keys whose absence the evaluator tests for are `Option`s.
 */
module Rules {
  import opened Wrappers
  import opened Text
  import opened Numeric

  /** An annual fee as the catalog stores it: its amount and the text Python's `str` gives for it. */
  datatype Fee = Fee(amount: real, text: string)

  datatype Card = Card(
    name: string,
    cardType: string,
    baseMpd: real,
    cashbackRate: real,
    categoryMpd: map<string, real>,
    onlineMpd: Option<real>,
    fcyMpd: Option<real>,
    noFcyBonus: bool,
    blockedCategories: seq<string>,
    blockedMccs: seq<string>,
    bonusCapAmount: Option<real>,
    annualFee: Option<Fee>,
    annualFeeWaivable: Option<bool>,
    notes: string)

  /**
   * The evaluator's result record. A blocked result carries no `is_fcy` and no
   * `effective_mpd` key; those two are `None` there.
   */
  datatype RewardResult = RewardResult(
    cardName: string,
    cardType: string,
    miles: real,
    cashback: real,
    blocked: bool,
    blockedReason: string,
    capped: bool,
    capNote: string,
    notes: string,
    annualFee: Option<Fee>,
    annualFeeWaivable: bool,
    isFcy: Option<bool>,
    effectiveMpd: Option<real>)

  /** Python truthiness of an optional number: present and non-zero. */
  predicate Truthy(x: Option<real>)
  {
    x.Some? && x.value != 0.0
  }

  const HomeCurrency: string := "SGD"

  lemma UpperCharIs(c: char, u: char)
    requires IsUpperAscii(u)
    ensures UpperChar(c) == u <==> c == u || c as int == u as int + 32
  {
  }

  /** Three characters upper-case to "SGD" exactly when they are s, g and d in either case. */
  lemma SgdLetters(a: char, b: char, c: char)
    ensures [UpperChar(a), UpperChar(b), UpperChar(c)] == HomeCurrency <==> a in "sS" && b in "gG" && c in "dD"
  {
    UpperCharIs(a, 'S');
    UpperCharIs(b, 'G');
    UpperCharIs(c, 'D');
  }

  lemma UpperOfThree(s: string)
    requires |s| == 3
    ensures Upper(s) == [UpperChar(s[0]), UpperChar(s[1]), UpperChar(s[2])]
  {
    var u := Upper(s);
    assert u[0] == UpperChar(s[0]) && u[1] == UpperChar(s[1]) && u[2] == UpperChar(s[2]);
  }

  /** Every casing of "SGD", and nothing else, upper-cases to the home currency. */
  lemma HomeCurrencyAnyCase(currency: string)
    ensures Upper(currency) == HomeCurrency <==>
      |currency| == 3 && currency[0] in "sS" && currency[1] in "gG" && currency[2] in "dD"
  {
    if |currency| == 3 {
      UpperOfThree(currency);
      SgdLetters(currency[0], currency[1], currency[2]);
    } else {
      assert |Upper(currency)| != |HomeCurrency|;
    }
  }

  /** A transaction is foreign-currency unless its currency is "SGD" in some letter case. */
  function IsFcy(currency: string): (fcy: bool)
    ensures !fcy <==> |currency| == 3 && currency[0] in "sS" && currency[1] in "gG" && currency[2] in "dD"
  {
    HomeCurrencyAnyCase(currency);
    Upper(currency) != HomeCurrency
  }

  // ---------- 1) blocking ----------

  predicate BlockedByCategory(card: Card, category: string)
  {
    category in card.blockedCategories
  }

  /** An empty MCC never blocks, whatever the card lists. */
  predicate BlockedByMcc(card: Card, mcc: string)
  {
    mcc != "" && mcc in card.blockedMccs
  }

  function CategoryBlockedMessage(category: string, name: string): (m: string)
    ensures m != [] && Trimmed(m)
  {
    "Category '" + category + "' is blocked for " + name + "."
  }

  function MccBlockedMessage(mcc: string, name: string): (m: string)
    ensures m != [] && Trimmed(m)
  {
    "MCC " + mcc + " is blocked for " + name + "."
  }

  const BlockedFallback: string := "Blocked category/MCC."

  /** `(a + " " + b).strip()` of two trimmed messages: `b` alone when `a` is empty, else both, one space apart. */
  lemma StripJoined(a: string, b: string)
    requires Trimmed(a) && Trimmed(b) && b != []
    ensures Strip(a + " " + b) == if a == "" then b else a + " " + b
  {
    if a == "" {
      assert a + " " + b == " " + b;
      StripSpacePrefix(b);
    } else {
      var both := a + " " + b;
      assert both[0] == a[0] && both[|both| - 1] == b[|b| - 1];
      StripTrimmed(both);
    }
  }

  /** `(a + " " + b).strip()` for the blocked reason: never empty once `b` is a message. */
  function JoinMessages(a: string, b: string): (r: string)
    requires Trimmed(a) && Trimmed(b) && b != []
    ensures r != "" && r == if a == "" then b else a + " " + b
  {
    StripJoined(a, b);
    Strip(a + " " + b)
  }

  /**
   * The reason a blocked result gives: the category message when the category is blocked, then
   * the MCC message when the MCC is, joined by one space and stripped; the fallback text stands
   * in for an empty reason.
   */
  function BlockedReason(card: Card, category: string, mcc: string): (r: string)
    ensures r != ""
    ensures !BlockedByCategory(card, category) && !BlockedByMcc(card, mcc) ==> r == BlockedFallback
    ensures BlockedByCategory(card, category) && !BlockedByMcc(card, mcc) ==> r == CategoryBlockedMessage(category, card.name)
  {
    var afterCategory := if BlockedByCategory(card, category) then CategoryBlockedMessage(category, card.name) else "";
    var afterMcc := if BlockedByMcc(card, mcc) then JoinMessages(afterCategory, MccBlockedMessage(mcc, card.name)) else afterCategory;
    if afterMcc == "" then BlockedFallback else afterMcc
  }

  /** Both checks fire: the category message, one space, then the MCC message. */
  lemma BlockedReasonBoth(card: Card, category: string, mcc: string)
    requires BlockedByCategory(card, category) && BlockedByMcc(card, mcc)
    ensures BlockedReason(card, category, mcc) ==
      CategoryBlockedMessage(category, card.name) + " " + MccBlockedMessage(mcc, card.name)
  {
    StripJoined(CategoryBlockedMessage(category, card.name), MccBlockedMessage(mcc, card.name));
  }

  /** Only the MCC check fires: the MCC message alone, with no leading space. */
  lemma BlockedReasonMccOnly(card: Card, category: string, mcc: string)
    requires !BlockedByCategory(card, category) && BlockedByMcc(card, mcc)
    ensures BlockedReason(card, category, mcc) == MccBlockedMessage(mcc, card.name)
  {
    StripJoined("", MccBlockedMessage(mcc, card.name));
  }

  /**
   * A blocked card always has a reason; with both checks firing it is the category message,
   * one space, then the MCC message; with one firing, that one's message alone.
   */
  lemma BlockedReasonShape(card: Card, category: string, mcc: string)
    requires BlockedByCategory(card, category) || BlockedByMcc(card, mcc)
    ensures BlockedReason(card, category, mcc) != ""
    ensures BlockedByCategory(card, category) && BlockedByMcc(card, mcc) ==>
      BlockedReason(card, category, mcc) == CategoryBlockedMessage(category, card.name) + " " + MccBlockedMessage(mcc, card.name)
    ensures BlockedByCategory(card, category) && !BlockedByMcc(card, mcc) ==>
      BlockedReason(card, category, mcc) == CategoryBlockedMessage(category, card.name)
    ensures !BlockedByCategory(card, category) && BlockedByMcc(card, mcc) ==>
      BlockedReason(card, category, mcc) == MccBlockedMessage(mcc, card.name)
  {
    if BlockedByMcc(card, mcc) {
      if BlockedByCategory(card, category) {
        BlockedReasonBoth(card, category, mcc);
      } else {
        BlockedReasonMccOnly(card, category, mcc);
      }
    }
  }

  // ---------- 2) rate resolution, one step per rule ----------

  /** Step (b): an online transaction takes the online rate when it is set and non-zero. */
  function OnlineStep(card: Card, isOnline: bool, mpd: real): real
  {
    if isOnline && Truthy(card.onlineMpd) then card.onlineMpd.value else mpd
  }

  /** Step (c): a category with its own rate takes that rate, whatever came before. */
  function CategoryStep(card: Card, category: string, mpd: real): real
  {
    if category in card.categoryMpd then card.categoryMpd[category] else mpd
  }

  /** Step (d): the foreign-currency adjustment. */
  function FcyStep(card: Card, isFcy: bool, mpd: real): real
  {
    if !isFcy then mpd
    else if card.noFcyBonus then (if card.fcyMpd.Some? then card.fcyMpd.value else card.baseMpd)
    else if card.fcyMpd.Some? && card.fcyMpd.value > mpd then card.fcyMpd.value
    else mpd
  }

  /**
   * The home-currency rate, read as a priority list: the category's own rate if it has one,
   * else the online rate if it applies, else the base rate.
   */
  function LocalRate(card: Card, category: string, isOnline: bool): real
  {
    if category in card.categoryMpd then card.categoryMpd[category]
    else if isOnline && Truthy(card.onlineMpd) then card.onlineMpd.value
    else card.baseMpd
  }

  function Max(a: real, b: real): real
  {
    if a < b then b else a
  }

  /**
   * The rate a transaction earns, stated rule by rule: the local rate at home; abroad, on a card
   * whose bonuses are home-only, the FCY rate or else the base rate; abroad otherwise, the larger
   * of the local rate and the FCY rate.
   */
  function RateSpec(card: Card, category: string, isOnline: bool, isFcy: bool): real
  {
    var local := LocalRate(card, category, isOnline);
    if !isFcy then local
    else if card.noFcyBonus then card.fcyMpd.GetOr(card.baseMpd)
    else if card.fcyMpd.Some? then Max(local, card.fcyMpd.value)
    else local
  }

  /** The ordered pipeline base, online, category, FCY. */
  function ResolvedRate(card: Card, category: string, isOnline: bool, isFcy: bool): (mpd: real)
    ensures !isFcy ==> mpd == LocalRate(card, category, isOnline)
    ensures isFcy && card.noFcyBonus ==> mpd == card.fcyMpd.GetOr(card.baseMpd)
    ensures isFcy && !card.noFcyBonus ==>
      mpd >= LocalRate(card, category, isOnline) &&
      (mpd == LocalRate(card, category, isOnline) ||
       (card.fcyMpd == Some(mpd) && mpd > LocalRate(card, category, isOnline)))
    ensures isFcy && !card.noFcyBonus && card.fcyMpd.Some? && card.fcyMpd.value > LocalRate(card, category, isOnline) ==>
      mpd == card.fcyMpd.value
  {
    FcyStep(card, isFcy, CategoryStep(card, category, OnlineStep(card, isOnline, card.baseMpd)))
  }

  /** The pipeline and the rule-by-rule statement give the same rate on every input. */
  lemma ResolvedRateMeetsSpec(card: Card, category: string, isOnline: bool, isFcy: bool)
    ensures ResolvedRate(card, category, isOnline, isFcy) == RateSpec(card, category, isOnline, isFcy)
  {
  }

  /** A category rate wins over the online rate: at home it is the rate, and in any currency the online flag then makes no difference. */
  lemma CategoryBeatsOnline(card: Card, category: string, isOnline: bool, isFcy: bool)
    requires category in card.categoryMpd
    ensures ResolvedRate(card, category, isOnline, false) == card.categoryMpd[category]
    ensures ResolvedRate(card, category, true, isFcy) == ResolvedRate(card, category, false, isFcy)
  {
  }

  /**
   * Abroad, a card with home-only bonuses earns the same whatever the category and the online
   * flag: every category or online bonus is dropped, even a larger one.
   */
  lemma FcyDiscardsBonuses(card: Card, c1: string, o1: bool, c2: string, o2: bool)
    requires card.noFcyBonus
    ensures ResolvedRate(card, c1, o1, true) == ResolvedRate(card, c2, o2, true)
    ensures ResolvedRate(card, c1, o1, true) == card.fcyMpd.GetOr(card.baseMpd)
  {
  }

  // ---------- 3) cashback ----------

  /** Cashback is the rounded percentage of the amount; a zero rate is not special. */
  function Cashback(card: Card, amount: real): (c: real)
    ensures c == Round2(Times(amount, card.cashbackRate) / 100.0)
  {
    var raw := if card.cashbackRate != 0.0 then Times(amount, card.cashbackRate) / 100.0 else 0.0;
    Round2Zero();
    Round2(raw)
  }

  // ---------- 4) bonus cap notes ----------

  datatype CapAnnotation = CapAnnotation(capped: bool, note: string)

  /** The cap as `{cap:.0f}` renders it. */
  function CapText(cap: real): string
  {
    IntText(RoundHalfEven(cap))
  }

  function CapExceededNote(name: string, cap: real): (m: string)
    ensures m != ""
  {
    "Bonus rate for " + name + " usually capped at about S$" + CapText(cap) + "/month; this txn exceeds that."
  }

  function CapMonthlyNote(name: string, cap: real): (m: string)
    ensures m != ""
  {
    "Bonus earn for " + name + " usually capped at about S$" + CapText(cap) + "/month. " +
    "This app doesn't track monthly usage yet."
  }

  /**
   * The advisory note: a set, non-zero cap always yields a note, and marks the transaction as
   * capped exactly when its amount alone exceeds the cap.
   */
  function Annotate(card: Card, amount: real): (a: CapAnnotation)
    ensures a.capped <==> Truthy(card.bonusCapAmount) && amount > card.bonusCapAmount.value
    ensures a.note != "" <==> Truthy(card.bonusCapAmount)
  {
    if Truthy(card.bonusCapAmount) then
      var cap := card.bonusCapAmount.value;
      if amount > cap then CapAnnotation(true, CapExceededNote(card.name, cap))
      else CapAnnotation(false, CapMonthlyNote(card.name, cap))
    else CapAnnotation(false, "")
  }

  // ---------- the evaluator ----------

  /** The result of a card that is not blocked: steps 2 to 4 of the evaluator. */
  function EarningResult(card: Card, amount: real, category: string, isOnline: bool, currency: string): (r: RewardResult)
    ensures r.cardName == card.name && r.cardType == card.cardType && r.notes == card.notes
    ensures r.annualFee == card.annualFee && r.annualFeeWaivable == card.annualFeeWaivable.GetOr(true)
    ensures !r.blocked && r.blockedReason == ""
    ensures r.isFcy == Some(IsFcy(currency))
    ensures r.effectiveMpd == Some(RateSpec(card, category, isOnline, IsFcy(currency)))
    ensures r.miles == Round2(Times(amount, r.effectiveMpd.value))
    ensures r.cashback == Round2(Times(amount, card.cashbackRate) / 100.0)
    ensures r.capped <==> Truthy(card.bonusCapAmount) && amount > card.bonusCapAmount.value
    ensures r.capNote != "" <==> Truthy(card.bonusCapAmount)
  {
    var fcy := IsFcy(currency);
    var mpd := ResolvedRate(card, category, isOnline, fcy);
    ResolvedRateMeetsSpec(card, category, isOnline, fcy);
    var cap := Annotate(card, amount);
    RewardResult(card.name, card.cardType, Round2(Times(amount, mpd)), Cashback(card, amount), false, "",
                 cap.capped, cap.note, card.notes, card.annualFee, card.annualFeeWaivable.GetOr(true),
                 Some(fcy), Some(mpd))
  }

  /** The result of a blocked card: nothing earned, no rate, no FCY flag, no cap note. */
  function BlockedResult(card: Card, category: string, mcc: string): (r: RewardResult)
    requires BlockedByCategory(card, category) || BlockedByMcc(card, mcc)
    ensures r.cardName == card.name && r.cardType == card.cardType && r.notes == card.notes
    ensures r.annualFee == card.annualFee && r.annualFeeWaivable == card.annualFeeWaivable.GetOr(true)
    ensures r.blocked && r.blockedReason == BlockedReason(card, category, mcc) && r.blockedReason != ""
    ensures r.miles == 0.0 && r.cashback == 0.0 && !r.capped && r.capNote == ""
    ensures r.isFcy.None? && r.effectiveMpd.None?
  {
    BlockedReasonShape(card, category, mcc);
    RewardResult(card.name, card.cardType, 0.0, 0.0, true, BlockedReason(card, category, mcc),
                 false, "", card.notes, card.annualFee, card.annualFeeWaivable.GetOr(true), None, None)
  }

  /**
   * `compute_card_rewards`. `mode` is accepted and never read. A blocked card earns nothing
   * and skips the rate, FCY and cap steps; otherwise miles are the rounded product of the
   * amount and the resolved rate, cashback is computed on its own, and the cap note never
   * touches either.
   */
  function ComputeCardRewards(card: Card, amount: real, category: string, isOnline: bool,
                              mcc: string, mode: string, currency: string): (r: RewardResult)
    ensures r.cardName == card.name && r.cardType == card.cardType && r.notes == card.notes
    ensures r.annualFee == card.annualFee && r.annualFeeWaivable == card.annualFeeWaivable.GetOr(true)
    ensures r.blocked <==> BlockedByCategory(card, category) || BlockedByMcc(card, mcc)
    ensures r.blocked ==>
      r.miles == 0.0 && r.cashback == 0.0 && !r.capped && r.capNote == "" &&
      r.blockedReason == BlockedReason(card, category, mcc) && r.blockedReason != "" &&
      r.isFcy.None? && r.effectiveMpd.None?
    ensures !r.blocked ==>
      r.blockedReason == "" &&
      r.isFcy == Some(IsFcy(currency)) &&
      r.effectiveMpd == Some(RateSpec(card, category, isOnline, IsFcy(currency))) &&
      r.miles == Round2(Times(amount, r.effectiveMpd.value)) &&
      r.cashback == Round2(Times(amount, card.cashbackRate) / 100.0) &&
      (r.capped <==> Truthy(card.bonusCapAmount) && amount > card.bonusCapAmount.value) &&
      (r.capNote != "" <==> Truthy(card.bonusCapAmount))
  {
    if BlockedByCategory(card, category) || BlockedByMcc(card, mcc) then BlockedResult(card, category, mcc)
    else EarningResult(card, amount, category, isOnline, currency)
  }

  /** The evaluator's result does not depend on the mode argument. */
  lemma ModeIgnored(card: Card, amount: real, category: string, isOnline: bool, mcc: string,
                    m1: string, m2: string, currency: string)
    ensures ComputeCardRewards(card, amount, category, isOnline, mcc, m1, currency) ==
            ComputeCardRewards(card, amount, category, isOnline, mcc, m2, currency)
  {
  }

  /** The cap never changes miles or cashback: two cards that differ only in their cap earn the same. */
  lemma CapIsAdvisory(card: Card, cap: Option<real>, amount: real, category: string, isOnline: bool,
                      mcc: string, mode: string, currency: string)
    ensures var a := ComputeCardRewards(card, amount, category, isOnline, mcc, mode, currency);
            var b := ComputeCardRewards(card.(bonusCapAmount := cap), amount, category, isOnline, mcc, mode, currency);
            a.miles == b.miles && a.cashback == b.cashback && a.effectiveMpd == b.effectiveMpd && a.blocked == b.blocked
  {
    var other := card.(bonusCapAmount := cap);
    assert BlockedByCategory(other, category) == BlockedByCategory(card, category);
    assert BlockedByMcc(other, mcc) == BlockedByMcc(card, mcc);
    assert RateSpec(other, category, isOnline, IsFcy(currency)) == RateSpec(card, category, isOnline, IsFcy(currency));
  }

  /** Every rate the card can apply is non-negative. */
  predicate NonNegativeRates(card: Card)
  {
    card.baseMpd >= 0.0 && card.cashbackRate >= 0.0 &&
    (forall c :: c in card.categoryMpd ==> card.categoryMpd[c] >= 0.0) &&
    (card.onlineMpd.Some? ==> card.onlineMpd.value >= 0.0) &&
    (card.fcyMpd.Some? ==> card.fcyMpd.value >= 0.0)
  }

  lemma RateSpecNonNegative(card: Card, category: string, isOnline: bool, isFcy: bool)
    requires NonNegativeRates(card)
    ensures RateSpec(card, category, isOnline, isFcy) >= 0.0
  {
  }

  /** A non-negative amount on a card with non-negative rates never earns negative rewards. */
  lemma RewardsNonNegative(card: Card, amount: real, category: string, isOnline: bool,
                           mcc: string, mode: string, currency: string)
    requires NonNegativeRates(card) && amount >= 0.0
    ensures var r := ComputeCardRewards(card, amount, category, isOnline, mcc, mode, currency);
            r.miles >= 0.0 && r.cashback >= 0.0
  {
    RateSpecNonNegative(card, category, isOnline, IsFcy(currency));
    TimesNonNegative(amount, RateSpec(card, category, isOnline, IsFcy(currency)));
    TimesNonNegative(amount, card.cashbackRate);
  }

  /**
   * On a card whose bonuses also apply abroad, paying in a foreign currency never earns fewer
   * rounded miles than paying the same amount in the home currency.
   */
  lemma FcyNeverLowersMiles(card: Card, amount: real, category: string, isOnline: bool,
                            mcc: string, mode: string, currency: string)
    requires !card.noFcyBonus && amount >= 0.0
    ensures ComputeCardRewards(card, amount, category, isOnline, mcc, mode, currency).miles >=
            ComputeCardRewards(card, amount, category, isOnline, mcc, mode, HomeCurrency).miles
  {
    if !(BlockedByCategory(card, category) || BlockedByMcc(card, mcc)) {
      var home := RateSpec(card, category, isOnline, IsFcy(HomeCurrency));
      var here := RateSpec(card, category, isOnline, IsFcy(currency));
      assert home == LocalRate(card, category, isOnline);
      assert here >= home;
      TimesMonotone(amount, home, here);
      Round2Monotone(Times(amount, home), Times(amount, here));
    }
  }
}
