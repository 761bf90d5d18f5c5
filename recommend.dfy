/**
 * The card recommendation endpoint: classify the merchant from its host name, resolve the
 * category through the MCC table, sanitise the mode, evaluate every enabled card of the
 * catalog, keep the first strictly best one, sort the breakdown and explain the pick.
 * The catalog and the MCC table are parameters; the merchant table is the fixed one below.
 */
module Recommend {
  import opened Wrappers
  import opened Text
  import opened Rules
  import opened Ranking

  // ---------- merchant classification ----------

  datatype MerchantInfo = MerchantInfo(category: string, isOnline: bool, mcc: string)

  /** One entry of the merchant table: a host fragment and what a host containing it is. */
  datatype MerchantRule = MerchantRule(key: string, info: MerchantInfo)

  /** The merchant table, in its insertion order. */
  const MerchantMap: seq<MerchantRule> := [
    MerchantRule("shopee", MerchantInfo("shopping", true, "5311")),
    MerchantRule("lazada", MerchantInfo("shopping", true, "5311")),
    MerchantRule("qoo10", MerchantInfo("shopping", true, "5311")),
    MerchantRule("amazon", MerchantInfo("shopping", true, "5311")),
    MerchantRule("agoda", MerchantInfo("travel", true, "4722")),
    MerchantRule("booking", MerchantInfo("travel", true, "4722")),
    MerchantRule("expedia", MerchantInfo("travel", true, "4722")),
    MerchantRule("ntuc", MerchantInfo("groceries", false, "5411")),
    MerchantRule("fairprice", MerchantInfo("groceries", false, "5411")),
    MerchantRule("coldstorage", MerchantInfo("groceries", false, "5411"))
  ]

  /** What an unmatched host is taken to be. */
  const UnknownMerchant: MerchantInfo := MerchantInfo("general", true, "0000")

  /** The first rule, in table order, whose key occurs in `host`; the unknown merchant if none does. */
  function FirstMatch(host: string, rules: seq<MerchantRule>): (info: MerchantInfo)
    ensures info == UnknownMerchant || exists i :: 0 <= i < |rules| && Contains(host, rules[i].key) && info == rules[i].info
  {
    if rules == [] then UnknownMerchant
    else if Contains(host, rules[0].key) then rules[0].info
    else FirstMatch(host, rules[1..])
  }

  /** Rule `i` matches `host` and no earlier rule does. */
  ghost predicate IsFirstMatch(host: string, rules: seq<MerchantRule>, i: int)
  {
    0 <= i < |rules| && Contains(host, rules[i].key) &&
    forall j :: 0 <= j < i ==> !Contains(host, rules[j].key)
  }

  /** The earliest matching rule decides, whatever later rules would say. */
  lemma {:induction false} FirstMatchIsEarliest(host: string, rules: seq<MerchantRule>, i: int)
    requires IsFirstMatch(host, rules, i)
    ensures FirstMatch(host, rules) == rules[i].info
  {
    if i > 0 {
      assert !Contains(host, rules[0].key);
      FirstMatchIsEarliest(host, rules[1..], i - 1);
    }
  }

  /** A host that no key occurs in is the unknown merchant. */
  lemma {:induction false} FirstMatchFallback(host: string, rules: seq<MerchantRule>)
    requires forall j :: 0 <= j < |rules| ==> !Contains(host, rules[j].key)
    ensures FirstMatch(host, rules) == UnknownMerchant
  {
    if rules != [] {
      FirstMatchFallback(host, rules[1..]);
    }
  }

  /** `get_merchant_info` on an already extracted host name: lower-case it, scan the table in order. */
  method GetMerchantInfo(host: string, rules: seq<MerchantRule>) returns (info: MerchantInfo)
    ensures info == FirstMatch(Lower(host), rules)
  {
    var h := Lower(host);
    for i := 0 to |rules|
      invariant FirstMatch(h, rules) == FirstMatch(h, rules[i..])
    {
      assert rules[i..][1..] == rules[i + 1..];
      if Contains(h, rules[i].key) {
        return rules[i].info;
      }
    }
    return UnknownMerchant;
  }

  /** Lower-casing an already lower-case host name changes nothing. */
  lemma LowerShopee()
    ensures Lower("shopee.sg") == "shopee.sg"
  {
    LowerEach("shopee.sg", "shopee.sg");
  }


  /** The first table entry claims every host containing "shopee". */
  lemma ShopeeIsShopping()
    ensures FirstMatch(Lower("shopee.sg"), MerchantMap) == MerchantInfo("shopping", true, "5311")
  {
    LowerShopee();
    assert "shopee" <= "shopee.sg";
  }

  /** Lower-casing a mixed-case host name. */
  lemma LowerMyDigi()
    ensures Lower("MyDigi.my") == "mydigi.my"
  {
    LowerEach("MyDigi.my", "mydigi.my");
  }


  /** No key of the merchant table starts with a letter of "mydigi.my". */
  lemma MyDigiMissesKeys()
    ensures forall j :: 0 <= j < |MerchantMap| ==> !Contains("mydigi.my", MerchantMap[j].key)
  {
    forall j | 0 <= j < |MerchantMap| ensures !Contains("mydigi.my", MerchantMap[j].key) {
      AbsentFirstChar("mydigi.my", MerchantMap[j].key);
    }
  }

  /** "MyDigi.my" contains none of the table's keys, so it falls back to the unknown merchant. */
  lemma UnmatchedHostIsGeneral()
    ensures FirstMatch(Lower("MyDigi.my"), MerchantMap) == UnknownMerchant
  {
    LowerMyDigi();
    MyDigiMissesKeys();
    FirstMatchFallback("mydigi.my", MerchantMap);
  }

  // ---------- MCC to category ----------

  /** `category_from_mcc`: the table's category for a known MCC, the fallback for an empty or unknown one. */
  function CategoryFromMcc(mcc: string, fallback: string, mccMap: map<string, string>): (c: string)
    ensures mcc == "" ==> c == fallback
    ensures mcc != "" && mcc in mccMap ==> c == mccMap[mcc]
    ensures mcc !in mccMap ==> c == fallback
  {
    if mcc == "" then fallback
    else if mcc in mccMap then mccMap[mcc]
    else fallback
  }

  /** A few entries of the MCC table. */
  const SampleMccMap: map<string, string> :=
    map["5411" := "groceries", "5812" := "dining", "5311" := "shopping", "4722" := "travel_agency"]

  /** A known MCC overrides the category; the placeholder "0000" is not in the table and keeps it. */
  lemma CategoryFromMccSamples()
    ensures CategoryFromMcc("4722", "travel", SampleMccMap) == "travel_agency"
    ensures CategoryFromMcc("0000", "general", SampleMccMap) == "general"
    ensures CategoryFromMcc("", "shopping", SampleMccMap) == "shopping"
  {
    assert "0000" != "4722" && "0000" != "5411" && "0000" != "5812" && "0000" != "5311";
  }

  /** The transaction context the endpoint derives from a host name. */
  function Classify(host: string, mccMap: map<string, string>): (ctx: MerchantInfo)
    ensures ctx.isOnline == FirstMatch(Lower(host), MerchantMap).isOnline
    ensures ctx.mcc == FirstMatch(Lower(host), MerchantMap).mcc
    ensures var info := FirstMatch(Lower(host), MerchantMap);
            ctx.category == CategoryFromMcc(info.mcc, info.category, mccMap)
  {
    var info := FirstMatch(Lower(host), MerchantMap);
    MerchantInfo(CategoryFromMcc(info.mcc, info.category, mccMap), info.isOnline, info.mcc)
  }

  // ---------- mode and card selection ----------

  /** The mode lower-cased; anything but "miles" or "cashback" becomes "miles". */
  function SanitizeMode(mode: string): (m: string)
    ensures m == "miles" || m == "cashback"
    ensures Lower(mode) == "miles" || Lower(mode) == "cashback" ==> m == Lower(mode)
    ensures Lower(mode) != "miles" && Lower(mode) != "cashback" ==> m == "miles"
  {
    var lowered := Lower(mode);
    if lowered == "miles" || lowered == "cashback" then lowered else "miles"
  }

  /** Sanitising a sanitised mode changes nothing. */
  lemma SanitizeModeIdempotent(mode: string)
    ensures SanitizeMode(SanitizeMode(mode)) == SanitizeMode(mode)
  {
    var m := SanitizeMode(mode);
    assert Lower(m) == m;
  }

  /** `a` is `b` with some elements left out, the rest in their order. */
  predicate IsSubsequence<T(==)>(a: seq<T>, b: seq<T>)
  {
    if a == [] then true
    else if b == [] then false
    else (a[0] == b[0] && IsSubsequence(a[1..], b[1..])) || IsSubsequence(a, b[1..])
  }

  /** The cards whose names are listed, in catalog order, each as often as the catalog has it. */
  function KeepNamed(cards: seq<Card>, names: seq<string>): (r: seq<Card>)
    ensures IsSubsequence(r, cards)
    ensures forall c :: multiset(r)[c] == if c.name in names then multiset(cards)[c] else 0
  {
    if cards == [] then []
    else
      var rest := KeepNamed(cards[1..], names);
      assert cards == [cards[0]] + cards[1..];
      if cards[0].name in names then
        assert ([cards[0]] + rest)[1..] == rest;
        [cards[0]] + rest
      else
        rest
  }

  /** The cards the endpoint evaluates: all of them when no names are given, else the named ones. */
  function ConsideredCards(catalog: seq<Card>, enabled: Option<seq<string>>): (r: seq<Card>)
    ensures enabled.None? || enabled.value == [] ==> r == catalog
    ensures enabled.Some? && enabled.value != [] ==>
      IsSubsequence(r, catalog) &&
      forall c :: multiset(r)[c] == if c.name in enabled.value then multiset(catalog)[c] else 0
  {
    var names := enabled.GetOr([]);
    if names == [] then catalog else KeepNamed(catalog, names)
  }

  /** One result per considered card, in order. */
  function Evaluate(cards: seq<Card>, amount: real, ctx: MerchantInfo, mode: string, currency: string): (rs: seq<RewardResult>)
    ensures |rs| == |cards|
    ensures forall i :: 0 <= i < |cards| ==>
      rs[i] == ComputeCardRewards(cards[i], amount, ctx.category, ctx.isOnline, ctx.mcc, mode, currency)
  {
    seq(|cards|, i requires 0 <= i < |cards| =>
      ComputeCardRewards(cards[i], amount, ctx.category, ctx.isOnline, ctx.mcc, mode, currency))
  }

  // ---------- explaining the pick ----------

  function FeeWaivableWarning(name: string, fee: Fee): string
  {
    name + " has around S$" + fee.text + " annual fee. Usually waivable."
  }

  function FeeNotWaivableWarning(name: string, fee: Fee): string
  {
    name + " has around S$" + fee.text + " annual fee and may NOT be waivable."
  }

  /**
   * A warning exactly when the best card's fee is set and non-zero, in the waivable wording
   * unless the card says the fee is not waivable.
   */
  function FeeWarning(best: RewardResult): (w: Option<string>)
    ensures w.Some? <==> best.annualFee.Some? && best.annualFee.value.amount != 0.0
    ensures w.Some? && best.annualFeeWaivable ==> w.value == FeeWaivableWarning(best.cardName, best.annualFee.value)
    ensures w.Some? && !best.annualFeeWaivable ==> w.value == FeeNotWaivableWarning(best.cardName, best.annualFee.value)
  {
    match best.annualFee
    case Some(fee) =>
      if fee.amount == 0.0 then None
      else if best.annualFeeWaivable then Some(FeeWaivableWarning(best.cardName, fee))
      else Some(FeeNotWaivableWarning(best.cardName, fee))
    case None => None
  }

  function BoolText(b: bool): string
  {
    if b then "True" else "False"
  }

  /** The opening sentence: the card's name and the category, online flag and MCC it was picked on. */
  function PickedSentence(name: string, ctx: MerchantInfo): (s: string)
    ensures s != [] && Trimmed(s)
    ensures "Picked " + name <= s
  {
    "Picked " + name + " based on category '" + ctx.category + "', online=" + BoolText(ctx.isOnline) +
    ", MCC=" + ctx.mcc + "."
  }

  const BlockedNote: string := "Note: this card is blocked for this category/MCC."

  /**
   * The parts of the explanation: the pick sentence first, then the blocked note when the card
   * is blocked, then its cap note and its own notes when they are non-empty; no part is empty.
   */
  function ReasonParts(best: RewardResult, ctx: MerchantInfo): (parts: seq<string>)
    ensures var b := if best.blocked then 1 else 0;
            var c := if best.capNote != "" then 1 else 0;
            var n := if best.notes != "" then 1 else 0;
            |parts| == 1 + b + c + n &&
            (best.capNote != "" ==> parts[1 + b] == best.capNote) &&
            (best.notes != "" ==> parts[|parts| - 1] == best.notes)
    ensures parts[0] == PickedSentence(best.cardName, ctx)
    ensures best.blocked ==> parts[1] == BlockedNote
    ensures forall p :: p in parts ==> p != ""
  {
    var withBlocked := AppendIf([PickedSentence(best.cardName, ctx)], best.blocked, BlockedNote);
    var withCap := AppendIf(withBlocked, best.capNote != "", best.capNote);
    AppendIf(withCap, best.notes != "", best.notes)
  }

  /** The explanation: the parts joined by single spaces and stripped; it always opens with the pick sentence. */
  function Reason(best: RewardResult, ctx: MerchantInfo): (r: string)
    ensures PickedSentence(best.cardName, ctx) <= r
  {
    var parts := ReasonParts(best, ctx);
    StripJoinKeepsFirst(parts, " ");
    Strip(Join(parts, " "))
  }

  /** `parts + [p]` when `present`, `parts` otherwise. */
  function AppendIf(parts: seq<string>, present: bool, p: string): (r: seq<string>)
    ensures present ==> r == parts + [p]
    ensures !present ==> r == parts
  {
    if present then parts + [p] else parts
  }

  /** Joining an optional part appends a space and the part when it is present. */
  lemma JoinAppendIf(parts: seq<string>, present: bool, p: string)
    requires parts != []
    ensures Join(AppendIf(parts, present, p), " ") == Join(parts, " ") + (if present then " " + p else "")
  {
    if present {
      JoinSnoc(parts, p, " ");
    }
  }

  /** Joining a first part and three optional ones, each only when present, in that order. */
  lemma JoinThreeOptional(a: string, b1: bool, x1: string, b2: bool, x2: string, b3: bool, x3: string)
    ensures Join(AppendIf(AppendIf(AppendIf([a], b1, x1), b2, x2), b3, x3), " ") ==
      a + (if b1 then " " + x1 else "") + (if b2 then " " + x2 else "") + (if b3 then " " + x3 else "")
  {
    var p1 := AppendIf([a], b1, x1);
    var p2 := AppendIf(p1, b2, x2);
    JoinAppendIf([a], b1, x1);
    JoinAppendIf(p1, b2, x2);
    JoinAppendIf(p2, b3, x3);
  }

  /**
   * The explanation spelled out: the pick sentence, then " " and the blocked note, the cap note
   * and the card's notes, each only when present, in that order, the whole stripped.
   */
  lemma ReasonSpelledOut(best: RewardResult, ctx: MerchantInfo)
    ensures Reason(best, ctx) ==
      Strip(PickedSentence(best.cardName, ctx) +
            (if best.blocked then " " + BlockedNote else "") +
            (if best.capNote != "" then " " + best.capNote else "") +
            (if best.notes != "" then " " + best.notes else ""))
  {
    var pick := PickedSentence(best.cardName, ctx);
    JoinThreeOptional(pick, best.blocked, BlockedNote, best.capNote != "", best.capNote, best.notes != "", best.notes);
  }

  /** For a blocked pick, the blocked note follows the pick sentence after one space. */
  lemma ReasonBlockedNoteFollows(best: RewardResult, ctx: MerchantInfo)
    requires best.blocked
    ensures PickedSentence(best.cardName, ctx) + " " + BlockedNote <= Reason(best, ctx)
  {
    var parts := ReasonParts(best, ctx);
    var q := PickedSentence(best.cardName, ctx) + " " + BlockedNote;
    var rest := JoinedAfterBlockedNote(parts);
    OpeningTrimmed(PickedSentence(best.cardName, ctx));
    StripKeepsPrefix(q, rest);
  }

  /** The pick sentence, a space and the blocked note, trimmed as a whole. */
  lemma OpeningTrimmed(p: string)
    requires p != [] && Trimmed(p)
    ensures Trimmed(p + " " + BlockedNote)
  {
    var q := p + " " + BlockedNote;
    assert q[0] == p[0];
    assert q[|q| - 1] == '.';
  }

  /** The joined parts, split after a blocked note in second place. */
  function JoinedAfterBlockedNote(parts: seq<string>): (rest: string)
    requires |parts| >= 2 && parts[1] == BlockedNote
    ensures Join(parts, " ") == parts[0] + " " + BlockedNote + rest
  {
    var tail := Join(parts[1..], " ");
    assert BlockedNote <= tail;
    assert tail == BlockedNote + tail[|BlockedNote|..];
    tail[|BlockedNote|..]
  }

  // ---------- the response ----------

  datatype Response = Response(
    bestCard: Option<string>,
    estimatedMiles: real,
    estimatedCashback: real,
    category: string,
    isOnline: bool,
    mcc: string,
    mode: string,
    reason: string,
    annualFeeWarning: Option<string>,
    breakdown: seq<RewardResult>)

  const NoSuitableReason: string := "No suitable card found with current rules."

  function NoCardResponse(ctx: MerchantInfo, mode: string, breakdown: seq<RewardResult>): (resp: Response)
    ensures resp.bestCard.None? && resp.annualFeeWarning.None?
    ensures resp.estimatedMiles == 0.0 && resp.estimatedCashback == 0.0
    ensures resp.reason == NoSuitableReason
  {
    Response(None, 0.0, 0.0, ctx.category, ctx.isOnline, ctx.mcc, mode, NoSuitableReason, None, breakdown)
  }

  function PickedResponse(best: RewardResult, ctx: MerchantInfo, mode: string, breakdown: seq<RewardResult>): (resp: Response)
    ensures resp.bestCard == Some(best.cardName)
    ensures resp.estimatedMiles == best.miles && resp.estimatedCashback == best.cashback
    ensures resp.reason == Reason(best, ctx) && PickedSentence(best.cardName, ctx) <= resp.reason
    ensures resp.annualFeeWarning == FeeWarning(best)
  {
    Response(Some(best.cardName), best.miles, best.cashback, ctx.category, ctx.isOnline, ctx.mcc, mode,
             Reason(best, ctx), FeeWarning(best), breakdown)
  }

  /**
   * The scoring loop of `recommend_card`: evaluate each card in order, append its result, and
   * take it as the best whenever its score is strictly above the best so far (starting from
   * the no-score value).
   */
  method ScoreCards(cards: seq<Card>, amount: real, ctx: MerchantInfo, mode: string, currency: string)
    returns (breakdown: seq<RewardResult>, best: Option<RewardResult>)
    ensures breakdown == Evaluate(cards, amount, ctx, mode, currency)
    ensures best.None? <==> NoneQualifies(breakdown, mode)
    ensures forall k :: FirstBest(breakdown, mode, k) ==> best == Some(breakdown[k])
  {
    ghost var results := Evaluate(cards, amount, ctx, mode, currency);
    breakdown := [];
    best := None;
    var bestScore := NoScore;
    ghost var bestIndex := -1;
    for i := 0 to |cards|
      invariant breakdown == results[..i]
      invariant best.None? ==> bestScore == NoScore && NoneQualifies(breakdown, mode)
      invariant best.Some? ==>
        0 <= bestIndex < i && best.value == results[bestIndex] &&
        bestScore == Score(best.value, mode) && FirstBest(breakdown, mode, bestIndex)
    {
      var result := ComputeCardRewards(cards[i], amount, ctx.category, ctx.isOnline, ctx.mcc, mode, currency);
      assert results[..i + 1] == breakdown + [result];
      breakdown := breakdown + [result];
      var score := Score(result, mode);
      if score > bestScore {
        bestScore := score;
        best := Some(result);
        bestIndex := i;
      }
    }
    assert breakdown == results;
    if best.None? {
      FirstBestOrNone(results, mode);
    } else {
      forall k | FirstBest(results, mode, k) ensures k == bestIndex {
        FirstBestUnique(results, mode, k, bestIndex);
      }
    }
  }

  /**
   * `recommend_card`, from the request's host name, amount, currency, mode and enabled card
   * names. The breakdown is every considered card's result, sorted by score highest first and
   * stable on ties; no card is picked exactly when none scores above the starting score, and
   * otherwise the pick is the first strictly best result.
   */
  method RecommendCard(catalog: seq<Card>, mccMap: map<string, string>, host: string, amount: real,
                       currency: string, mode: string, enabledCards: Option<seq<string>>)
    returns (resp: Response)
    ensures resp.mode == SanitizeMode(mode)
    ensures var ctx := Classify(host, mccMap);
            resp.category == ctx.category && resp.isOnline == ctx.isOnline && resp.mcc == ctx.mcc
    ensures var m := SanitizeMode(mode);
            var results := Evaluate(ConsideredCards(catalog, enabledCards), amount, Classify(host, mccMap), m, currency);
            resp.breakdown == SortDesc(results, m) &&
            (resp.bestCard.None? <==> NoneQualifies(results, m)) &&
            (NoneQualifies(results, m) ==> resp == NoCardResponse(Classify(host, mccMap), m, resp.breakdown)) &&
            (forall k :: FirstBest(results, m, k) ==>
               resp == PickedResponse(results[k], Classify(host, mccMap), m, resp.breakdown))
    ensures ConsideredCards(catalog, enabledCards) == [] ==>
      resp.bestCard.None? && resp.reason == NoSuitableReason && resp.annualFeeWarning.None?
  {
    var info := GetMerchantInfo(host, MerchantMap);
    var category := CategoryFromMcc(info.mcc, info.category, mccMap);
    var ctx := MerchantInfo(category, info.isOnline, info.mcc);
    var m := SanitizeMode(mode);
    var cards := ConsideredCards(catalog, enabledCards);
    var breakdown, best := ScoreCards(cards, amount, ctx, m, currency);
    var sorted := SortDesc(breakdown, m);
    if best.None? {
      resp := NoCardResponse(ctx, m, sorted);
    } else {
      resp := PickedResponse(best.value, ctx, m, sorted);
    }
  }
}
