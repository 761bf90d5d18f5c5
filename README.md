# Card recommendation rules, modelled in Dafny

This project models the backend of a credit-card recommender. For one purchase, it scores every card of a catalog. The purchase is given by a merchant host name, an amount, a currency, a reward mode and an optional set of enabled cards. The model picks the best card and returns the full ranked breakdown.

It has two parts:

- **`Rules`** is the reward rule evaluator (`compute_card_rewards`). It is a pure function from a card record and a transaction to a reward result. It checks blocking by category or MCC (merchant category code). It resolves the miles-per-dollar rate in order: base rate, then online bonus, then category override, then the foreign-currency (FCY) adjustment. It computes miles and cashback, and it attaches an advisory bonus-cap note.
- **`Recommend`** and **`Ranking`** model the endpoint (`recommend_card`) and its helpers `category_from_mcc` and `get_merchant_info`. They classify the merchant, sanitise the mode, filter the catalog, and score the cards in a loop (a method with invariants). `Ranking` holds the pure specification of the pick ("first strictly best") and of the stable descending sort.

Support modules:

- `Wrappers`: `Option`.
- `Text`: the Python string operations the code uses, on ASCII: `lower`, `upper`, `strip`, `" ".join`, `in` on strings, and `str` of an integer.
- `Numeric`: `round(x, 2)` on exact reals, using round-half-even.
- `Scenarios`: worked examples.

How records are represented:

- A card record is the `Card` datatype. A key the record may leave out has the default value the evaluator reads in its place. The keys whose absence the code tests (`online_mpd`, `fcy_mpd`, `bonus_cap_amount`, `annual_fee`, `annual_fee_waivable`) are `Option`s.
- Python truthiness of an optional number ("set and non-zero") is `Rules.Truthy`.
- A blocked result has no `is_fcy` or `effective_mpd` key in the source. Here those two fields are `None`.
- The catalog and the MCC table are parameters. The merchant table is the constant `Recommend.MerchantMap`, in its insertion order.

Behaviours of the code worth noting:

- The online bonus applies only when `online_mpd` is set and non-zero, because the test is on its truthiness (backend/rules.py:72).
- The best score starts at `-1.0`, and a card is picked only when its score is strictly greater (backend/main.py:97, 122). So a non-empty candidate list whose scores are all `<= -1` (negative amounts) gives the "no suitable card" outcome.
- The evaluator lower-cases `mode` and never reads it again (backend/rules.py:26). Callers are not required to pass a valid mode.

## Model

| member | source | states |
|---|---|---|
| `Rules.ComputeCardRewards` | backend/rules.py:10-127 | Blocked iff the category is listed or the MCC is non-empty and listed. A blocked result has 0 miles, 0 cashback, not capped, an empty cap note, a non-empty reason, and no FCY flag or rate. Otherwise: the rate is `RateSpec`, miles are `round2(amount * rate)`, cashback is `round2(amount * cashback_rate / 100)`, and capped and the cap note follow the cap rule. Name, type, notes and fee metadata are passed through, with waivable defaulting to true. |
| `Rules.BlockedReason` | backend/rules.py:37-53 | The reason is never empty. With neither check firing it would be the fallback text. With only the category check firing it is the category message. |
| `Rules.EarningResult` | backend/rules.py:61-127 | For a card that is not blocked: the resolved rate, the FCY flag `upper(currency) != "SGD"`, miles and cashback from that rate, and a cap annotation that leaves both untouched. |
| `Rules.BlockedResult` | backend/rules.py:46-59 | For a blocked card the result earns nothing and carries the blocked reason, which is never empty. |
| `Rules.BlockedReasonShape` | backend/rules.py:37-53 | The reason is never empty. When both checks fire, it is the category message, one space, then the MCC message. When one fires, it is that message alone, with the fallback text never reached. |
| `Rules.BlockedReasonBoth` | backend/rules.py:37-44 | When both checks fire, stripping `category_msg + " " + mcc_msg` leaves it unchanged. |
| `Rules.BlockedReasonMccOnly` | backend/rules.py:41-44 | When only the MCC check fires, `("" + " " + extra).strip()` is exactly the MCC message. |
| `Rules.StripJoined` | backend/rules.py:44 | Stripping two trimmed messages joined by a space gives the second alone when the first is empty, else both with one space. |
| `Rules.HomeCurrencyAnyCase` | backend/rules.py:27-28 | A currency upper-cases to "SGD" iff it is "SGD" in some letter case. |
| `Rules.IsFcy` | backend/rules.py:27-28 | A transaction is FCY iff its currency is not "SGD" in some letter case. |
| `Rules.ResolvedRate` | backend/rules.py:68-86 | At home, the rate is the local priority rate: category, else a truthy online rate, else base. Abroad on a home-only-bonus card, it is `fcy_mpd`, or `base_mpd` when that is absent. Abroad otherwise, it never drops below the local rate, it changes only to a strictly larger `fcy_mpd`, and whenever `fcy_mpd` is larger than the local rate it is taken. This contract, not `RateSpec`, carries the content. |
| `Rules.ResolvedRateMeetsSpec` | backend/rules.py:68-86 | The pipeline equals `RateSpec`, the form of the rate the `ComputeCardRewards` contract is written in: the local priority rate, or the FCY rule's result abroad. `RateSpec` is the same rules regrouped, not an independent definition. |
| `Rules.CategoryBeatsOnline` | backend/rules.py:71-77 | When the category has its own rate, that rate is the result at home whether or not the transaction is online. In any currency, the online flag then makes no difference. |
| `Rules.FcyDiscardsBonuses` | backend/rules.py:80-83 | Abroad, a home-only-bonus card earns the same for every category and online flag: its FCY rate, or its base rate. Larger bonuses are discarded. |
| `Rules.Cashback` | backend/rules.py:91-92 | Cashback is `round2(amount * rate / 100)`. The guard for a zero rate changes nothing. |
| `Rules.Annotate` | backend/rules.py:95-111 | Capped iff the cap is truthy and the amount exceeds it. The note is non-empty iff the cap is truthy, so a cap that is set but not exceeded gives a note and is not capped. |
| `Rules.CapIsAdvisory` | backend/rules.py:94-117 | Changing a card's cap never changes miles, cashback, the rate or the blocked flag. |
| `Rules.ModeIgnored` | backend/rules.py:16-26 | The result is the same for every value of `mode`. |
| `Rules.RewardsNonNegative` | backend/rules.py:88-92 | A non-negative amount on a card with non-negative rates earns non-negative miles and cashback. |
| `Rules.FcyNeverLowersMiles` | backend/rules.py:79-88 | On a card without home-only bonuses, a non-negative amount paid in any currency earns at least the rounded miles it earns in SGD. |
| `Numeric.TimesMonotone` | backend/rules.py:88 | With a non-negative amount, a larger rate never gives a smaller product. |
| `Numeric.Round2Monotone` | backend/rules.py:116 | Rounding to cents never reverses the order of two amounts. |
| `Numeric.Round2` | backend/rules.py:116-117 | `round(x, 2)` has at most two decimals, is within half a cent of `x`, and is non-negative for non-negative `x`. |
| `Numeric.Round2OfCents` | backend/rules.py:116-117 | A value that already has two decimals rounds to itself. |
| `Numeric.RoundHalfEven` | backend/rules.py:104 | The `.0f` rounding gives the nearest integer, and on a tie the even one. |
| `Scenarios.CategoryBonusAtHome` | backend/rules.py:69-88 | With base 1.2 and shopping at 4.0, S$100 on "shopping" earns 400.00 miles at rate 4.0 and is not blocked. |
| `Scenarios.BlockedMcc` | backend/rules.py:41-59 | A card that blocks MCC 5411 earns 0 miles and 0 cashback on it, and its reason is the MCC message. |
| `Scenarios.HomeOnlyBonusAbroad` | backend/rules.py:80-88 | A USD dining purchase on a home-only-bonus card uses fcy 2.0 instead of dining 4.0, so S$50 earns 100.00 miles. |
| `Scenarios.FcyUpgradeAbroad` | backend/rules.py:84-88 | With the currency written "usd", the transaction is foreign and an fcy rate of 2.4 above a category rate of 1.2 replaces it. |
| `Text.Lower` | backend/main.py:67 | Lower-casing keeps the length. Each character becomes its `LowerChar`: a capital moves 32 code points on, to its own lower-case letter, and every other character is kept. No capital is left. |
| `Text.Upper` | backend/rules.py:27 | Upper-casing keeps the length. Each character becomes its `UpperChar`: a lower-case letter moves 32 code points back, to its own capital, and every other character is kept. |
| `Text.ContainsIff` | backend/main.py:70 | `key in host` holds iff `key` is a prefix of some suffix of `host`. |
| `Text.AbsentFirstChar` | backend/main.py:70 | A key whose first character is not in the host does not occur in it. |
| `Text.StripKeepsPrefix` | backend/main.py:176 | Stripping `p + t` keeps a non-empty, trimmed `p` in front. |
| `Text.Strip` | backend/rules.py:44 | `str.strip()` keeps one contiguous slice of the string (a prefix of the part after the leading whitespace). The slice is trimmed, and everything dropped before and after it is whitespace. |
| `Text.Join` | backend/main.py:176 | `" ".join(parts)` is empty for no parts and the part itself for one part. Otherwise it opens with the first part and closes with the last. |
| `Text.JoinSnoc` | backend/main.py:176 | Joining one more part gives the old join, the separator, then that part. So every part appears, in order, one separator apart. |
| `Recommend.CategoryFromMcc` | backend/main.py:52-56 | An empty MCC gives the fallback. A known MCC gives its table category. An unknown MCC gives the fallback. |
| `Recommend.CategoryFromMccSamples` | backend/main.py:52-56 | With table entries, "4722" turns travel into travel_agency. The placeholder "0000" and the empty MCC keep the fallback. |
| `Recommend.FirstMatch` | backend/main.py:69-74 | The result is either the unknown merchant or the info of a rule whose key occurs in the host. |
| `Recommend.FirstMatchIsEarliest` | backend/main.py:69-71 | When rule `i` is the first, in table order, whose key occurs in the host, the classification is rule `i`'s, whatever later rules say. |
| `Recommend.FirstMatchFallback` | backend/main.py:73-74 | When no key occurs in the host, the result is `("general", True, "0000")`. |
| `Recommend.GetMerchantInfo` | backend/main.py:59-74 | The scan over the table, with its early return, gives the first match of the lower-cased host. |
| `Recommend.ShopeeIsShopping` | backend/main.py:39 | "shopee.sg" classifies as online shopping with MCC 5311. |
| `Recommend.UnmatchedHostIsGeneral` | backend/main.py:73-74 | "MyDigi.my" matches no key and falls back to the unknown merchant. |
| `Recommend.Classify` | backend/main.py:84-88 | The context keeps the merchant's online flag and MCC. Its category is the MCC table's override of the merchant's category. |
| `Recommend.SanitizeMode` | backend/main.py:90-93 | The mode is always "miles" or "cashback". It is the lower-cased input when that is one of them, and "miles" otherwise. |
| `Recommend.SanitizeModeIdempotent` | backend/main.py:90-93 | Sanitising twice is sanitising once. |
| `Recommend.KeepNamed` | backend/main.py:104 | The kept cards are a subsequence of the catalog. Each card occurs as often as in the catalog when its name is listed, and not at all otherwise. |
| `Recommend.ConsideredCards` | backend/main.py:101-106 | An absent or empty enabled list keeps the whole catalog. Otherwise the result is the named cards, in catalog order. |
| `Recommend.Evaluate` | backend/main.py:108-118 | One evaluator result per considered card, in order, all with the same context. |
| `Recommend.ScoreCards` | backend/main.py:95-124 | The loop's breakdown is the per-card results in order. No card is picked iff no score exceeds -1.0. Otherwise the pick is the first strictly best result. |
| `Ranking.FirstBestOrNone` | backend/main.py:96-124 | Either some result is the first best, or none scores above -1.0. Never both. |
| `Ranking.FirstBestUnique` | backend/main.py:122-124 | At most one result is the first best. |
| `Ranking.Score` | backend/main.py:120-129 | A result scores its miles in "miles" mode and its cashback in any other mode. |
| `Ranking.SortDesc` | backend/main.py:127-131 | The breakdown is sorted by score, highest first, and is a permutation of the results. |
| `Ranking.SortDescStable` | backend/main.py:127-131 | For every score value, the results with that score appear in the same order as before sorting. |
| `Ranking.InsertSorted` | backend/main.py:127-131 | Inserting into a sorted breakdown keeps it sorted and adds exactly that result. |
| `Ranking.BestLeadsBreakdown` | backend/main.py:120-131 | Whenever a best card exists, it is the first element of the sorted breakdown. |
| `Recommend.FeeWarning` | backend/main.py:148-159 | A warning exists iff the fee is set and non-zero. It uses the "Usually waivable" wording when waivable is true or missing, and the "may NOT be waivable" wording otherwise. |
| `Recommend.ReasonParts` | backend/main.py:162-174 | The parts are exactly four optional slots, in order. The pick sentence comes first. Next is the blocked note, only when the card is blocked. Then the cap note, when non-empty, at index 1 + (blocked). Last are the card's notes, when non-empty. The count is 1 plus one per present part, and no part is empty. |
| `Recommend.Reason` | backend/main.py:162-176 | The joined and stripped reason always starts with the whole pick sentence. |
| `Recommend.ReasonSpelledOut` | backend/main.py:162-176 | The reason is the strip of: the pick sentence, then " " and the blocked note, the cap note and the card's notes, each only when present, in that order. |
| `Recommend.AppendIf` | backend/main.py:167-174 | A conditional `append`: the part is added at the end when present, and the list is unchanged otherwise. |
| `Recommend.ReasonBlockedNoteFollows` | backend/main.py:162-176 | For a blocked pick, the reason starts with the pick sentence, one space, then the blocked note. |
| `Recommend.PickedSentence` | backend/main.py:162-165 | The opening sentence is non-empty and trimmed, and it starts with "Picked " and the card's name. |
| `Recommend.NoCardResponse` | backend/main.py:133-146 | No best card, both estimates 0.0, no fee warning, and the fixed "No suitable card" reason. |
| `Recommend.PickedResponse` | backend/main.py:148-190 | The pick's name and its own miles and cashback. The reason is `Reason` of the pick (joined parts, stripped) and opens with the pick sentence. The warning is the fee rule's. |
| `Recommend.RecommendCard` | backend/main.py:83-190 | The mode is sanitised and the context is classified. The breakdown is the stable descending sort of the considered cards' results. No card iff none qualifies, in which case the no-card response is returned. Otherwise it is the response for the first strictly best result. An empty candidate list gives the "No suitable card" outcome. |

## Left out

- HTTP layer: the FastAPI app, CORS set-up, the request model and the root route (backend/main.py:1-35, 77-82) are plumbing. `RecommendCard` takes the request's fields as parameters.
- URL parsing: `urlparse` hostname extraction is a library call. `GetMerchantInfo` and `RecommendCard` start from the host string.
- Catalog loading: reading `cards_data.json` is file I/O, and the file is not part of this model, so the catalog is a parameter.
- MCC data: the full MCC table of `backend/mcc_map.py` is static data. It is a parameter, with `Recommend.SampleMccMap` holding four of its entries.
- Floating point: amounts and rates are exact reals. Binary floating point, NaN and infinities are not modelled.
- `Numeric.Round2`: it uses exact round-half-even on reals. Python's `round` on the nearest binary double can differ on values like 2.675.
- `Text.Lower`, `Text.Upper`: they map ASCII letters only. Python's Unicode case mapping (for example "ſgd".upper() == "SGD") is not modelled.
- `Text.Strip`: it removes ASCII whitespace only. Other Unicode whitespace that `str.strip` also removes is not modelled.
- `Rules.CapText`: `{cap:.0f}` prints "-0" for a negative cap that rounds to zero. This rendering prints "0".
- Fee text: the annual fee's text in the warning (`S${fee}`) is carried by `Rules.Fee.text`, because Python prints a JSON integer and a JSON float differently. The model does not derive it from the amount.
- `annual_fee_waivable`: an explicit JSON `null` (falsy in Python) is not distinguished from an absent key (true).
- Field types: card fields are assumed to have the types the code expects. A malformed record (a string where a number belongs, say) is not modelled.
- UI: the extension popup and the Streamlit tester app are rendering and HTTP code, not part of this model.
