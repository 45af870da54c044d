# Verified model of the rental-price pipeline

A Dafny 4.11 model of the path from scraping a car-rental site to recommending a price, with proofs about
it. `dafny verify dfyconfig.toml` checks the whole project. Five parts, each a group of modules:

1. **Cross-tariff calculator** (`Rounding`, `OrderStatistics`, `PriceRounding`, `CrossTariff`, `TariffLimits`,
   `AnomalySurvivors`, `TariffCell`). Money is exact (`real`), with every quantisation of the code written out;
   a rounding mode is a grid of prices addressed by an integer index. The main results are end-to-end
   monotonicity and order independence of a cell, robustness of the anomaly filter, optimality of directional
   rounding, and the exact limits of what the rules promise.
2. **Price queries** (`Dates`, `Grid`, `Catalog`, `MarketTariff`, `MarketTable`, `ProviderTariff`, `CellPrices`). The
   interval sweep over intersected zones is proved to answer exactly what a query day by day answers, the
   single-provider path to agree with the market path, and every price of a table is read back to the rows of the
   database it comes from.
3. **Scrape sessions** (`SessionTrace`, `ScrapeSession`, `SessionRunner`). The session loop and the recipe
   scraper are two state machines over a browser that may fail at every step. A ghost trace of browser events,
   cut into the attempts that caused them, carries the safety and freshness statements.
4. **Season calendar** (`SeasonAnalyzer`, `SeasonZones`, `SeasonCalendar`, `SearchPlan`, `SeasonRuns`,
   `CalendarTariff`). Zone detection, the extraction plan, one run with the exact criterion for when the table
   accepts its zones, the stored calendar over any sequence of runs, and what that means for the price queries.
5. **ACRISS engine and recipe store** (`AcrissLetters`, `AcrissClassifier`, `AcrissService`,
   `ModelDesignator`, `ModelDictionary`, `RecipeDocument`, `RecipeStore`).

`Comprehension` holds filtering comprehensions, `Option` and `Result`; `Sorting` the one stable sort. Exceptions
and error returns are `Result` values or a false `ok`; what the browser, the database and the language model
answer is an arbitrary input or a havocked value.

What a function computes is stated apart from its definition, by the lemmas named `...Meaning` (a base price by the
totals, a table cell by the rows of the database, a booking result by the page, a match by the tables).

Statements the code or its documentation suggests but does not meet are kept as they are in the code, with a
concrete failing input and the exact condition:

- "A discount stays below the base, a surcharge above it" fails when the rounding mode is "0" or the rule's
  value is 0, unless the clamped price is half a cent on the right side (`SideLostWithoutGrid`; exactly when:
  `SideKeptIff`, `CellSideIff`).
- Without a floor, a discount of more than 100 % makes the recommendation fall when the market rises
  (`DiscountMonotoneIff`).
- Without a priced master the anomaly filter can drop every provider, as soon as three have direct prices
  (`AlwaysPricedIff`, `EverybodyGoes`).
- Rounding comes after the breakers: a discount can end below the floor, by snapping or by the guard, and a
  surcharge above the ceiling (`FloorBroken`, `SurchargeBeatsCeiling`; exactly when: `FloorKeptIff`,
  `CeilingKeptIff`, `BreakersInCents`; by how much: `DiscountFloorSlack`).
- Listing a duration twice multiplies its coverage, not its price (`SpreadAggregates`).
- A recipe run that raises, instead of reporting failure, leaves the browser session in use
  (`ReplacedIff`, `RaiseIsUnnoticed`). The recipe runner turns every failure of the browser into a reported one
  (`src/scraper/infrastructure/builder/recipe_executor.py:297-449`); only a failed write of its own trace file, in
  the handler itself, can still escape.
- Two prices of one group on one probe date can produce a zone of no days (`NonEmptyIff`, `EmptyZoneExists`). With
  the shipped representative, the first day of a zone, the table's constraints then reject the whole run and the
  calendar is not updated (`TwoPricesRejected`; exactly when: `ProbeStoredIff`, `Run`). With a middle
  representative, a start carried forward from the stored calendar can rescue an empty first zone.
- The calendar of a category that is no longer active keeps leading the season (`LeadIsCurrentIff`,
  `RetiredCategoryLeads`).
- The review cap of a mixed bundle is undone by the trunk collapse (`MixedCapIff`, `MixedFlagLost`).
- A fuzzy match of the model is marked "verify", yet never sends a vehicle to review (`FuzzyChangesNothing`).
- An extractor without a field or an extraction does not survive storage (`RoundTripIff`). The types promise both,
  but an explicit null in the classifying model's answer passes
  `src/scraper/infrastructure/builder/extraction/results_classifier.py:156` (`NullExtractionIsLost`).

## Model

| member | source | states |
|---|---|---|
| Rounding.HalfUp | src/saas/application/pricing/cross_tariff_calc.py:266-282 | ROUND_HALF_UP to an integer is the nearest one, and of two equally near the one further from zero |
| Rounding.CentsReach | src/saas/application/pricing/cross_tariff_calc.py:300-301 | a price rounded to cents reaches or passes a bound exactly when the unrounded price is within half a cent of the least cent that does, ties counting away from zero |
| Rounding.CentsIdentity | src/saas/application/pricing/cross_tariff_calc.py:322 | quantising to cents leaves a price alone exactly when it is a whole number of cents |
| Rounding.BankersCentsIdentity | src/saas/application/price_query/service.py:343-358 | the same for the default half-even context, and it never moves a price by more than half a cent |
| Rounding.HalfEven | src/saas/application/price_query/service.py:343-358 | the nearest integer, and of two equally near the even one |
| OrderStatistics.SortMonotone | src/saas/application/pricing/cross_tariff_calc.py:156-177 | sorting two lists that are ordered position by position keeps them ordered position by position |
| OrderStatistics.StatisticsMonotone | src/saas/application/pricing/cross_tariff_calc.py:156-177 | minimum, maximum, median and mean never fall when prices rise |
| OrderStatistics.StatisticsIgnoreOrder | src/saas/application/pricing/cross_tariff_calc.py:156-177 | every statistic depends on the multiset of prices only |
| OrderStatistics.MajorityPinsMedian | src/saas/application/pricing/cross_tariff_calc.py:113-151 | a strict majority of values inside an interval pins the median inside it |
| OrderStatistics.MeanMeaning | src/saas/application/pricing/cross_tariff_calc.py:171-172 | the mean times the number of totals is their sum |
| OrderStatistics.MedianMeaning | src/saas/application/pricing/cross_tariff_calc.py:173-176 | the median is the middle of any sorted arrangement, or half the sum of the two middle ones |
| PriceRounding.SnapIndex | src/saas/application/pricing/cross_tariff_calc.py:266-282 | the snapped grid price is the nearest, and of two equally near the one further from the grid's offset |
| PriceRounding.NudgeBelow | src/saas/application/pricing/cross_tariff_calc.py:313-316 | the downward loop ends on the greatest grid price strictly below the base |
| PriceRounding.NudgeAbove | src/saas/application/pricing/cross_tariff_calc.py:317-320 | the upward loop ends on the least grid price strictly above the base |
| PriceRounding.ApplyRoundingDirectional | src/saas/application/pricing/cross_tariff_calc.py:285-322 | result, error case and flip flag: an error exactly for an unknown mode with a non-zero value, a flip exactly when the snap left the rule's side |
| PriceRounding.GuardedIsNearest | src/saas/application/pricing/cross_tariff_calc.py:285-322 | among all grid prices strictly on the rule's side of the base the result is one nearest to the input, at most one step beyond clamped price or base |
| PriceRounding.GridIsCents | src/saas/application/pricing/cross_tariff_calc.py:322 | the final quantisation is the identity on grid prices |
| PriceRounding.GridMeaning | src/saas/application/pricing/cross_tariff_calc.py:266-282 | the grid prices of a mode are whole euros, whole half euros, or end in 99 or 90 cents |
| PriceRounding.EveryEndingIsOnGrid | src/saas/application/pricing/cross_tariff_calc.py:266-282 | and every price of that ending is on the grid |
| PriceRounding.SideKeptIff | src/saas/application/pricing/cross_tariff_calc.py:293-304 | the promised side of the base is kept exactly when the guard runs, or the unrounded value rounds to no cent that reaches (for a surcharge: to a cent that passes) the base, which is read off the value and the base beforehand |
| PriceRounding.CentsOnSideOfCents | src/saas/application/pricing/cross_tariff_calc.py:293-304 | over a base of whole cents: a discount must be more than half a cent below it, a surcharge at least half a cent above it |
| PriceRounding.DiscountReachesIff | src/saas/application/pricing/cross_tariff_calc.py:306-322 | a guarded discount ends at or above a bound exactly when the least grid price meeting the bound is below the base and the value snaps to it or higher |
| PriceRounding.SurchargeStaysIff | src/saas/application/pricing/cross_tariff_calc.py:306-322 | dually, when a guarded surcharge ends at or below a bound |
| PriceRounding.SideLostWithoutGrid | src/saas/application/pricing/cross_tariff_calc.py:293-304 | a concrete rounding that lands on the wrong side |
| PriceRounding.RoundDirectionalMonotone | src/saas/application/pricing/cross_tariff_calc.py:285-322 | rounding never inverts an increase of clamped price and base |
| CrossTariff.DetectAnomalies | src/saas/application/pricing/cross_tariff_calc.py:113-151 | the loop gives every provider a verdict, and exactly the right one |
| CrossTariff.CollapseMeaning | src/saas/application/pricing/cross_tariff_calc.py:100-108 | exactly the providers with totals are priced, each at its cheapest |
| CrossTariff.OutOfRangeIff | src/saas/application/pricing/cross_tariff_calc.py:113-151 | against a positive median: below two fifths or above five halves of it |
| CrossTariff.MajorityDecides | src/saas/application/pricing/cross_tariff_calc.py:113-151 | with a strict majority of witnesses in [m, M] everyone outside [0.4m, 2.5M] is dropped and everyone inside [0.4M, 2.5m] kept |
| CrossTariff.InferredNeverVote | src/saas/application/pricing/cross_tariff_calc.py:124-150 | repricing inferred providers changes nobody else's verdict |
| CrossTariff.AnomalyIgnoresOrder | src/saas/application/pricing/cross_tariff_calc.py:113-151 | a verdict does not depend on the order of the providers |
| CrossTariff.AggregateMeaning | src/saas/application/pricing/cross_tariff_calc.py:156-177 | the base is the lowest total, the highest, their sum shared out, or the middle of them |
| CrossTariff.RuleMeaning | src/saas/application/pricing/cross_tariff_calc.py:182-187 | a percentage is taken off or added in hundredths of the base, an amount as it is |
| CrossTariff.BreakersMeaning | src/saas/application/pricing/cross_tariff_calc.py:213-241 | the floor is 82 % of the lowest total or 55 % of the highest, the ceiling the highest |
| CrossTariff.ApplyClamp | src/saas/application/pricing/cross_tariff_calc.py:192-210 | the ceiling always holds, the floor unless it exceeds the ceiling; the floor is reported exactly when it set the price, the ceiling only when it did, and nothing exactly when nothing was clamped |
| CrossTariff.RecommendMonotone | src/saas/application/pricing/cross_tariff_calc.py:156-322 | aggregate, rule, clamp and rounding together never invert an increase of the totals |
| CrossTariff.RecommendIgnoresOrder | src/saas/application/pricing/cross_tariff_calc.py:156-322 | the recommendation depends on the multiset of totals only |
| TariffLimits.CellSideIff | src/saas/application/pricing/cross_tariff_calc.py:182-322 | for a whole recommendation: it lies on the rule's side of the base exactly when the guard runs or the clamped price is half a cent on that side |
| TariffLimits.DifferenceShowsIff | src/saas/application/pricing/cross_tariff_calc.py:182-304 | unguarded and unclamped on whole cents, a discount shows exactly when it is worth more than half a cent, a surcharge when it is worth half a cent |
| TariffLimits.FloorKeptIff | src/saas/application/pricing/cross_tariff_calc.py:192-322 | exactly when a guarded discount ends at or above its floor, read off floor, base and clamped price |
| TariffLimits.CeilingKeptIff | src/saas/application/pricing/cross_tariff_calc.py:192-322 | exactly when a guarded surcharge ends at or below its ceiling |
| TariffLimits.BreakersInCents | src/saas/application/pricing/cross_tariff_calc.py:192-304 | exactly when floor and ceiling survive an unguarded rounding to cents |
| TariffLimits.DiscountFloorSlack | src/saas/application/pricing/cross_tariff_calc.py:213-322 | a guarded discount is at most one step under a floor at or below the base, and below any floor above it |
| TariffLimits.FloorBroken | src/saas/application/pricing/cross_tariff_calc.py:192-322 | 100.00 less 17.7 % in ,90 prices is 81.90, under the floor of 82.00 |
| TariffLimits.SurchargeBeatsCeiling | src/saas/application/pricing/cross_tariff_calc.py:192-322 | with base and ceiling both the market maximum, every guarded surcharge ends above the ceiling |
| TariffLimits.DiscountMonotoneIff | src/saas/application/pricing/cross_tariff_calc.py:156-322 | over positive totals a percentage discount is monotone in the market exactly when it is at most 100 % or a floor catches it, whatever base, ceiling and rounding mode |
| AnomalySurvivors.AlwaysPricedIff | src/saas/application/pricing/cross_tariff_calc.py:113-151 | whatever positive totals the providers have somebody survives, exactly when the master is among them or at most two have direct prices |
| AnomalySurvivors.EverybodyGoes | src/saas/application/pricing/cross_tariff_calc.py:113-151 | three or more direct providers and no master among them: totals that drop everybody |
| TariffCell.ComputeCell | src/saas/application/pricing/cross_tariff_calc.py:327-456 | the whole cell: recommendation, every intermediate figure from a base that is the lowest, highest, mean or middle surviving total, who is present, dropped, marked, missing, and all flags |
| TariffCell.Separate | src/saas/application/pricing/cross_tariff_calc.py:362-383 | the loop splits the providers into survivors and anomalies, in order |
| TariffCell.AppendMissing | src/saas/application/pricing/cross_tariff_calc.py:385-386 | every missing provider is listed exactly once, after the anomalies |
| TariffCell.MarkBase | src/saas/application/pricing/cross_tariff_calc.py:412-417 | the loop marks exactly the providers that set the base and changes nothing else |
| TariffCell.ComputeFigures | src/saas/application/pricing/cross_tariff_calc.py:409-427 | base, adjusted, floor, ceiling, clamped and rounded figures follow from the surviving totals, and the base is the lowest, highest, mean or middle of them |
| TariffCell.BaseHasOwner | src/saas/application/pricing/cross_tariff_calc.py:412-417 | for the bases min and max somebody is marked, and the marked ones are exactly those at the aggregate |
| TariffCell.Conservation | src/saas/application/pricing/cross_tariff_calc.py:362-383 | every provider is present or dropped, never both, and the counts add up |
| TariffCell.ContributionMeaning | src/saas/application/pricing/cross_tariff_calc.py:362-383 | a survivor is reported with its own total, a price per day that makes it up, and its own stale and inferred marks |
| TariffCell.CellMonotone | src/saas/application/pricing/cross_tariff_calc.py:327-456 | with the same survivors, dearer totals never lower the recommendation, for any base, breakers and rounding mode |
| TariffCell.CellIgnoresOrder | src/saas/application/pricing/cross_tariff_calc.py:327-456 | the order of the providers changes neither recommendation nor who is present or dropped |
| TariffCell.MasterAlwaysPriced | src/saas/application/pricing/cross_tariff_calc.py:129-139 | a master with a price survives, and its cell has a recommendation |
| Grid.ComputeIntersectedGrid | src/saas/application/price_query/rejilla.py:15-66 | the sweep returns non-empty consecutive stretches covering the range, cut only at zone changes, each inside or outside every zone |
| Grid.CollectCutPoints | src/saas/application/price_query/rejilla.py:42-54 | the nested loops collect exactly the range's ends and the zone changes strictly inside |
| Grid.NoCutInside | src/saas/application/price_query/rejilla.py:56-66 | between consecutive cut points every zone covers all days or none |
| Grid.GridTiles | src/saas/application/price_query/rejilla.py:34-66 | every day of the range lies in exactly one stretch, and no other day in any |
| Grid.GridIsCoarsest | src/saas/application/price_query/rejilla.py:34-66 | any stretch of days that every zone covers or misses lies within one stretch of the grid |
| Catalog.ResolveMappings | src/saas/application/price_query/service.py:406-459 | the two passes yield, per requested group, the categories that serve it, and no empty lists |
| Catalog.CodeToCategories | src/saas/application/price_query/service.py:434-441 | each code maps to its active classified categories, in table order |
| Catalog.ServingMeaning | src/saas/application/price_query/service.py:406-459 | a category serves a group exactly when an active row of the offer carries one of the group's codes |
| Catalog.GroupZones | src/saas/application/price_query/service.py:290-295 | the setdefault loop groups the zones by category, in order |
| Catalog.LoadingIsEnough | src/saas/application/price_query/service.py:461-483 | loading only overlapping zones loses nothing for a day of the range |
| Catalog.StretchIsAnyDay | src/saas/application/price_query/service.py:537-556 | over an aligned stretch the representative found is that of any of its days |
| MarketTariff.PreparedAgrees | src/saas/application/price_query/service.py:274-347 | a prepared subscription prices a stretch as the per-day query prices each of its days |
| MarketTariff.MarketAgrees | src/saas/application/price_query/service.py:274-347 | the same for all subscriptions together, including those that were skipped |
| MarketTariff.SpreadAggregates | src/saas/application/price_query/service.py:324-358 | a duration listed n times keeps its aggregate and multiplies its coverage by n |
| MarketTariff.OffersByDuration | src/saas/application/price_query/service.py:326-341 | the category loop collects, per listed duration, every price found, as often as the duration is listed |
| MarketTariff.CollectMarket | src/saas/application/price_query/service.py:324-346 | the subscription loop collects one minimum per subscription, and coverage counts them |
| MarketTariff.BuildRow | src/saas/application/price_query/service.py:320-366 | one row carries aggregate and coverage of every duration |
| MarketTable.GetMarketTariff | src/saas/application/price_query/service.py:241-369 | with data, every group and day of the range has exactly one row, which answers the per-day query duration by duration; rows are sorted and inside the range |
| MarketTable.TableAnswers | src/saas/application/price_query/service.py:297-369 | grid, row loops and sorting together refine the per-day query |
| MarketTable.PrepareAll | src/saas/application/price_query/service.py:274-308 | the loop keeps exactly the subscriptions that serve a group and have a zone |
| MarketTable.SortRowsSorts | src/saas/application/price_query/service.py:368 | sorting orders by code and start and loses no row |
| MarketTable.MinimumBelowAverage | src/saas/application/price_query/service.py:343-358 | over stored prices of whole cents the minimum table never exceeds the average table: for every group, day and duration both have a price or neither, equal coverage, and minimum at or below average |
| MarketTable.RowsSortedMeaning | src/saas/application/price_query/service.py:368 | rows come in the order of their codes, and of their first days within a code |
| MarketTable.LexMeaning | src/saas/application/price_query/service.py:368 | codes are compared at their first difference |
| CellPrices.OfferMeaning | src/saas/application/price_query/service.py:324-346 | a subscription contributes the lowest price that a category serving the group has on the day, and nothing exactly when none has one |
| CellPrices.RepIff | src/saas/application/price_query/service.py:537-556 | the representative of a day is that of the first active zone of the category that contains it |
| CellPrices.MarketContributes | src/saas/application/price_query/service.py:274-347 | the market of a day has one number per subscription that quotes, its lowest quote |
| CellPrices.AggregatedShows | src/saas/application/price_query/service.py:343-358 | the price shown is the lowest contribution, or their mean to the cent, or none |
| CellPrices.TableMeaning | src/saas/application/price_query/service.py:274-369 | every cell of a table shows the lowest or mean of the subscriptions' lowest quotes, and its coverage counts them once per listing of the duration |
| CellPrices.OneSubscriptionMeaning | src/saas/application/price_query/service.py:324-358 | with one subscription a minimum cell is the lowest price of a serving category, and empty exactly when none has a price |
| ProviderTariff.GetProviderTariff | src/saas/application/price_query/service.py:137-197 | one sorted row per group and distinct zone, clipped to the range and priced at the representative |
| ProviderTariff.CollectZones | src/saas/application/price_query/service.py:166-172 | the loop keeps each distinct zone once, in order of first appearance |
| ProviderTariff.PriceZone | src/saas/application/price_query/service.py:178-185 | per duration the cheapest category price at the representative, or none |
| ProviderTariff.ZonePriceIsDayPrice | src/saas/application/price_query/service.py:151-195 | with shared disjoint zones the price at a zone's representative is the per-day price of each of its days |
| ProviderTariff.TwoPathsAgree | src/saas/application/price_query/service.py:151-195 | each covered day is in exactly one provider row of the group, and its prices equal the market-minimum row's |
| CellPrices.RepPriceMeaning | src/saas/application/price_query/service.py:178-185 | a zone's price is the lowest observation of a serving category at its representative, and none exactly when there is none |
| CellPrices.ProviderRowsMeaning | src/saas/application/price_query/service.py:151-195 | the rows are exactly those that show an active zone of a category serving one of the groups, clipped to the range, at these prices |
| SessionTrace.FullRunAfterFailure | src/scraper/infrastructure/scrapers/base_scraper.py:61-132 | in every session, whatever failed, the first scrape after it is a full run |
| SessionTrace.FreshAfterSpoil | src/scraper/infrastructure/scrapers/recipe_scraper.py:183-245 | after a failure the scraper notices, a session is opened before the next scrape |
| SessionTrace.ReplacedIff | src/scraper/infrastructure/scrapers/recipe_scraper.py:183-211 | in every session, each failed scrape is followed by a fresh browser before the next one exactly when no raised recipe run is followed by another scrape |
| ScrapeSession.RecipeScraper.PrepareSession | src/scraper/infrastructure/scrapers/recipe_scraper.py:183-191 | a spoiled session is closed and one is opened where none is left; a clean one is reused untouched |
| ScrapeSession.RecipeScraper.SubmitForm | src/scraper/infrastructure/scrapers/recipe_scraper.py:173-211 | exactly which browser events a submit causes, when it succeeds, and that success leaves a clean session and a fresh result |
| ScrapeSession.RecipeScraper.RefineForm | src/scraper/infrastructure/scrapers/recipe_scraper.py:213-245 | exactly one refine when there is a session and the recipe allows it, else a submit; any failed refine marks the session |
| ScrapeSession.RecipeScraper.ExtractResults | src/scraper/infrastructure/scrapers/recipe_scraper.py:247-262 | the booking result reports the last scrape: one car per priced vehicle with its own model, group and price, a daily price that makes it up over the rental days, no error, and confirmed empty exactly when the page said so |
| ScrapeSession.RecipeScraper.Attempt | src/scraper/infrastructure/scrapers/base_scraper.py:80-108 | a result comes from a successful scrape of this very search, extracted right after it; no result only after a real failure |
| ScrapeSession.RecipeScraper.TryAll | src/scraper/infrastructure/scrapers/base_scraper.py:75-108 | primary search and fallbacks in order until the first success; each attempt carries its own browser events, and after a failure they contain no refine |
| ScrapeSession.RecipeScraper.RunRequest | src/scraper/infrastructure/scrapers/base_scraper.py:75-132 | one result per request: the first success of primary, fallbacks and retry, or the error after all of them failed |
| ScrapeSession.RecipeScraper.ScrapeSession | src/scraper/infrastructure/scrapers/base_scraper.py:44-155 | the whole session: its trace is a safe session made of the attempts' own events; after any failure the next scrape is a full run, and an attempt after a failed one never refines; one own result per executed request, reporting a scrape of that very search, and confirmed empty exactly when that scrape showed the empty page; failed browsers are replaced exactly when no raise goes unnoticed; the stopper cuts at the first point it should |
| ScrapeSession.RaiseIsUnnoticed | src/scraper/infrastructure/scrapers/recipe_scraper.py:173-211 | two submits of one request, as the scraper makes them, of which the second reuses the browser whose run raised |
| ScrapeSession.ProbeStopper.ShouldStop | src/scraper/application/smart_scraping/smart_orchestrator.py:733-751 | the streak counter and when it stops |
| ScrapeSession.StreakMeaning | src/scraper/application/smart_scraping/smart_orchestrator.py:733-751 | a streak of n means the last n results are confirmed empty |
| ScrapeSession.MappedReports | src/scraper/infrastructure/scrapers/recipe_scraper.py:89-107 | what the mapping of a scrape reports, car by car |
| ScrapeSession.ConfirmedIff | src/scraper/infrastructure/scrapers/recipe_scraper.py:247-262 | a result is confirmed empty exactly when the scrape that served its request showed the empty page, and never after all attempts failed |
| ScrapeSession.StoppedOnEmptyPages | src/scraper/application/smart_scraping/smart_orchestrator.py:733-751 | a session that stops early ends in threshold requests whose scrapes showed the empty page |
| ScrapeSession.NoEarlierStop | src/scraper/application/smart_scraping/smart_orchestrator.py:733-751 | and it goes on while the last threshold requests did not all show it |
| ScrapeSession.AgendaMeaning | src/scraper/infrastructure/scrapers/base_scraper.py:75-132 | the primary search comes first and last, the fallbacks between in their order |
| SessionRunner.GroupByProvider | src/scraper/application/services/session_runner.py:29-31 | the groups list each provider's requests in order |
| SessionRunner.RankInverts | src/scraper/application/services/session_runner.py:29-41 | grouping and scattering are inverse |
| SessionRunner.RunProvider | src/scraper/application/services/session_runner.py:35-41 | one task writes its results to its own positions and touches no other |
| SessionRunner.RunSession | src/scraper/application/services/session_runner.py:12-44 | whatever the order in which providers finish, every position holds its own request's filtered result, or nothing after an early stop |
| SessionRunner.OrderRestored | src/scraper/application/services/session_runner.py:29-44 | whatever relates requests to results inside a session relates every request to the result at its position, and no position stays empty unless a session stopped early |
| SessionRunner.PrefixExecuted | src/scraper/application/services/session_runner.py:29-44 | with one provider the executed requests are a prefix, each at its own position |
| SessionRunner.OwnResultRestored | src/scraper/application/services/session_runner.py:12-44 | from the browser to the caller: every position holds the filtered result of its own request, never another's and never a stale one, and holds one unless a session stopped early |
| SessionRunner.RetryErrored | src/scraper/application/smart_scraping/smart_orchestrator.py:760-798 | only errored positions change, each to the retry that brought cars for that very request, so cars are gained and never lost |
| SessionRunner.FilterKeeps | src/scraper/application/filters/rate_filter.py:18-36 | the cars a filter keeps: priced ones when free ones are excluded, with a named rate when rates are named |
| SessionRunner.FilteredMeaning | src/scraper/application/filters/rate_filter.py:18-36 | a filter keeps provider and errors and drops the confirmed-empty flag; without one nothing changes |
| SeasonAnalyzer.DetectZones | src/scraper/application/smart_scraping/season_analyzer.py:40-56 | zones between the price jumps of the group's points in date order, or one zone without points |
| Sorting.SortByIsStable | src/scraper/application/smart_scraping/season_analyzer.py:40-56 | sorting keeps tied elements in their order, so later points of a date stay later |
| SeasonAnalyzer.DetectZonesProviderLevel | src/scraper/application/smart_scraping/season_analyzer.py:58-77 | the same over daily means, whose dates are strictly increasing by construction |
| SeasonAnalyzer.AggregateByDate | src/scraper/application/smart_scraping/season_analyzer.py:79-101 | one point per probe date, with the mean daily price of that date |
| SeasonAnalyzer.DetectBoundaries | src/scraper/application/smart_scraping/season_analyzer.py:103-120 | the loop finds exactly the jumps above the threshold |
| SeasonAnalyzer.JumpMeaning | src/scraper/application/smart_scraping/season_analyzer.py:103-120 | a jump moves the daily price by more than the threshold's share of the earlier price, or of a cent when that price is lower |
| SeasonAnalyzer.BuildZones | src/scraper/application/smart_scraping/season_analyzer.py:122-154 | zone ends, representatives and reference prices from the boundaries |
| SeasonAnalyzer.ReferencePrice | src/scraper/application/smart_scraping/season_analyzer.py:143-146 | the price at the first probe on or after the zone's start, 0 without one |
| SeasonAnalyzer.DailyMeaning | src/scraper/application/smart_scraping/season_analyzer.py:103-120 | the daily price times the days is the total |
| SeasonAnalyzer.DailyByDateMeaning | src/scraper/application/smart_scraping/season_analyzer.py:129-133 | the daily price of a date is that of its last point |
| SeasonAnalyzer.PickMeaning | src/scraper/application/smart_scraping/season_analyzer.py:167-170 | the representative is the first day, or has as many days before as after, or one less |
| SeasonAnalyzer.PricesOnMeaning | src/scraper/application/smart_scraping/season_analyzer.py:79-101 | the prices of a date are the daily prices of all its points |
| SeasonAnalyzer.PricesOnCount | src/scraper/application/smart_scraping/season_analyzer.py:79-101 | one price for each of them |
| SeasonAnalyzer.MeanPointMeaning | src/scraper/application/smart_scraping/season_analyzer.py:79-101 | the synthetic point of a date shares out their sum |
| SeasonZones.Partition | src/scraper/application/smart_scraping/season_analyzer.py:40-154 | with strictly increasing dates inside the period the zones are non-empty and tile it, and a probe date opens a zone exactly when its price jumps |
| SeasonZones.DetectedContiguous | src/scraper/application/smart_scraping/season_analyzer.py:122-154 | whatever the input, zones leave no gap and cover the period from first to last day |
| SeasonZones.ContiguousTiles | src/scraper/application/smart_scraping/season_analyzer.py:122-154 | contiguous non-empty zones put every day into exactly one zone |
| SeasonZones.NonEmptyIff | src/scraper/application/smart_scraping/season_analyzer.py:40-56 | for points inside the period, no zone is empty exactly when no date carries two jumps and none falls on the first day |
| SeasonZones.TailNonEmptyIff | src/scraper/application/smart_scraping/season_analyzer.py:122-154 | all zones but the first are non-empty exactly when no date carries two jumps |
| SeasonZones.FirstNonEmptyIff | src/scraper/application/smart_scraping/season_analyzer.py:122-154 | given that, the first zone is non-empty exactly when no jump falls on the first day, and otherwise ends the day before it starts |
| SeasonZones.EmptyZoneExists | src/scraper/application/smart_scraping/season_analyzer.py:40-56 | two weekly prices of one group on the first probe date |
| SeasonZones.DriftBound | src/scraper/application/smart_scraping/season_analyzer.py:103-154 | inside one zone the k-th probe stays within the threshold compounded k times around the reference price |
| SeasonZones.ReferenceIsFirstProbe | src/scraper/application/smart_scraping/season_analyzer.py:143-146 | the reference price of a zone is the daily price of its first probe |
| SeasonCalendar.BestDate | src/scraper/application/smart_scraping/smart_orchestrator.py:379-407 | the probe date of the zone with most groups, the later one on a tie |
| SeasonCalendar.BestMeaning | src/scraper/application/smart_scraping/smart_orchestrator.py:379-407 | no date inside the zone sees more groups, and a later one sees fewer |
| SeasonCalendar.ReassignRepresentatives | src/scraper/application/smart_scraping/smart_orchestrator.py:379-407 | every zone keeps everything but its representative, which moves only to the best probe date inside it |
| SeasonCalendar.ReassignedKeeps | src/scraper/application/smart_scraping/smart_orchestrator.py:379-407 | a representative inside its zone stays inside |
| SeasonCalendar.Calendar.LeadingActiveZone | src/saas/infrastructure/persistence/repositories/homogeneous_zone.py:17-41 | start and price of an earliest active row of any category |
| SeasonCalendar.Calendar.PersistZones | src/scraper/application/smart_scraping/smart_orchestrator.py:546-623 | all categories receive the carried-forward zones, or nothing changes when there is no category or a CHECK fails |
| SeasonCalendar.WriteAll | src/saas/infrastructure/persistence/repositories/homogeneous_zone.py:43-69 | replacement of every category's rows, all or nothing under the CHECK constraints |
| SearchPlan.BuildProbeSearches | src/scraper/application/smart_scraping/season_probe.py:25-47 | one probe a week as long as seven days fit the window |
| SearchPlan.BuildShortSearches | src/scraper/application/smart_scraping/search_plan_builder.py:24-57 | exactly the pairs of representative and duration that end in the period, in strictly increasing order |
| SearchPlan.PlannedOnce | src/scraper/application/smart_scraping/search_plan_builder.py:34-57 | each pair once |
| SeasonRuns.SelectGuideGroup | src/scraper/application/smart_scraping/smart_orchestrator.py:356-377 | the first group seen on most dates, then in most points |
| SeasonRuns.GuideMeaning | src/scraper/application/smart_scraping/smart_orchestrator.py:356-377 | no group is seen on more dates, none on as many in more points, and none of equals appears earlier |
| SeasonRuns.ExtractPoints | src/scraper/application/smart_scraping/price_point_extractor.py:24-60 | the loops give one price point per car of every executed probe, dated by its search |
| SeasonRuns.PointsMeaning | src/scraper/application/smart_scraping/price_point_extractor.py:24-60 | a point stands for a car with the wanted rate found by the k-th probe: its date, seven days, its total and group |
| SeasonRuns.TruncatedIff | src/scraper/application/smart_scraping/smart_orchestrator.py:204-211 | the probe counts as stopped early exactly when some search has no result |
| SeasonRuns.NoPointsIff | src/scraper/application/smart_scraping/price_point_extractor.py:24-60 | there are no points exactly when no executed probe brought a car with the wanted rate |
| SeasonRuns.Run | src/scraper/application/smart_scraping/smart_orchestrator.py:175-350 | from the probe results on: refused exactly when no search brought a priced car and some search errored; rejected by the table exactly when it gets as far as writing for some category and its probe is not storable; the calendar becomes the carried-forward detection exactly when it is storable, and stays as it was otherwise; the plan covers the zones |
| SeasonRuns.ProbeStoredIff | src/scraper/application/smart_scraping/smart_orchestrator.py:546-623 | exactly which probes leave rows that satisfy the CHECK constraints: at most one jump of the guide group per date and none on the first day, which only a carried-forward start with middle representatives may replace; without points, a period that is not empty |
| SeasonRuns.TwoPricesRejected | src/scraper/application/smart_scraping/smart_orchestrator.py:356-407 | a run whose one probe found two cars of the guide group at different prices is not storable, except with middle representatives and a carried-forward start |
| SeasonRuns.RunIsStep | src/scraper/application/smart_scraping/smart_orchestrator.py:221-302 | every run is a step of the histories below, and writes exactly when its probe is storable |
| SeasonRuns.RunsAreSteps | src/scraper/application/smart_scraping/smart_orchestrator.py:221-302 | every sequence of runs is such a history |
| SeasonRuns.StoredCalendarsGood | src/scraper/application/smart_scraping/smart_orchestrator.py:60-82 | after any sequence of runs, with categories coming and going, every stored calendar is ordered, contiguous, non-empty, with representatives inside |
| SeasonRuns.CalendarOverHistory | src/scraper/application/smart_scraping/smart_orchestrator.py:60-82 | after any history of runs in which categories with zones stay active, the stored calendar is shared by all and led by the earliest window start since the last price break, at the last price |
| CalendarTariff.CalendarIsShared | src/scraper/application/smart_scraping/smart_orchestrator.py:546-623 | when the zone table holds such a calendar, the categories of a group share disjoint zones |
| CalendarTariff.HistoryIsShared | src/saas/application/price_query/service.py:537-556 | so after any such history a group whose categories all have a calendar has at most one zone a day, the same for all of them, which is what TwoPathsAgree asks |
| SeasonRuns.SeasonStartIsLastBreak | src/scraper/application/smart_scraping/smart_orchestrator.py:60-82 | with windows that never move back the season start is the window start of the last price-discontinuous run |
| SeasonRuns.StartNeverLater | src/scraper/application/smart_scraping/smart_orchestrator.py:60-82 | over price-continuous runs the stored leading start of any category is never later than that of any category before them |
| SeasonRuns.LeadIsCurrentIff | src/saas/infrastructure/persistence/repositories/homogeneous_zone.py:17-41 | the newly written calendar leads exactly when no category left out holds an earlier zone |
| SeasonRuns.RetiredCategoryLeads | src/saas/infrastructure/persistence/repositories/homogeneous_zone.py:17-41 | a retired category that keeps leading |
| SeasonRuns.EveryZoneAnswerable | src/scraper/application/smart_scraping/smart_orchestrator.py:299-302 | every stored zone and admissible duration has exactly one extraction search at the stored representative |
| AcrissClassifier.UnknownStaysOpen | src/saas/application/classification/acriss_engine/classifier.py:263-284 | an unknown model gets no category, no code, and goes to review |
| AcrissClassifier.VanNeedsEvidence | src/saas/application/classification/acriss_engine/classifier.py:109-151 | a passenger-van body needs a van family, a dictionary body or an override |
| AcrissClassifier.VanBySeats | src/saas/application/classification/acriss_engine/codes.py:109-121 | the category of a passenger van by its seats, through the whole classification |
| AcrissClassifier.SubstringMeaning | src/saas/application/classification/acriss_engine/classifier.py:302-318 | a body word counts only where the dictionary name does not contain it, anywhere |
| AcrissClassifier.SourcesRank | src/saas/application/classification/acriss_engine/classifier.py:263-339 | the recorded source of category and body is true, and the sources rank as documented |
| AcrissClassifier.AlternativesDifferOnce | src/saas/application/classification/acriss_engine/classifier.py:151-207 | an alternative differs from the letters in exactly one of body and fuel |
| AcrissClassifier.DriveLetters | src/saas/application/classification/acriss_engine/classifier.py:342-409 | the fuel letter of every kind of family and the transmission letter of every kind of signal, and that only mixed families and unknown models stay ambiguous |
| AcrissClassifier.NoReviewIff | src/saas/application/classification/acriss_engine/classifier.py:80-245 | exactly which vehicles get a complete code without review: a known model, and for each of the four letters a source that is trusted |
| AcrissClassifier.FuzzyChangesNothing | src/saas/application/classification/acriss_engine/classifier.py:263-339 | replacing an exact match by a fuzzy one changes neither the code nor whether a coded vehicle is reviewed |
| AcrissLetters.ReviewMeaning | src/saas/application/classification/acriss_engine/classifier.py:209-217 | not pending review means exactly four trusted letters and a known model |
| AcrissService.Record.constructor | src/saas/application/classification/acriss_engine/classifier.py:186-245 | a new record's code strings render its letters and its flag follows the review rule |
| AcrissService.Record.Refresh | src/saas/infrastructure/classification/engine_service.py:409-424 | code strings, confidence and flag recomputed from the letters, which do not change |
| AcrissService.CombineBundle | src/saas/infrastructure/classification/engine_service.py:178-221 | unresolved members only decide when all are; one code keeps the first most confident member untouched, several take the first of highest category rank and then highest confidence, capped and flagged; no other member changes |
| AcrissService.RankMeaning | src/saas/infrastructure/classification/engine_service.py:62-86 | the rank is the position on the price ladder, and a letter off it or none ranks below all |
| AcrissService.ParseDeclared | src/saas/infrastructure/classification/engine_service.py:97-111 | a structurally valid candidate when there is one, none otherwise |
| AcrissService.DeclaredMeaning | src/saas/infrastructure/classification/engine_service.py:97-111 | the declared code is the first candidate with a letter of each table |
| AcrissService.ApplyDeclaredCode | src/saas/infrastructure/classification/engine_service.py:225-273 | which letters a declared code fills or replaces, and that the record stays consistent |
| AcrissService.DeclaredCompletes | src/saas/infrastructure/classification/engine_service.py:225-273 | a declared code completes the classification with its own letters and never overwrites a trusted letter |
| AcrissService.ResolveUnknown | src/saas/infrastructure/classification/engine_service.py:277-327 | exactly when a profile is used, the letters it leads to, and code strings, confidence and flag recomputed from them; otherwise nothing changes |
| AcrissService.ProfileIsCautious | src/saas/infrastructure/classification/engine_service.py:277-327 | a profile fills gaps and a fallback fuel with its own letters only, and anything it contributes forces review |
| AcrissService.ToDto | src/saas/infrastructure/classification/engine_service.py:426-495 | stored code, confidence and pending flag, and the record they leave behind |
| AcrissService.CollapsedCode | src/saas/infrastructure/classification/engine_service.py:448-463 | the collapse yields the R trunk and changes neither confidence nor review |
| AcrissService.StoredIsSound | src/saas/infrastructure/classification/engine_service.py:426-495 | a code is stored exactly when it or its R trunk is materialized, else NULL and pending; not pending means four trusted letters and a known model |
| AcrissService.MixedCapIff | src/saas/infrastructure/classification/engine_service.py:429-463 | exactly when the mixed-bundle cap and flag reach the stored result |
| AcrissService.MixedFlagLost | src/saas/infrastructure/classification/engine_service.py:178-221 | two classified small hatchbacks, EDMV and EDMR, bundled and stored as EDMR at 0.95 and not pending |
| AcrissService.ClassifyAlone | src/saas/infrastructure/classification/engine_service.py:133-174 | a lone vehicle is stored without review exactly when everything about it is known and trusted and its code is materialized, or is a petrol code whose trunk is |
| AcrissService.ClassifyGroup | src/saas/infrastructure/classification/engine_service.py:133-174 | the whole pipeline yields a sound storable result for any members, declared codes and profile, and a group of unknown models is always pending |
| ModelDictionary.Dictionary.constructor | src/saas/application/classification/acriss_engine/dictionaries.py:45-74 | the nested loops build the index and the model-only table of the kept entries and aliases |
| ModelDictionary.IndexMeaning | src/saas/application/classification/acriss_engine/dictionaries.py:60-74 | whatever the order, a canonical key names its last entry and no alias shadows it; any other key names the entry of its first alias |
| ModelDictionary.AliasMeaning | src/saas/application/classification/acriss_engine/dictionaries.py:60-74 | a key that is nobody's canonical key names the first entry with that alias, else the first global alias, else nothing |
| ModelDictionary.ModelOnlyMeaning | src/saas/application/classification/acriss_engine/dictionaries.py:63-68 | a model-only key lists exactly the entries that have it, and short or numeric keys list none |
| ModelDictionary.NamedByMeaning | src/saas/application/classification/acriss_engine/dictionaries.py:63-68 | a model key has three characters or more, not digits only, and is the normalized model of some entry |
| ModelDictionary.Dictionary.Lookup | src/saas/application/classification/acriss_engine/dictionaries.py:79-133 | the loops compute the specified lookup, whose steps FoundInOrder orders, and a match names an entry |
| ModelDictionary.FoundInOrder | src/saas/application/classification/acriss_engine/dictionaries.py:79-133 | what every text finds, by which step: its own key first, then the one entry of that model, then the longest contained key, index before model keys, then the most similar key; a later step speaks only where all earlier ones are silent |
| ModelDictionary.InWordsMeaning | src/saas/application/classification/acriss_engine/dictionaries.py:95-107 | a contained key stands in the text with a space or the text's end on either side |
| ModelDictionary.CanonicalIsFound | src/saas/application/classification/acriss_engine/dictionaries.py:84-87 | looking up an entry's canonical key finds that entry, whatever aliases exist |
| ModelDictionary.ContainmentIsLongest | src/saas/application/classification/acriss_engine/dictionaries.py:95-107 | a containment hit is the longest contained index key, or, when no index key is contained, the longest model key of a single entry |
| ModelDictionary.FuzzyIsGuarded | src/saas/application/classification/acriss_engine/dictionaries.py:109-131 | a fuzzy hit is at 0.90 or more without designator conflict, any more similar key has one, and it agrees with its entry on estate markers |
| ModelDictionary.NoMatchIff | src/saas/application/classification/acriss_engine/dictionaries.py:79-133 | exactly which texts find no entry: no key of their own, no single entry of that model, no contained key, and no similar key or one whose entry differs in its estate marker |
| ModelDesignator.FirstDigitDecides | src/saas/application/classification/acriss_engine/dictionaries.py:152-173 | the first token with a digit decides the designator, with a short prefix before it or a single letter after it |
| ModelDesignator.FusesMeaning | src/saas/application/classification/acriss_engine/dictionaries.py:152-173 | the prefix is one to three letters before a number, the suffix one letter after it |
| ModelDesignator.NoDigitNoDesignator | src/saas/application/classification/acriss_engine/dictionaries.py:152-173 | no digits, no designator |
| ModelDesignator.MismatchNeedsDigits | src/saas/application/classification/acriss_engine/dictionaries.py:176-186 | a conflict is symmetric, irreflexive, and needs digits in both names |
| RecipeDocument.ReadBack | src/scraper/application/builder/build_recipe.py:44-132 | what reading a written recipe gives, for every recipe |
| RecipeDocument.RoundTripIff | src/scraper/application/builder/build_recipe.py:44-132 | the stored form gives the recipe back exactly when every extractor has a field and an extraction |
| RecipeDocument.NullExtractionIsLost | src/scraper/application/builder/build_recipe.py:44-132 | a recipe with a null extraction comes back with a plain text extraction |
| RecipeDocument.LoadIsStable | src/scraper/application/builder/build_recipe.py:79-132 | a loaded document is loaded again unchanged after a save |
| RecipeStore.RowOfHistory | src/scraper/infrastructure/repositories/provider_recipe_repository.py:29-60 | every row after any history of saves: owner, content, version number, and active exactly while no later save is for its provider |
| RecipeStore.VersionsAreConsecutive | src/scraper/infrastructure/repositories/provider_recipe_repository.py:86-94 | a provider's versions are exactly 1, 2, ..., n |
| RecipeStore.HistoryHasOneActive | src/scraper/infrastructure/repositories/provider_recipe_repository.py:29-60 | never two active rows for a provider |
| RecipeStore.ActiveIsHighest | src/scraper/infrastructure/repositories/provider_recipe_repository.py:29-60 | the active row carries the highest version |
| RecipeStore.Repository.NextVersion | src/scraper/infrastructure/repositories/provider_recipe_repository.py:86-94 | one more than the highest version, 1 without rows |
| RecipeStore.Repository.SaveRecipe | src/scraper/infrastructure/repositories/provider_recipe_repository.py:29-60 | the two statements never meet the unique index, append version n + 1 and leave other providers' rows alone |
| RecipeStore.Repository.GetActiveRecipe | src/scraper/infrastructure/repositories/provider_recipe_repository.py:62-72 | the last recipe saved for the provider, read back, or none when it has no row |
| RecipeStore.Repository.SaveThenGet | src/scraper/infrastructure/repositories/provider_recipe_repository.py:29-72 | what was saved is what is loaded, and no other provider is affected |

## Left out

- Binary floats and the 28-digit decimal context: medians, averages and quotients are exact reals; every explicit quantisation is modelled.
- The query that picks the latest observation per key: the latest prices are an input of the price queries.
- Provider, location, rate and tenant lookups, subscription checks, warnings and currency of the price queries: plumbing before the modelled part.
- Shared contribution objects: TariffCell updates a sequence of records instead of objects in place; the marks are the same, aliasing is not modelled.
- Several rates per car: the modelled scraper always produces the single rate named "default".
- Logging, pauses, cost counters and log directories of a session; failures there look like a failed recipe run.
- RecipeScraper.ScrapeSession: requires a fresh scraper, as the session runner creates one per session; a second session on one object is not modelled.
- Classification, category upserts, observation rows and the extraction phase of a run: RunInput takes only whether they went through. The probe results it takes are those of a session, with its positions.
- CalendarOverHistory: the leading start assumes that a category that has zones stays active; LeadIsCurrentIff says exactly what happens otherwise, and StoredCalendarsGood needs no such assumption.
- FuzzyChangesNothing, NoReviewIff, ClassifyAlone: for dictionaries, overrides and names whose letters are letters; a dictionary that lists "?" as a letter is left out.
- Dates beyond the calendar's maximum and before its first day: day numbers are unbounded naturals.
- Explanations, letter names, assumption texts, classification source, batch order, review queue and metrics of the classifier.
- Trimming and upper-casing of declared codes, and stripping of looked-up text: both are inputs after that step.
- The key normalizer, make detector, similarity ratio, estate-marker search and powertrain and transmission detectors: function parameters or inputs.
- Extract: letters and digits are ASCII, as keys are after accent stripping; other scripts' letters and digits are not modelled.
- Which Python exception a malformed document raises, and documents whose collections are not objects or lists: RecipeDocument reports the missing key only.
- Assembling a recipe from a discovery result, the discovered-at column, listing of versions, and concurrent transactions on the recipe table.
