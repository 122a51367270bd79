# myrad-miniapp backend: a Dafny model of its decision logic

The myrad-miniapp backend takes data contributions from users: Zomato order histories,
Netflix watch histories and GitHub profiles. It stores each one in a per-type Postgres table
together with a "sellable" enterprise record. It awards points and a league, and tracks
k-anonymity cohorts and an append-only consent ledger.

This project models the pure decision logic of that backend as immutable Dafny values and
total functions, and proves what the code promises about it.

- The cohort registry is a `map`, and the consent ledger is a `seq`.
- JavaScript values are a JSON datatype (`Json.Json`). A missing property is `None`, so
  `undefined`, `null`, truthiness, `||` and optional chaining (`?.`) are all explicit.
- Storage, clocks, hashes and the data pipelines are parameters:
  - database rows and a table's existing columns are passed in as data;
  - `JSON.parse`, `String(v)`, `Number(v)` and `new Date(v)` are passed as functions.

## Modules

| module | file | models |
|---|---|---|
| `CohortService` | cohort.dfy | `cohortService.js`: cohort IDs, the increment, queries, statistics |
| `ConsentLedger` | consent.dfy | `consentLedger.js`: entries, lookups, audit export, statistics |
| `RewardService` | reward.dfy | `rewardService.js`: the points formula and the five-tier league ladder |
| `SchemaValidator` | schema.dfy | `schemaValidator.js`: dotted-path checks, required fields, validator wrappers |
| `DbHelpers` | dbhelpers.dfy | `dbHelpers.js`: the schema-tolerant SELECT and INSERT builders |
| `ColumnRules` | columns.dfy | `dbStorage.js`: each table's own columns and the rule that fills each one |
| `DbStorage` | dbstorage.dfy | `dbStorage.js`: table dispatch, row assembly, `processValue`, cohort counts, contributions newest first |
| `MvpRoutes` | routes.dfy | `mvpRoutes.js`: the token parser, usernames, `/contribute` decisions, `/enterprise/data` pagination |
| `Sorting` | sorting.dfy | the stable `Array.prototype.sort` that orders contributions |

The other modules are shared vocabulary:

- `Wrappers`: `Option` and `Result`.
- `Seqs`: filter, map, find and sum over sequences.
- `Text`: `split`, `join`, `startsWith`, ASCII lower-casing.
- `Numerals`: decimal rendering and JavaScript `parseInt`.
- `Json`: JavaScript values.
- `Counters`: tallies kept in maps.

## Model

| member | source | states |
|---|---|---|
| CohortService.NormalizePlatform | myrad-miniapp/backend/cohortService.js:52 | the platform part holds only lower-case letters and digits, so never `_` |
| CohortService.PlatformScrubbed | myrad-miniapp/backend/cohortService.js:52 | a truthy platform becomes its own characters lower-cased one by one, keeping in order exactly those that land in `[a-z0-9]` |
| CohortService.PlatformDefault | myrad-miniapp/backend/cohortService.js:52 | a missing or empty platform becomes `unknown` |
| Text.KeepLowerIsScrub | myrad-miniapp/backend/cohortService.js:52-55 | lower-casing and then stripping to a class is the same as the character-wise reference `Text.Scrub` |
| Text.ScrubAppend | myrad-miniapp/backend/cohortService.js:52-55 | the normalisation works piecewise: the normal form of a concatenation is the concatenation of the normal forms |
| CohortService.NormalizeCity | myrad-miniapp/backend/cohortService.js:53 | the city part holds only `[a-z0-9_]` |
| CohortService.CityScrubbed | myrad-miniapp/backend/cohortService.js:53 | a truthy city cluster becomes its own characters lower-cased one by one, keeping in order exactly those that land in `[a-z0-9_]` |
| CohortService.CityDefault | myrad-miniapp/backend/cohortService.js:53 | a missing or empty city cluster becomes `unknown_region` |
| CohortService.NormalizeSpend | myrad-miniapp/backend/cohortService.js:54 | the spend part is only lower-cased: same length, each character the lower-case of the input's (or `unknown`'s) character at that position, so no capital remains |
| CohortService.SpendDefault | myrad-miniapp/backend/cohortService.js:54 | a missing or empty spend tier becomes `unknown` |
| CohortService.NormalizeFrequency | myrad-miniapp/backend/cohortService.js:55 | the frequency part holds only `[a-z0-9_]` |
| CohortService.FrequencyScrubbed | myrad-miniapp/backend/cohortService.js:55 | a truthy frequency tier becomes its own characters lower-cased one by one, keeping in order exactly those that land in `[a-z0-9_]` |
| CohortService.FrequencyDefault | myrad-miniapp/backend/cohortService.js:55 | a missing or empty frequency tier becomes `unknown` |
| CohortService.ComponentsScrubbed | myrad-miniapp/backend/cohortService.js:52-55 | each normalised component is its scrubbed (for spend: lower-cased) value when truthy, and its placeholder otherwise |
| CohortService.GenerateCohortId | myrad-miniapp/backend/cohortService.js:51-58 | the ID joins with `_`, in the order platform, city, spend, frequency, each truthy attribute's scrubbed form (spend only lower-cased) or else its placeholder |
| CohortService.CohortIdOfParts | myrad-miniapp/backend/cohortService.js:51-58 | whatever the four normalised parts are, the ID is exactly them joined by `_` |
| CohortService.CohortIdPlatformPrefix | myrad-miniapp/backend/cohortService.js:51-58 | the first `_` of a cohort ID ends the normalised platform, so splitting at `_` gives it back first |
| CohortService.PlatformUnchanged | myrad-miniapp/backend/cohortService.js:52 | a platform already in normal form, or the `unknown` default, comes out unchanged |
| CohortService.CityUnchanged | myrad-miniapp/backend/cohortService.js:53 | a city already in normal form, or the `unknown_region` default, comes out unchanged |
| CohortService.SpendUnchanged | myrad-miniapp/backend/cohortService.js:54 | a spend tier without capitals, or the `unknown` default, comes out unchanged |
| CohortService.FrequencyUnchanged | myrad-miniapp/backend/cohortService.js:55 | a frequency tier already in normal form, or the `unknown` default, comes out unchanged |
| CohortService.CohortIdDefaults | myrad-miniapp/backend/cohortService.js:51-58 | four missing or empty attributes give `unknown_unknown_region_unknown_unknown` |
| CohortService.CohortIdCollision | myrad-miniapp/backend/cohortService.js:53-57 | IDs are not injective: moving an `_`-separated piece from the city into the spend tier keeps the ID |
| CohortService.StartingRecord | myrad-miniapp/backend/cohortService.js:69-77 | an increment starts from the stored record, or from a fresh zero-count record stamped now |
| CohortService.Increment | myrad-miniapp/backend/cohortService.js:65-95 | the target's count grows by one and every other cohort is unchanged; compliance is `count >= 10`; the first-compliance stamp is set exactly on the false-to-true step and otherwise kept |
| CohortService.IncrementNewCohort | myrad-miniapp/backend/cohortService.js:69-79 | a new cohort's first increment returns count 1, not compliant, with a null stamp |
| CohortService.IncrementPreservesValid | myrad-miniapp/backend/cohortService.js:79-90 | increment preserves the invariant that flag and stamp follow the count |
| CohortService.ComplianceIsStable | myrad-miniapp/backend/cohortService.js:83-90 | under the invariant, a compliant cohort stays compliant and keeps its stamp whichever cohort is incremented |
| CohortService.IncrementAllFresh | myrad-miniapp/backend/cohortService.js:65-95 | `n` increments of a new cohort give count `n`; it is compliant iff `n >= 10`; it is stamped with the 10th time and created at the first |
| CohortService.GetCohortCount | myrad-miniapp/backend/cohortService.js:102-105 | the stored count, and 0 for an unknown cohort |
| CohortService.GetCohortDetails | myrad-miniapp/backend/cohortService.js:112-115 | the stored record, or null exactly when the cohort is unknown |
| CohortService.GetCompliantCohorts | myrad-miniapp/backend/cohortService.js:130-147 | exactly the cohorts whose count reaches the threshold, with their records unchanged |
| CohortService.CheckKAnonymity | myrad-miniapp/backend/cohortService.js:149-152 | true iff the count (0 when unknown) reaches the threshold |
| CohortService.QueriesAgreeWithFlags | myrad-miniapp/backend/cohortService.js:130-152 | with K = 10 and the invariant, both queries agree with the stored compliance flags |
| CohortService.SumCohorts | myrad-miniapp/backend/cohortService.js:174-181 | the running sums equal the sum of counts and the number of compliant cohorts; compliant plus non-compliant is the number visited |
| CohortService.CohortExtremes | myrad-miniapp/backend/cohortService.js:183-191 | the largest size bounds every count from above and the smallest bounds it from below; each names the first cohort in key order with that size, since ties keep the earlier one |
| CohortService.GetCohortStats | myrad-miniapp/backend/cohortService.js:158-203 | totals are the number of keys and the sum of counts; the compliant split adds up; largest and smallest bound every count, and each is the first cohort in key order with its size; an empty registry gives 0 and null |
| ConsentLedger.NewEntry | myrad-miniapp/backend/consentLedger.js:88-125 | hashes are `H(salt + id)`; the verified flag, `zk_proof` and `proof_id` appear iff a proof is given; every absent field takes its default, and every truthy one (data type, source, region, cohort, contribution, window bounds) is stored as given, as is any order count |
| ConsentLedger.LogConsent | myrad-miniapp/backend/consentLedger.js:73-133 | a successful write appends exactly the new entry after the unchanged old ones; a failed one leaves the ledger unchanged; the entry is returned either way |
| ConsentLedger.GetConsentEntriesByUser | myrad-miniapp/backend/consentLedger.js:140-144 | exactly the ledger's entries with the user's hash, and only those |
| ConsentLedger.EntriesByUserAfterLog | myrad-miniapp/backend/consentLedger.js:140-144 | after logging for a user, that user's entries are the old ones followed by the new entry |
| ConsentLedger.EntriesOfOthersAfterLog | myrad-miniapp/backend/consentLedger.js:140-144 | logging for one user leaves every other hash's entries unchanged |
| ConsentLedger.GetConsentByProofId | myrad-miniapp/backend/consentLedger.js:151-154 | the first entry with that proof ID, or null exactly when there is none |
| ConsentLedger.IsProofAlreadyUsed | myrad-miniapp/backend/consentLedger.js:231-235 | false for a falsy ID, else true iff some entry carries it |
| ConsentLedger.ProofLookupsAgree | myrad-miniapp/backend/consentLedger.js:151-154 | for a truthy ID, the two proof lookups agree |
| ConsentLedger.ProofUsedAfterLog | myrad-miniapp/backend/consentLedger.js:231-235 | once an entry with a proof is logged, the proof counts as used and can be looked up |
| ConsentLedger.ExportForAudit | myrad-miniapp/backend/consentLedger.js:210-224 | with no bounds, the whole ledger; otherwise exactly the entries within the inclusive window, with start defaulting to the epoch and end to now |
| ConsentLedger.ExportAppend | myrad-miniapp/backend/consentLedger.js:210-224 | exporting a grown ledger is exporting the old part followed by the new part |
| ConsentLedger.DateRangeOf | myrad-miniapp/backend/consentLedger.js:191-198 | earliest and latest are timestamps that occur, and they bound every timestamp |
| ConsentLedger.GetConsentStats | myrad-miniapp/backend/consentLedger.js:160-202 | the total is the ledger length; each tally sums to the total; unique users is the number of distinct hashed user IDs, at most the total; verified entries is the number of ledger positions holding a verified entry, at most the total; earliest is at most latest |
| ConsentLedger.ConsentStatsCounts | myrad-miniapp/backend/consentLedger.js:176-184 | each data-type, region and consent-type counter is the number of entries with that key |
| ConsentLedger.VerifiedIndices | myrad-miniapp/backend/consentLedger.js:186-189 | the verified count is the number of ledger positions whose entry is verified, and at most the ledger length |
| ConsentLedger.StatsAfterLog | myrad-miniapp/backend/consentLedger.js:160-202 | logging adds one entry, and one verified entry exactly when a proof is given |
| RewardService.CalculateRewards | myrad-miniapp/backend/rewardService.js:13-42 | base is 10 and total is base plus quality; the bonus is 20 iff score >= 0.7 and orders >= 5; the streak is 0 and not continued |
| RewardService.RewardsAreTenOrThirty | myrad-miniapp/backend/rewardService.js:13-42 | every result is 10 or 30, and 10 with all arguments left at their defaults |
| RewardService.RewardsMonotone | myrad-miniapp/backend/rewardService.js:23-31 | a better score or more orders never earn fewer points |
| RewardService.CalculateLeague | myrad-miniapp/backend/rewardService.js:50-56 | the league's inclusive threshold is reached, and no higher league's is |
| RewardService.LeagueLadder | myrad-miniapp/backend/rewardService.js:50-56 | a league is reached iff it is at or below the computed one |
| RewardService.LeagueMonotone | myrad-miniapp/backend/rewardService.js:50-56 | more points never give a lower league |
| Json.Get | myrad-miniapp/backend/schemaValidator.js:127-132 | the walk stops with undefined at the first nullish value that still has segments to go, and an empty path gives the value itself |
| Json.GetAppend | myrad-miniapp/backend/schemaValidator.js:127-132 | walking a path in two stages is walking the whole path |
| SchemaValidator.CheckField | myrad-miniapp/backend/schemaValidator.js:123-139 | the value is the optional-chaining walk of the data along the path split at `.`; the field exists iff that value is not undefined; a missing field's type is `undefined`; the type is `array` exactly for arrays |
| SchemaValidator.CheckFieldOfSegments | myrad-miniapp/backend/schemaValidator.js:123-139 | for dot-free segments joined by `.`, the value is the walk along exactly those segments, and the field exists iff the walk reaches a value |
| SchemaValidator.StopsAtNullish | myrad-miniapp/backend/schemaValidator.js:127-130 | when a path's prefix leads to null or undefined and segments are left, checking the dotted path reports a missing field of type `undefined` |
| SchemaValidator.NullLeafExists | myrad-miniapp/backend/schemaValidator.js:134-138 | checking the dotted path of a present null leaf reports an existing field of type `object` with value null |
| SchemaValidator.MissingFields | myrad-miniapp/backend/schemaValidator.js:146-175 | the result holds exactly the given paths whose field does not exist, and is no longer than they are |
| SchemaValidator.MissingFieldsAppend | myrad-miniapp/backend/schemaValidator.js:165-174 | the missing paths of two lists in a row are those of the first followed by those of the second, so the input order is kept |
| SchemaValidator.MissingFieldsOne | myrad-miniapp/backend/schemaValidator.js:165-174 | a single path is reported iff its field does not exist |
| SchemaValidator.MissingRequiredFields | myrad-miniapp/backend/schemaValidator.js:146-175 | exactly the required paths whose field does not exist, in the order of the required list (by the two lemmas above), at most 15 |
| SchemaValidator.NullishDataMissesEverything | myrad-miniapp/backend/schemaValidator.js:146-175 | for null or undefined data, all 15 paths are missing, in declaration order |
| SchemaValidator.ReportedPath | myrad-miniapp/backend/schemaValidator.js:70 | the reported path is never empty: the instance path, or `/` for the root |
| SchemaValidator.ValidateSellableData | myrad-miniapp/backend/schemaValidator.js:52-83 | no validator means valid with the skipped summary; otherwise the verdict is the validator's; every error is reported; the summary is `path: message` joined by `; ` |
| SchemaValidator.ValidateOrThrow | myrad-miniapp/backend/schemaValidator.js:90-98 | throws iff the validation is invalid, carrying its errors; otherwise returns true |
| SchemaValidator.GetValidationStatus | myrad-miniapp/backend/schemaValidator.js:105-115 | the verdict and error count agree with the validation; the version is the schema `$id` or `unknown` |
| DbHelpers.StringifiedOrNull | myrad-miniapp/backend/dbHelpers.js:61-63 | stringified JSON iff the value is truthy, else null |
| DbHelpers.SelectItemReadsColumn | myrad-miniapp/backend/dbHelpers.js:35-46 | an aliased item still reads its own column, and an unaliased one is the column verbatim |
| DbHelpers.BuildSelectQuery | myrad-miniapp/backend/dbHelpers.js:26-47 | `SELECT *` exactly when no requested column exists; otherwise at most one item per requested column |
| DbHelpers.SelectListColumns | myrad-miniapp/backend/dbHelpers.js:28-46 | the select list reads exactly the requested columns that exist, in requested order |
| DbHelpers.InsertValues | myrad-miniapp/backend/dbHelpers.js:56-68 | one value per fixed column, and `status` is `verified` |
| DbHelpers.Placeholders | myrad-miniapp/backend/dbHelpers.js:74-78 | `n` placeholders, the `i`-th being `$` followed by `i + 1` |
| DbHelpers.BuildInsertQuery | myrad-miniapp/backend/dbHelpers.js:52-81 | columns, values and placeholders align; every column exists; every pair comes from the column-value map |
| DbHelpers.InsertColumnsFiltered | myrad-miniapp/backend/dbHelpers.js:70-72 | the inserted columns are the fixed keys that exist, in declaration order |
| DbHelpers.PlaceholderNumbers | myrad-miniapp/backend/dbHelpers.js:74-78 | placeholder `i` reads back, via `parseInt`, as `i + 1` |
| DbHelpers.InsertedValueShapes | myrad-miniapp/backend/dbHelpers.js:56-68 | `status` is `verified`, `processing_method` is never falsy, and the JSON columns hold stringified JSON or null |
| ColumnRules.GithubRulesStringifyJsonb | myrad-miniapp/backend/dbStorage.js:258-324 | every GitHub column that `processValue` treats as JSONB (`metadata`) is filled by a `JSON.stringify` rule |
| ColumnRules.NetflixRulesStringifyJsonb | myrad-miniapp/backend/dbStorage.js:327-505 | every Netflix column that `processValue` treats as JSONB is filled by a `JSON.stringify` rule |
| ColumnRules.ZomatoRulesStringifyJsonb | myrad-miniapp/backend/dbStorage.js:508-692 | every Zomato column that `processValue` treats as JSONB is filled by a `JSON.stringify` rule |
| ColumnRules.BaseJsonbColumns | myrad-miniapp/backend/dbStorage.js:724-730 | among the base columns, only `data`, `sellable_data` and `behavioral_insights` are JSONB |
| ColumnRules.GithubLayoutValid | myrad-miniapp/backend/dbStorage.js:258-324 | the GitHub columns are pairwise different, none is a base column, and each JSONB one is stringified |
| ColumnRules.NetflixLayoutValid | myrad-miniapp/backend/dbStorage.js:327-505 | the Netflix columns are pairwise different, none is a base column, and each JSONB one is stringified |
| ColumnRules.ZomatoLayoutValid | myrad-miniapp/backend/dbStorage.js:508-692 | the Zomato columns are pairwise different, none is a base column, and each JSONB one is stringified |
| DbStorage.TableLayout | myrad-miniapp/backend/dbStorage.js:258-692 | each table's own columns, with their rules, form a valid layout |
| DbStorage.TableLayoutsValid | myrad-miniapp/backend/dbStorage.js:258-692 | the layouts of all three tables are valid |
| DbStorage.ContributionTypeHasTable | myrad-miniapp/backend/dbStorage.js:8-13 | with `dataType \|\| 'general'`, only a stated data type can name one of the three tables |
| DbStorage.GetTableName | myrad-miniapp/backend/dbStorage.js:8-13 | succeeds exactly for the three data types, each naming its own table |
| DbStorage.TableNameRoundTrip | myrad-miniapp/backend/dbStorage.js:8-13 | each table is found from its own data type, and the `general` default is rejected |
| DbStorage.FirstTruthy | myrad-miniapp/backend/dbStorage.js:258-320 | an `a \|\| b \|\| … \|\| fallback` rule gives the first truthy path's value, else the fallback |
| DbStorage.Candidates | myrad-miniapp/backend/dbStorage.js:206-692 | for any aligned layout, the candidate columns are the base ones, then the layout's own exactly when the sellable data is truthy |
| DbStorage.Assemble | myrad-miniapp/backend/dbStorage.js:206-692 | column and value lists have equal length; every column exists; each pair is a candidate pair |
| DbStorage.AssembledColumns | myrad-miniapp/backend/dbStorage.js:206-692 | the pushed columns are the candidate columns the table has, in push order |
| DbStorage.NoTableColumnsWithoutSellableData | myrad-miniapp/backend/dbStorage.js:258-693 | without truthy sellable data, only base columns are pushed |
| DbStorage.AssembledColumnsDistinct | myrad-miniapp/backend/dbStorage.js:206-692 | no column is pushed twice |
| DbStorage.CandidateColumnsDistinct | myrad-miniapp/backend/dbStorage.js:206-692 | for a valid layout, the base columns and the layout's own columns are pairwise different |
| DbStorage.ProcessValue | myrad-miniapp/backend/dbStorage.js:722-741 | non-JSONB values pass unchanged; a falsy JSONB value becomes null, or `{}` for `sellable_data`; a JSONB value fails exactly when it is text that `JSON.parse` rejects |
| DbStorage.ProcessStringified | myrad-miniapp/backend/dbStorage.js:722-741 | stringifying then processing gives back the document, or null (`{}` for `sellable_data`) when it was falsy |
| DbStorage.ProcessAll | myrad-miniapp/backend/dbStorage.js:820-876 | all values process iff each one does, and then each processed value is its own `processValue` |
| DbStorage.CastsAreJsonb | myrad-miniapp/backend/dbStorage.js:811-869 | every column given a `::jsonb` placeholder is one that `processValue` turns into a document |
| DbStorage.CastPlaceholders | myrad-miniapp/backend/dbStorage.js:811-869 | one placeholder per column: `$i+1`, with `::jsonb` exactly when the column is in the cast list |
| DbStorage.AddContribution | myrad-miniapp/backend/dbStorage.js:194-902 | fails iff the data type has no table, with the message `getTableName` throws; otherwise the INSERT targets that table, and the points are 20 iff the data is large, else 10 |
| DbStorage.AddContributionWith | myrad-miniapp/backend/dbStorage.js:194-902 | the same table choice, error and points for any valid per-table layouts |
| DbStorage.AddContributionUsesLayout | myrad-miniapp/backend/dbStorage.js:194-258 | a successful call is the insert into its table, laid out by that table's own column rules |
| DbStorage.AddToTable | myrad-miniapp/backend/dbStorage.js:206-902 | for a valid layout: the INSERT targets the table; columns are distinct, existing and aligned with values and placeholders; points are 20 iff large, else 10; the record is verified with a truthy processing method; the `sellable_data` value is the document or `{}`, never null |
| DbStorage.ContributionInsert | myrad-miniapp/backend/dbStorage.js:744-878 | the INSERT targets the table, keeps the assembled columns, and holds each column's processed value |
| DbStorage.ProcessingSucceeds | myrad-miniapp/backend/dbStorage.js:722-741 | values that need no parsing never make `processValue` throw |
| DbStorage.ContributionRecord | myrad-miniapp/backend/dbStorage.js:881-893 | the returned record is verified, has a truthy processing method, and has null sellable data iff none was given |
| DbStorage.AssembledNeedsNoParsing | myrad-miniapp/backend/dbStorage.js:206-741 | assembly never puts raw text in a JSONB column, so processing cannot throw |
| DbStorage.SellableAssembled | myrad-miniapp/backend/dbStorage.js:227-231 | when the table has `sellable_data`, it is assembled with the stringified sellable data or `{}` |
| DbStorage.ParseCount | myrad-miniapp/backend/dbStorage.js:150-152 | a missing count is 0; a present one is `parseInt(count, 10)` |
| DbStorage.GetCohortSize | myrad-miniapp/backend/dbStorage.js:142-159 | a failed query gives 0; otherwise the size is NaN iff one of the three counts does not parse |
| DbStorage.CohortSizeIsSum | myrad-miniapp/backend/dbStorage.js:150-152 | decimal counts add up exactly, and missing rows count as 0 |
| DbStorage.AddRow | myrad-miniapp/backend/dbStorage.js:176-181 | a row with a falsy cohort ID is skipped; otherwise only its cohort's entry changes |
| DbStorage.MergeCounts | myrad-miniapp/backend/dbStorage.js:174-182 | the keys are exactly the truthy cohort IDs of the rows |
| DbStorage.GetCohortSizes | myrad-miniapp/backend/dbStorage.js:164-188 | a failed query gives `{}`; otherwise the keys are the truthy IDs across all three tables |
| DbStorage.MergeCountsSums | myrad-miniapp/backend/dbStorage.js:174-182 | when every count parses, each cohort's size is the sum of its rows' counts |
| DbStorage.Put | myrad-miniapp/backend/dbStorage.js:108-120 | setting a property changes that property only, and an undefined value sets nothing |
| DbStorage.MapRow | myrad-miniapp/backend/dbStorage.js:108-120 | the row's own columns win every clash; `dataType` is the table's type unless the row has one; `createdAt` comes from `created_at` |
| DbStorage.GetUserContributions | myrad-miniapp/backend/dbStorage.js:100-134 | a failed query gives `[]`; otherwise a permutation of the three tables' mapped rows, sorted newest first |
| DbStorage.UserContributionsStable | myrad-miniapp/backend/dbStorage.js:123-129 | rows with equal `createdAt` keep their merge order, so the first match a scan finds is fixed by the rows |
| Sorting.Insert | myrad-miniapp/backend/dbStorage.js:129 | insertion adds exactly one element, as a multiset |
| Sorting.InsertSorted | myrad-miniapp/backend/dbStorage.js:129 | inserting into a sorted sequence keeps it sorted |
| Sorting.InsertStable | myrad-miniapp/backend/dbStorage.js:129 | insertion appends to the run of its key and leaves every other run alone |
| Sorting.Sort | myrad-miniapp/backend/dbStorage.js:129 | the result is a permutation of the input, sorted by descending key |
| Sorting.SortStable | myrad-miniapp/backend/dbStorage.js:129 | elements of equal key keep their original order |
| MvpRoutes.WalletOf | myrad-miniapp/backend/mvpRoutes.js:194-207 | a token starting with `0x` (and neither prefix) is its own address; no address iff the token has none of the three prefixes |
| MvpRoutes.BearerToken | myrad-miniapp/backend/mvpRoutes.js:191 | the token of a bearer header contains no space |
| MvpRoutes.VerifyWalletToken | myrad-miniapp/backend/mvpRoutes.js:186-211 | "missing token" iff the header is absent or lacks `Bearer `; with the prefix, the token is accepted iff it names a wallet starting with `0x`, and that wallet is the verified address; every other failure is "invalid format" |
| MvpRoutes.HeaderToken | myrad-miniapp/backend/mvpRoutes.js:187-191 | a space-free token after `Bearer ` is read back as the token |
| MvpRoutes.PrivyPiece | myrad-miniapp/backend/mvpRoutes.js:200-203 | a `privy_` token names the piece before its next underscore |
| MvpRoutes.PrivyTokenRoundTrip | myrad-miniapp/src/services/api.ts:8-10 | the client's `privy_${w}_user` token verifies to `w`, for an address without `_` or space |
| MvpRoutes.WalletTokenRoundTrip | myrad-miniapp/backend/mvpRoutes.js:197-199 | a `wallet_` token verifies to the rest of the token, underscores included |
| MvpRoutes.PrivyTokenTruncates | myrad-miniapp/backend/mvpRoutes.js:200-203 | a privy token whose address holds `_` verifies only to the part before it |
| MvpRoutes.SetUsername | myrad-miniapp/backend/mvpRoutes.js:246-261 | set iff the user exists, the name is valid and free, and then to that name; 404 iff there is no such user; too short iff the user exists and the name is missing or shorter than 3; bad characters iff the user exists and the name is long enough but has a non-word character; 409 iff the user exists and the name is valid but taken |
| MvpRoutes.UsernameCharacters | myrad-miniapp/backend/mvpRoutes.js:254 | the pattern test is the same as finding no character outside `[A-Za-z0-9_]` |
| MvpRoutes.DuplicateProof | myrad-miniapp/backend/mvpRoutes.js:410-412 | a match exists iff the proof ID is truthy and some contribution carries a strictly equal one; the match is the first such contribution, as `.find` returns |
| MvpRoutes.OrZero | myrad-miniapp/backend/mvpRoutes.js:431-433 | `v \|\| 0` gives the value when truthy, else 0 |
| MvpRoutes.SimilarRecent | myrad-miniapp/backend/mvpRoutes.js:425-436 | the match is the first contribution that is both recent (same type, under 24 hours old) and similar (order count within 2); none iff no contribution is both |
| MvpRoutes.RecentAndSimilarMeans | myrad-miniapp/backend/mvpRoutes.js:425-436 | the combined filter holds iff the type is strictly equal, the age is under a day and the order counts are similar |
| MvpRoutes.SimilarOrderCounts | myrad-miniapp/backend/mvpRoutes.js:431-435 | order counts are similar iff they differ by less than 3, with a missing count read as 0 |
| MvpRoutes.CheckDuplicates | myrad-miniapp/backend/mvpRoutes.js:410-445 | 409 iff the proof is a duplicate, naming the first matching contribution's ID; 429 iff not and a similar recent one exists, retrying a day after the first such one's creation |
| MvpRoutes.RepeatedProofRefused | myrad-miniapp/backend/mvpRoutes.js:410-422 | a stored primitive proof ID refuses the submission with 409, whatever its content |
| MvpRoutes.IsLargeData | myrad-miniapp/backend/mvpRoutes.js:523-542 | only the three table types can be large |
| MvpRoutes.RawOrdersDecideZomato | myrad-miniapp/backend/mvpRoutes.js:523-537 | without a summary count, a Zomato submission is large iff it has more than 10 raw orders |
| MvpRoutes.SummaryCountDecidesZomato | myrad-miniapp/backend/mvpRoutes.js:523-537 | a truthy summary count alone decides a Zomato submission |
| MvpRoutes.TitleCountDecidesNetflix | myrad-miniapp/backend/mvpRoutes.js:523-540 | a truthy title count alone decides a Netflix submission: large iff above 20 |
| MvpRoutes.WatchHistoryDecidesNetflix | myrad-miniapp/backend/mvpRoutes.js:523-540 | without a title count, a Netflix submission is large iff its raw watch history has more than 20 entries |
| MvpRoutes.YearlyCountDecidesGithub | myrad-miniapp/backend/mvpRoutes.js:526-539 | a truthy yearly contribution count from the pipeline decides a GitHub submission alone: large iff it is above 50 |
| MvpRoutes.ContributionTextDecidesGithub | myrad-miniapp/backend/mvpRoutes.js:526-539 | without a yearly count, a GitHub submission whose `contributionsLastYear` is `n` in decimal is large iff `n > 50` |
| MvpRoutes.IntakeLeague | myrad-miniapp/backend/mvpRoutes.js:560-565 | Gold iff the total is at least 100, Bronze iff below 50, never above Gold |
| MvpRoutes.IntakeLeagueMonotone | myrad-miniapp/backend/mvpRoutes.js:565 | more points never give a lower intake league |
| MvpRoutes.IntakeLeagueVersusLadder | myrad-miniapp/backend/mvpRoutes.js:565 | the intake league is at least the five-tier one iff the total is below 2000; at 100 points they already differ |
| MvpRoutes.ProcessingMethodTag | myrad-miniapp/backend/mvpRoutes.js:551 | `enterprise_pipeline` iff sellable data is truthy, else `raw` |
| MvpRoutes.AggregationStatus | myrad-miniapp/backend/mvpRoutes.js:598 | `sellable` iff compliant, else `pending_more_contributors` |
| MvpRoutes.MergeStatus | myrad-miniapp/backend/mvpRoutes.js:594-599 | the status block keeps every old property and sets compliance, size and `aggregation_status` |
| MvpRoutes.WithPrivacyStatus | myrad-miniapp/backend/mvpRoutes.js:589-601 | the record gains or replaces `metadata` only; `metadata` gains or replaces `privacy_compliance` only; that block is the merged status; everything else is copied |
| MvpRoutes.PrivacyStatusMerged | myrad-miniapp/backend/mvpRoutes.js:589-601 | the rewritten record carries the new status, compliance and size, and every other top-level property is unchanged |
| MvpRoutes.KAnonymityStep | myrad-miniapp/backend/mvpRoutes.js:570-601 | a falsy segment ID changes nothing (size 0, compliance null); a truthy one always gets a verdict and puts its cohort in the registry; the verdict is `size >= 10`; a rewrite needs a verdict and a privacy block |
| MvpRoutes.SellableOnceCohortIsLarge | myrad-miniapp/backend/mvpRoutes.js:570-601 | the size grows by one, and the rewritten record says `sellable` iff the new count reaches 10 |
| MvpRoutes.IntOr | myrad-miniapp/backend/mvpRoutes.js:792-793 | a missing parameter gives the fallback; a value that parses to non-zero is used |
| MvpRoutes.SliceBound | myrad-miniapp/backend/mvpRoutes.js:794 | a slice bound is clamped into the sequence, and one already inside is kept |
| MvpRoutes.Slice | myrad-miniapp/backend/mvpRoutes.js:794 | the slice is a contiguous run of the sequence, at most `end - start` long for `0 <= start <= end` |
| MvpRoutes.EnterpriseData | myrad-miniapp/backend/mvpRoutes.js:780-801 | total is the filtered count; items come from the filtered rows; defaults are offset 0 and limit 100; the page holds at most `limit` items when offset and limit are non-negative |
| MvpRoutes.EnterpriseDataWindow | myrad-miniapp/backend/mvpRoutes.js:792-801 | decimal parameters give the window `[offset, offset + limit)` cut at the end |
| MvpRoutes.NegativeLimitCountsFromEnd | myrad-miniapp/backend/mvpRoutes.js:792-801 | `limit=-n`, for `1 <= n <=` the row count, returns every row but the last `n` and reports limit `-n`, so the "at most limit" bound needs a non-negative limit |
| MvpRoutes.Prepare | myrad-miniapp/backend/mvpRoutes.js:448-517 | without a pipeline result, or for another data type, storage gets null sellable data, the raw data and null insights; only Zomato keeps insights |
| MvpRoutes.Contribute | myrad-miniapp/backend/mvpRoutes.js:385-446 | for any valid per-table layouts: 404 iff no user; 400 iff falsy data; rejected iff the duplicate checks say so, with their answer; an accepted submission repeats no earlier proof |
| MvpRoutes.Admit | myrad-miniapp/backend/mvpRoutes.js:556-620 | the new total is the old total (0 when unset) plus the awarded points; the league is the intake league of that total; a stored-record rewrite happens iff the k-anonymity step rewrote the sellable data, and it targets the inserted row's table and ID |
| MvpRoutes.Store | myrad-miniapp/backend/mvpRoutes.js:521-620 | for any valid per-table layouts: accepted iff the data type has a table; the points are 20 iff large; the total is the old total plus the points; the league is the intake league; the sellable rewrite targets the stored row's table and ID |
| MvpRoutes.ResubmissionRefused | myrad-miniapp/backend/mvpRoutes.js:410-422 | for any valid per-table layouts, resubmitting a stored proof is refused with 409, naming the stored contribution |

## Left out

- File reads and writes of `cohorts.json` and `consent_ledger.json`. Each store is a value passed in and out. A read failure that degrades to `{}` or `[]` is the caller passing an empty store.
- Concurrency: the services are synchronous, and there is no locking to reason about.
- SHA-256, the salt's environment variable, `crypto.randomBytes`, `Date.now` and `new Date()`. They are a `Hasher` (an uninterpreted digest plus a salt), IDs, and times in epoch milliseconds passed as parameters.
- ISO date formatting (`toISOString`). Times stay numbers; `retryAfter` is a number of milliseconds.
- NaN and invalid dates in date arithmetic. The date parser `time` returns an integer for every value.
- The Ajv compilation and the schema file. The compiled validator is a function parameter.
- `average_cohort_size` in `getCohortStats`: it is floating-point rounding.
- `JSON.stringify` text. `JsonText(doc)` stands for the text, and `JSON.parse` of that text is taken to give `doc` back.
- `String(v)` for non-strings is the `toText` parameter. `Number(v)` for non-numbers is the `toNumber` parameter.
- The casing functions are ASCII-only; `toLowerCase` of non-ASCII letters is not modelled.
- Object keys that collide with prototype properties are not modelled, nor the key order of objects.
- All SQL execution, the pg pool, the Neon client, DDL and `getTableColumns`. Rows and existing columns are inputs; queries are structured values.
- `getContributions`, `saveContributions` and `getAllAnonymizedData` of dbStorage.js: they only run queries. Their rows are inputs here.
- The three data pipelines. Their result, or its absence when a pipeline fails, is the `pipeline` parameter of `MvpRoutes.Contribute`.
- The Reclaim callback and its pending-contributions map, the contact form, the leaderboard and the user store behind `jsonStorage`. This includes the wallet-address update and the activity timestamp in `/contribute`.
- The consent entry that `/contribute` logs is not reassembled here. `ConsentLedger.LogConsent` models the log itself.
- Query parameters and body fields are strings or absent; arrays or numbers in their place are not modelled.
- DbStorage.MapRow: a camelCase copy whose value is undefined is left out of the row rather than kept as an undefined property. The two read the same.
- DbStorage.GetCohortSize: `/contribute` calls it and then overwrites its result with the counter's count. The model of that route therefore uses only the counter.
- ColumnRules.GithubRuleList: `follower_count` is `anon?.followers || parseInt(anon?.followers || '0', 10)`, written as `anon?.followers || 0`. When the first operand is falsy, the `parseInt` reads `'0'`.
- MvpRoutes.Store: the column layout of each table is a parameter that must be valid (distinct columns, none a base column, JSONB columns stringified). The source's layouts are `DbStorage.TableLayout`, which `DbStorage.TableLayoutsValid` shows valid, and `DbStorage.AddContributionUsesLayout` ties `DbStorage.AddContribution` to them. The same holds for `MvpRoutes.Contribute` and `MvpRoutes.ResubmissionRefused`.
- MvpRoutes.Contribute: the handler reads the user's contributions twice; the model takes one list for both checks. That list is taken as given rather than computed by `DbStorage.GetUserContributions`.
- MvpRoutes.WithPrivacyStatus: spreading a privacy block that is a string or an array copies its indices; the model copies only an object's properties.
- MvpRoutes.IsLargeData: its contract states only which types can be large. The per-type thresholds are stated by the six lemmas after it, for the inputs they name.
- Cohort IDs are not unique: the city, spend and frequency parts may themselves contain `_` (`CohortService.CohortIdCollision`).
