/**
 * The table-specific columns `addContribution` may push, each with the rule that computes
 * its value from the submitted data, and the facts about those lists that the rest of the
 * model relies on: the names are distinct, none is a base column, and every JSONB column is
 * filled by `JSON.stringify`.
 */
module ColumnRules {
  import Seqs
  import opened Json
  import DbHelpers

  /** Where an optional-chaining path starts: `sd` (the sellable data) or `data.anonymizedData`. */
  datatype Root = Sellable | Anonymized

  datatype Path = Path(root: Root, keys: seq<string>)

  /** How a table-specific column's value is computed from the submitted data. */
  datatype Rule =
    | FirstOf(paths: seq<Path>, fallback: Json)  // `p1 || p2 || … || fallback`
    | StringifyAt(path: Path)                    // `p ? JSON.stringify(p) : null`
    | YearlyOrParsed                             // the `contribution_count` rule

  function S(keys: seq<string>): Path { Path(Sellable, keys) }

  /** `sd?.k1?.k2 || null` and its variants with more fallbacks. */
  function OrNullRule(paths: seq<Path>): Rule { FirstOf(paths, Null) }

  /** `sd?.k1?.k2 || false`. */
  function OrFalseRule(paths: seq<Path>): Rule { FirstOf(paths, Bool(false)) }

  /** A column always written as `null`. */
  const NullRule: Rule := FirstOf([], Null)

  /**
   * GitHub columns. `follower_count` is `anon?.followers || parseInt(anon?.followers || '0', 10)`:
   * when the first operand is falsy the argument of `parseInt` is `'0'`, so the rule is
   * `anon?.followers || 0`.
   */
  const GithubColumns: seq<string> := [
    "follower_count", "contribution_count", "developer_tier", "follower_tier", "activity_level",
    "is_influencer", "is_active_contributor", "data_quality_score", "cohort_id", "metadata"]

  /** The rules of `GithubColumns`, index by index. */
  const GithubRuleList: seq<Rule> := [
    FirstOf([Path(Anonymized, ["followers"])], Num(0.0)),
    YearlyOrParsed,
    OrNullRule([S(["developer_profile", "tier"])]),
    OrNullRule([S(["social_metrics", "follower_tier"])]),
    OrNullRule([S(["activity_metrics", "activity_level"])]),
    OrFalseRule([S(["social_metrics", "is_influencer"])]),
    OrFalseRule([S(["activity_metrics", "is_active_contributor"])]),
    OrNullRule([S(["metadata", "data_quality", "score"])]),
    OrNullRule([S(["audience_segment", "segment_id"])]),
    StringifyAt(S(["metadata"]))]

  /** Netflix columns. */
  const NetflixColumns: seq<string> := [
    "total_titles_watched", "total_watch_hours", "binge_score", "engagement_tier", "top_genres",
    "genre_diversity_score", "dominant_content_type", "primary_language", "peak_viewing_day",
    "peak_viewing_time", "late_night_viewer", "is_binge_watcher", "day_of_week_distribution",
    "time_of_day_curve", "subscription_tier", "account_age_years", "member_since_year",
    "loyalty_tier", "churn_risk", "kids_content_pct", "mature_content_pct", "primary_audience",
    "segment_id", "cohort_id", "data_quality_score", "movies_watched", "top_series", "metadata"]

  /** The rules of `NetflixColumns`, index by index. */
  const NetflixRuleList: seq<Rule> := [
    OrNullRule([S(["viewing_summary", "total_titles_watched"]), S(["user_profile", "total_titles_watched"])]),
    OrNullRule([S(["viewing_summary", "total_watch_hours"])]),
    OrNullRule([S(["viewing_behavior", "binge_score"])]),
    OrNullRule([S(["viewing_summary", "engagement_tier"])]),
    StringifyAt(S(["content_preferences", "top_genres"])),
    OrNullRule([S(["content_preferences", "genre_diversity_score"])]),
    OrNullRule([S(["content_preferences", "content_type_preference"]),
                S(["content_catalog", "content_type_breakdown", "dominant_type"])]),
    NullRule,
    OrNullRule([S(["viewing_behavior", "peak_viewing_day"])]),
    OrNullRule([S(["viewing_behavior", "peak_viewing_time"])]),
    OrFalseRule([S(["viewing_behavior", "late_night_viewer"])]),
    OrFalseRule([S(["viewing_behavior", "is_binge_watcher"])]),
    StringifyAt(S(["viewing_behavior", "day_of_week_distribution"])),
    StringifyAt(S(["viewing_behavior", "time_of_day_curve"])),
    OrNullRule([S(["subscription_data", "tier"])]),
    NullRule,
    NullRule,
    OrNullRule([S(["subscription_data", "loyalty_tier"])]),
    OrNullRule([S(["subscription_data", "churn_risk"])]),
    NullRule,
    NullRule,
    NullRule,
    OrNullRule([S(["audience_segment", "segment_id"])]),
    OrNullRule([S(["audience_segment", "segment_id"]), S(["metadata", "privacy_compliance", "cohort_id"])]),
    OrNullRule([S(["metadata", "data_quality", "score"])]),
    StringifyAt(S(["content_catalog", "movies_watched"])),
    StringifyAt(S(["content_catalog", "top_series"])),
    StringifyAt(S(["metadata"]))]

  /** Zomato columns. */
  const ZomatoColumns: seq<string> := [
    "total_orders", "total_gmv", "avg_order_value", "frequency_tier", "lifestyle_segment",
    "city_cluster", "data_quality_score", "cohort_id", "top_cuisines", "top_brands", "segment_id",
    "chain_vs_local_preference", "day_of_week_distribution", "time_of_day_curve",
    "peak_ordering_day", "peak_ordering_time", "late_night_eater", "price_bucket_distribution",
    "dominant_price_segment", "discount_usage_rate", "offer_dependent", "premium_vs_budget_ratio",
    "frequent_dishes", "favorite_restaurants", "competitor_mapping", "repeat_baskets", "geo_data",
    "metadata"]

  /** The rules of `ZomatoColumns`, index by index. */
  const ZomatoRuleList: seq<Rule> := [
    OrNullRule([S(["transaction_data", "summary", "total_orders"])]),
    OrNullRule([S(["transaction_data", "summary", "total_gmv"])]),
    OrNullRule([S(["transaction_data", "summary", "avg_order_value"])]),
    OrNullRule([S(["transaction_data", "frequency_metrics", "frequency_tier"])]),
    OrNullRule([S(["audience_segment", "dmp_attributes", "lifestyle_segment"]), S(["consumer_profile", "spend_tier"])]),
    OrNullRule([S(["geo_data", "city_cluster"])]),
    OrNullRule([S(["metadata", "data_quality", "score"])]),
    OrNullRule([S(["audience_segment", "segment_id"]), S(["metadata", "privacy_compliance", "cohort_id"])]),
    StringifyAt(S(["audience_segment", "dmp_attributes", "interest_cuisine_types"])),
    StringifyAt(S(["brand_intelligence", "top_brands"])),
    OrNullRule([S(["audience_segment", "segment_id"])]),
    OrNullRule([S(["brand_intelligence", "chain_vs_local_preference"])]),
    StringifyAt(S(["temporal_behavior", "day_of_week_distribution"])),
    StringifyAt(S(["temporal_behavior", "time_of_day_curve"])),
    OrNullRule([S(["temporal_behavior", "peak_ordering_day"]),
                S(["consumer_profile", "timing_preferences", "peak_order_day"])]),
    OrNullRule([S(["temporal_behavior", "peak_ordering_time"]),
                S(["consumer_profile", "timing_preferences", "peak_order_time"])]),
    OrFalseRule([S(["temporal_behavior", "late_night_eater"]), S(["behavioral_traits", "late_night_eater"])]),
    StringifyAt(S(["price_sensitivity", "price_bucket_distribution"])),
    OrNullRule([S(["price_sensitivity", "dominant_price_segment"])]),
    OrNullRule([S(["price_sensitivity", "discount_usage_rate"])]),
    OrFalseRule([S(["price_sensitivity", "offer_dependent"])]),
    OrNullRule([S(["price_sensitivity", "premium_vs_budget_ratio"])]),
    StringifyAt(S(["repeat_patterns", "frequent_dishes"])),
    StringifyAt(S(["repeat_patterns", "favorite_restaurants"])),
    StringifyAt(S(["competitor_mapping"])),
    StringifyAt(S(["basket_intelligence", "repeat_baskets"])),
    StringifyAt(S(["geo_data"])),
    StringifyAt(S(["metadata"]))]


  /** The columns `processValue` treats as JSON documents. */
  const JsonbColumns: seq<string> := [
    "data", "sellable_data", "behavioral_insights", "metadata",
    "top_genres", "day_of_week_distribution", "time_of_day_curve",
    "movies_watched", "top_series",
    "top_cuisines", "top_brands", "price_bucket_distribution",
    "frequent_dishes", "favorite_restaurants", "competitor_mapping",
    "repeat_baskets", "geo_data"]

  /** No element of `cols` occurs in `others`. */
  predicate NoneAmong(cols: seq<string>, others: seq<string>)
  {
    forall j :: 0 <= j < |cols| ==> cols[j] !in others
  }

  /** Every JSONB column among `cols` is filled by a `JSON.stringify` rule. */
  predicate StringifiesJsonb(cols: seq<string>, rules: seq<Rule>)
    requires |cols| == |rules|
  {
    forall j :: 0 <= j < |cols| && cols[j] in JsonbColumns ==> rules[j].StringifyAt?
  }

  /** A table's own columns, each with the rule that fills it. */
  datatype Layout = Layout(columns: seq<string>, rules: seq<Rule>)

  /** One rule per column. */
  predicate Aligned(l: Layout)
  {
    |l.columns| == |l.rules|
  }

  /**
   * What `addContribution` relies on of a table's columns: one rule per column, no column
   * named twice, none that is also a base column, and every JSONB column filled by
   * `JSON.stringify`.
   */
  predicate ValidLayout(l: Layout)
  {
    && Aligned(l)
    && Seqs.Distinct(l.columns)
    && NoneAmong(l.columns, DbHelpers.InsertColumns)
    && StringifiesJsonb(l.columns, l.rules)
  }

  // ---------------------------------------------------------------------------
  // Facts about the lists

  lemma GithubColumnsDistinct()
    ensures Seqs.Distinct(GithubColumns)
  {
  }

  /** The 28 Netflix columns are distinct: within each half, and across the halves. */
  lemma NetflixColumnsDistinct()
    ensures Seqs.Distinct(NetflixColumns)
  {
    NetflixLowerDistinct();
    NetflixUpperDistinct();
    NetflixHalvesApart();
  }

  lemma NetflixLowerDistinct()
    ensures forall i, j :: 0 <= i < j < 14 ==> NetflixColumns[i] != NetflixColumns[j]
  {
  }

  lemma NetflixUpperDistinct()
    ensures forall i, j :: 14 <= i < j < 28 ==> NetflixColumns[i] != NetflixColumns[j]
  {
  }

  lemma NetflixHalvesApart()
    ensures forall i, j :: 0 <= i < 14 && 14 <= j < 28 ==> NetflixColumns[i] != NetflixColumns[j]
  {
  }

  /** The 28 Zomato columns are distinct: within each half, and across the halves. */
  lemma ZomatoColumnsDistinct()
    ensures Seqs.Distinct(ZomatoColumns)
  {
    ZomatoLowerDistinct();
    ZomatoUpperDistinct();
    ZomatoHalvesApart();
  }

  lemma ZomatoLowerDistinct()
    ensures forall i, j :: 0 <= i < j < 14 ==> ZomatoColumns[i] != ZomatoColumns[j]
  {
  }

  lemma ZomatoUpperDistinct()
    ensures forall i, j :: 14 <= i < j < 28 ==> ZomatoColumns[i] != ZomatoColumns[j]
  {
  }

  lemma ZomatoHalvesApart()
    ensures forall i, j :: 0 <= i < 14 && 14 <= j < 28 ==> ZomatoColumns[i] != ZomatoColumns[j]
  {
  }

  /** No GitHub column is a base column. */
  lemma GithubNotBase()
    ensures NoneAmong(GithubColumns, DbHelpers.InsertColumns)
  {
  }

  /** No Netflix column is a base column, checked a quarter at a time. */
  lemma NetflixNotBase()
    ensures NoneAmong(NetflixColumns, DbHelpers.InsertColumns)
  {
    NetflixFirstNotBase();
    NetflixSecondNotBase();
    NetflixThirdNotBase();
    NetflixFourthNotBase();
  }

  lemma NetflixFirstNotBase()
    ensures forall j :: 0 <= j < 7 ==> NetflixColumns[j] !in DbHelpers.InsertColumns
  {
  }

  lemma NetflixSecondNotBase()
    ensures forall j :: 7 <= j < 14 ==> NetflixColumns[j] !in DbHelpers.InsertColumns
  {
  }

  lemma NetflixThirdNotBase()
    ensures forall j :: 14 <= j < 21 ==> NetflixColumns[j] !in DbHelpers.InsertColumns
  {
  }

  lemma NetflixFourthNotBase()
    ensures forall j :: 21 <= j < 28 ==> NetflixColumns[j] !in DbHelpers.InsertColumns
  {
  }

  /** No Zomato column is a base column, checked a quarter at a time. */
  lemma ZomatoNotBase()
    ensures NoneAmong(ZomatoColumns, DbHelpers.InsertColumns)
  {
    ZomatoFirstNotBase();
    ZomatoSecondNotBase();
    ZomatoThirdNotBase();
    ZomatoFourthNotBase();
  }

  lemma ZomatoFirstNotBase()
    ensures forall j :: 0 <= j < 7 ==> ZomatoColumns[j] !in DbHelpers.InsertColumns
  {
  }

  lemma ZomatoSecondNotBase()
    ensures forall j :: 7 <= j < 14 ==> ZomatoColumns[j] !in DbHelpers.InsertColumns
  {
  }

  lemma ZomatoThirdNotBase()
    ensures forall j :: 14 <= j < 21 ==> ZomatoColumns[j] !in DbHelpers.InsertColumns
  {
  }

  lemma ZomatoFourthNotBase()
    ensures forall j :: 21 <= j < 28 ==> ZomatoColumns[j] !in DbHelpers.InsertColumns
  {
  }

  lemma GithubRulesStringifyJsonb()
    ensures StringifiesJsonb(GithubColumns, GithubRuleList)
  {
  }

  lemma NetflixRulesStringifyJsonb()
    ensures StringifiesJsonb(NetflixColumns, NetflixRuleList)
  {
    NetflixFirstRules();
    NetflixSecondRules();
    NetflixThirdRules();
    NetflixFourthRules();
  }

  lemma NetflixFirstRules()
    ensures forall j :: 0 <= j < 7 && NetflixColumns[j] in JsonbColumns ==> NetflixRuleList[j].StringifyAt?
  {
  }

  lemma NetflixSecondRules()
    ensures forall j :: 7 <= j < 14 && NetflixColumns[j] in JsonbColumns ==> NetflixRuleList[j].StringifyAt?
  {
  }

  lemma NetflixThirdRules()
    ensures forall j :: 14 <= j < 21 && NetflixColumns[j] in JsonbColumns ==> NetflixRuleList[j].StringifyAt?
  {
  }

  lemma NetflixFourthRules()
    ensures forall j :: 21 <= j < 28 && NetflixColumns[j] in JsonbColumns ==> NetflixRuleList[j].StringifyAt?
  {
  }

  lemma ZomatoRulesStringifyJsonb()
    ensures StringifiesJsonb(ZomatoColumns, ZomatoRuleList)
  {
    ZomatoFirstRules();
    ZomatoSecondRules();
    ZomatoThirdRules();
    ZomatoFourthRules();
  }

  lemma ZomatoFirstRules()
    ensures forall j :: 0 <= j < 7 && ZomatoColumns[j] in JsonbColumns ==> ZomatoRuleList[j].StringifyAt?
  {
  }

  lemma ZomatoSecondRules()
    ensures forall j :: 7 <= j < 14 && ZomatoColumns[j] in JsonbColumns ==> ZomatoRuleList[j].StringifyAt?
  {
  }

  lemma ZomatoThirdRules()
    ensures forall j :: 14 <= j < 21 && ZomatoColumns[j] in JsonbColumns ==> ZomatoRuleList[j].StringifyAt?
  {
  }

  lemma ZomatoFourthRules()
    ensures forall j :: 21 <= j < 28 && ZomatoColumns[j] in JsonbColumns ==> ZomatoRuleList[j].StringifyAt?
  {
  }

  /** The only JSONB base columns are `data`, `sellable_data` and `behavioral_insights`. */
  lemma BaseJsonbColumns()
    ensures forall k :: 0 <= k < |DbHelpers.InsertColumns| && DbHelpers.InsertColumns[k] in JsonbColumns ==>
              k == DbHelpers.DataIndex || k == DbHelpers.SellableIndex || k == DbHelpers.InsightsIndex
  {
  }

  lemma GithubLayoutValid()
    ensures ValidLayout(Layout(GithubColumns, GithubRuleList))
  {
    GithubColumnsDistinct();
    GithubNotBase();
    GithubRulesStringifyJsonb();
  }

  lemma NetflixLayoutValid()
    ensures ValidLayout(Layout(NetflixColumns, NetflixRuleList))
  {
    NetflixColumnsDistinct();
    NetflixNotBase();
    NetflixRulesStringifyJsonb();
  }

  lemma ZomatoLayoutValid()
    ensures ValidLayout(Layout(ZomatoColumns, ZomatoRuleList))
  {
    ZomatoColumnsDistinct();
    ZomatoNotBase();
    ZomatoRulesStringifyJsonb();
  }
}
