/**
 * The k-anonymity cohort registry of `cohortService.js`: deterministic cohort IDs, a map
 * from cohort ID to a membership record, the increment that keeps the compliance flag in
 * step with the count, and the read-side queries and statistics.
 */
module CohortService {
  import opened Wrappers
  import Text
  import Counters

  /** The k-anonymity threshold K. */
  const K_THRESHOLD: nat := 10

  /**
   * One entry of `cohorts.json`. Times are epoch milliseconds; `firstCompliantAt` is `None`
   * while the stored value is `null`.
   */
  datatype CohortRecord = CohortRecord(
    count: int,
    createdAt: int,
    lastUpdated: int,
    compliant: bool,
    firstCompliantAt: Option<int>)

  /** The whole registry, keyed by cohort ID. */
  type Registry = map<string, CohortRecord>

  // ---------------------------------------------------------------------------
  // Cohort IDs

  /** Placeholder for an absent platform, spend tier or frequency tier. */
  const UnknownToken: string := "unknown"

  /** Placeholder for an absent city cluster. */
  const UnknownRegion: string := "unknown_region"

  /** Platform component: lower-cased, only `[a-z0-9]` kept. */
  function NormalizePlatform(platform: Option<string>): (r: string)
    ensures forall i :: 0 <= i < |r| ==> Text.IsLowerAlnum(r[i])
    ensures '_' !in r
  {
    Text.Keep(Text.Lower(Text.OrDefault(platform, UnknownToken)), Text.IsLowerAlnum)
  }

  /** City-cluster component: lower-cased, only `[a-z0-9_]` kept. */
  function NormalizeCity(city: Option<string>): (r: string)
    ensures forall i :: 0 <= i < |r| ==> Text.IsLowerAlnumOrUnderscore(r[i])
  {
    Text.Keep(Text.Lower(Text.OrDefault(city, UnknownRegion)), Text.IsLowerAlnumOrUnderscore)
  }

  /** Spend-tier component: only lower-cased, nothing stripped. */
  function NormalizeSpend(spend: Option<string>): (r: string)
    ensures forall i :: 0 <= i < |r| ==> !Text.IsAsciiUpper(r[i])
    ensures |r| == |Text.OrDefault(spend, UnknownToken)|
    ensures forall i :: 0 <= i < |r| ==> r[i] == Text.LowerChar(Text.OrDefault(spend, UnknownToken)[i])
  {
    Text.Lower(Text.OrDefault(spend, UnknownToken))
  }

  /** Frequency-tier component: lower-cased, only `[a-z0-9_]` kept. */
  function NormalizeFrequency(frequency: Option<string>): (r: string)
    ensures forall i :: 0 <= i < |r| ==> Text.IsLowerAlnumOrUnderscore(r[i])
  {
    Text.Keep(Text.Lower(Text.OrDefault(frequency, UnknownToken)), Text.IsLowerAlnumOrUnderscore)
  }

  /** A truthy platform is scrubbed to `[a-z0-9]` character by character; `PlatformDefault` covers the rest. */
  lemma PlatformScrubbed(platform: Option<string>)
    requires Text.Present(platform)
    ensures NormalizePlatform(platform) == Text.Scrub(platform.value, Text.IsLowerAlnum)
  {
    Text.KeepLowerIsScrub(platform.value, Text.IsLowerAlnum);
  }

  /** A truthy city cluster is scrubbed to `[a-z0-9_]` character by character; `CityDefault` covers the rest. */
  lemma CityScrubbed(city: Option<string>)
    requires Text.Present(city)
    ensures NormalizeCity(city) == Text.Scrub(city.value, Text.IsLowerAlnumOrUnderscore)
  {
    Text.KeepLowerIsScrub(city.value, Text.IsLowerAlnumOrUnderscore);
  }

  /** A truthy frequency tier is scrubbed to `[a-z0-9_]` character by character; `FrequencyDefault` covers the rest. */
  lemma FrequencyScrubbed(frequency: Option<string>)
    requires Text.Present(frequency)
    ensures NormalizeFrequency(frequency) == Text.Scrub(frequency.value, Text.IsLowerAlnumOrUnderscore)
  {
    Text.KeepLowerIsScrub(frequency.value, Text.IsLowerAlnumOrUnderscore);
  }

  /** `generateDeterministicCohortId(platform, cityCluster, spendTier, frequencyTier)`. */
  function GenerateCohortId(platform: Option<string>, city: Option<string>, spend: Option<string>, frequency: Option<string>)
    : (id: string)
    ensures id == (if Text.Present(platform) then Text.Scrub(platform.value, Text.IsLowerAlnum) else UnknownToken) + "_"
                  + (if Text.Present(city) then Text.Scrub(city.value, Text.IsLowerAlnumOrUnderscore) else UnknownRegion) + "_"
                  + (if Text.Present(spend) then Text.Lower(spend.value) else UnknownToken) + "_"
                  + (if Text.Present(frequency) then Text.Scrub(frequency.value, Text.IsLowerAlnumOrUnderscore) else UnknownToken)
  {
    ComponentsScrubbed(platform, city, spend, frequency);
    NormalizePlatform(platform) + "_" + NormalizeCity(city) + "_" + NormalizeSpend(spend) + "_" + NormalizeFrequency(frequency)
  }

  /** Each normalised component is its scrubbed value when truthy, and its placeholder otherwise. */
  lemma ComponentsScrubbed(platform: Option<string>, city: Option<string>, spend: Option<string>, frequency: Option<string>)
    ensures NormalizePlatform(platform) == if Text.Present(platform) then Text.Scrub(platform.value, Text.IsLowerAlnum) else UnknownToken
    ensures NormalizeCity(city) == if Text.Present(city) then Text.Scrub(city.value, Text.IsLowerAlnumOrUnderscore) else UnknownRegion
    ensures NormalizeSpend(spend) == if Text.Present(spend) then Text.Lower(spend.value) else UnknownToken
    ensures NormalizeFrequency(frequency) == if Text.Present(frequency) then Text.Scrub(frequency.value, Text.IsLowerAlnumOrUnderscore) else UnknownToken
  {
    PlatformPart(platform);
    CityPart(city);
    SpendPart(spend);
    FrequencyPart(frequency);
  }

  /** The platform case of `ComponentsScrubbed`. */
  lemma PlatformPart(platform: Option<string>)
    ensures NormalizePlatform(platform) == if Text.Present(platform) then Text.Scrub(platform.value, Text.IsLowerAlnum) else UnknownToken
  {
    if Text.Present(platform) { PlatformScrubbed(platform); } else { PlatformDefault(platform); }
  }

  /** The city-cluster case of `ComponentsScrubbed`. */
  lemma CityPart(city: Option<string>)
    ensures NormalizeCity(city) == if Text.Present(city) then Text.Scrub(city.value, Text.IsLowerAlnumOrUnderscore) else UnknownRegion
  {
    if Text.Present(city) { CityScrubbed(city); } else { CityDefault(city); }
  }

  /** The spend-tier case of `ComponentsScrubbed`. */
  lemma SpendPart(spend: Option<string>)
    ensures NormalizeSpend(spend) == if Text.Present(spend) then Text.Lower(spend.value) else UnknownToken
  {
    if !Text.Present(spend) { SpendDefault(spend); }
  }

  /** The frequency-tier case of `ComponentsScrubbed`. */
  lemma FrequencyPart(frequency: Option<string>)
    ensures NormalizeFrequency(frequency) == if Text.Present(frequency) then Text.Scrub(frequency.value, Text.IsLowerAlnumOrUnderscore) else UnknownToken
  {
    if Text.Present(frequency) { FrequencyScrubbed(frequency); } else { FrequencyDefault(frequency); }
  }

  /**
   * The platform part holds no `_`, so everything before the first `_` of the ID is exactly
   * the normalised platform.
   */
  lemma CohortIdPlatformPrefix(platform: Option<string>, city: Option<string>, spend: Option<string>, frequency: Option<string>)
    ensures var id := GenerateCohortId(platform, city, spend, frequency);
            var p := NormalizePlatform(platform);
            Text.IndexOf(id, '_') == Some(|p|) && id[..|p|] == p
            && Text.Split(id, '_')[0] == p
  {
    var p := NormalizePlatform(platform);
    var tail := NormalizeCity(city) + "_" + NormalizeSpend(spend) + "_" + NormalizeFrequency(frequency);
    RegroupId(p, NormalizeCity(city), NormalizeSpend(spend), NormalizeFrequency(frequency));
    Text.SplitPrefix(p, '_', tail);
    Text.IndexOfAfterPrefix(p, '_', tail);
  }

  /** Regrouping an ID as its first component, the separator, and the rest. */
  lemma RegroupId(p: string, c: string, s: string, f: string)
    ensures p + "_" + c + "_" + s + "_" + f == p + ['_'] + (c + "_" + s + "_" + f)
  {
  }

  /** A component already in normal form survives its normalisation unchanged. */
  lemma NormalFormUnchanged(s: string, allowed: char -> bool)
    requires InNormalForm(s, allowed)
    ensures Text.Keep(Text.Lower(s), allowed) == s
  {
    Text.LowerUnchanged(s);
    Text.KeepUnchanged(s, allowed);
  }

  /** `s` consists only of characters allowed by `allowed`, none of them upper-case. */
  predicate InNormalForm(s: string, allowed: char -> bool)
  {
    forall i :: 0 <= i < |s| ==> allowed(s[i]) && !Text.IsAsciiUpper(s[i])
  }

  /** A platform already in normal form, or the placeholder for a missing one. */
  lemma PlatformUnchanged(platform: Option<string>)
    requires Text.Present(platform) ==> InNormalForm(platform.value, Text.IsLowerAlnum)
    ensures NormalizePlatform(platform) == Text.OrDefault(platform, UnknownToken)
  {
    if Text.Present(platform) {
      NormalFormUnchanged(platform.value, Text.IsLowerAlnum);
    } else {
      NormalFormUnchanged(UnknownToken, Text.IsLowerAlnum);
    }
  }

  /** A city cluster already in normal form, or the placeholder for a missing one. */
  lemma CityUnchanged(city: Option<string>)
    requires Text.Present(city) ==> InNormalForm(city.value, Text.IsLowerAlnumOrUnderscore)
    ensures NormalizeCity(city) == Text.OrDefault(city, UnknownRegion)
  {
    if Text.Present(city) {
      NormalFormUnchanged(city.value, Text.IsLowerAlnumOrUnderscore);
    } else {
      NormalFormUnchanged(UnknownRegion, Text.IsLowerAlnumOrUnderscore);
    }
  }

  /** A spend tier without upper-case letters, or the placeholder for a missing one. */
  lemma SpendUnchanged(spend: Option<string>)
    requires spend.Some? ==> forall i :: 0 <= i < |spend.value| ==> !Text.IsAsciiUpper(spend.value[i])
    ensures NormalizeSpend(spend) == Text.OrDefault(spend, UnknownToken)
  {
    if Text.Present(spend) {
      Text.LowerUnchanged(spend.value);
    } else {
      Text.LowerUnchanged(UnknownToken);
    }
  }

  /** A frequency tier already in normal form, or the placeholder for a missing one. */
  lemma FrequencyUnchanged(frequency: Option<string>)
    requires Text.Present(frequency) ==> InNormalForm(frequency.value, Text.IsLowerAlnumOrUnderscore)
    ensures NormalizeFrequency(frequency) == Text.OrDefault(frequency, UnknownToken)
  {
    if Text.Present(frequency) {
      NormalFormUnchanged(frequency.value, Text.IsLowerAlnumOrUnderscore);
    } else {
      NormalFormUnchanged(UnknownToken, Text.IsLowerAlnumOrUnderscore);
    }
  }

  /** A missing platform normalises to the placeholder token. */
  lemma PlatformDefault(platform: Option<string>)
    requires !Text.Present(platform)
    ensures NormalizePlatform(platform) == UnknownToken
  {
    PlatformUnchanged(platform);
  }

  /** A missing city cluster normalises to the placeholder region. */
  lemma CityDefault(city: Option<string>)
    requires !Text.Present(city)
    ensures NormalizeCity(city) == UnknownRegion
  {
    CityUnchanged(city);
  }

  /** A missing spend tier normalises to the placeholder token. */
  lemma SpendDefault(spend: Option<string>)
    requires !Text.Present(spend)
    ensures NormalizeSpend(spend) == UnknownToken
  {
    SpendUnchanged(spend);
  }

  /** A missing frequency tier normalises to the placeholder token. */
  lemma FrequencyDefault(frequency: Option<string>)
    requires !Text.Present(frequency)
    ensures NormalizeFrequency(frequency) == UnknownToken
  {
    FrequencyUnchanged(frequency);
  }

  /** Absent or empty attributes fall back to the placeholder tokens. */
  lemma CohortIdDefaults(platform: Option<string>, city: Option<string>, spend: Option<string>, frequency: Option<string>)
    requires platform.None? || platform == Some("")
    requires city.None? || city == Some("")
    requires spend.None? || spend == Some("")
    requires frequency.None? || frequency == Some("")
    ensures GenerateCohortId(platform, city, spend, frequency)
         == UnknownToken + "_" + UnknownRegion + "_" + UnknownToken + "_" + UnknownToken
  {
    PlatformDefault(platform);
    CityDefault(city);
    SpendDefault(spend);
    FrequencyDefault(frequency);
    CohortIdOfParts(platform, city, spend, frequency, UnknownToken, UnknownRegion, UnknownToken, UnknownToken);
  }

  /** The ID joins the four normalised components with `_`. */
  lemma CohortIdOfParts(platform: Option<string>, city: Option<string>, spend: Option<string>, frequency: Option<string>,
                        p: string, c: string, s: string, f: string)
    requires NormalizePlatform(platform) == p && NormalizeCity(city) == c
    requires NormalizeSpend(spend) == s && NormalizeFrequency(frequency) == f
    ensures GenerateCohortId(platform, city, spend, frequency) == p + "_" + c + "_" + s + "_" + f
  {
  }

  /**
   * Cohort IDs are not injective: the city and spend parts may themselves contain `_`, so
   * moving an `_`-separated piece from the end of the city to the front of the spend tier
   * yields a different attribute tuple with the same ID.
   */
  lemma CohortIdCollision(p: string, x: string, y: string, z: string, w: string)
    requires p != "" && x != "" && z != "" && w != ""
    requires InNormalForm(p, Text.IsLowerAlnum)
    requires InNormalForm(x, Text.IsLowerAlnumOrUnderscore)
    requires InNormalForm(y, Text.IsLowerAlnumOrUnderscore)
    requires InNormalForm(z, Text.IsLowerAlnumOrUnderscore)
    requires InNormalForm(w, Text.IsLowerAlnumOrUnderscore)
    ensures x + "_" + y != x
    ensures GenerateCohortId(Some(p), Some(x + "_" + y), Some(z), Some(w))
         == GenerateCohortId(Some(p), Some(x), Some(y + "_" + z), Some(w))
  {
    var xy := x + "_" + y;
    var yz := y + "_" + z;
    assert |xy| > |x|;
    assert InNormalForm(xy, Text.IsLowerAlnumOrUnderscore);
    assert forall i :: 0 <= i < |z| ==> !Text.IsAsciiUpper(z[i]);
    assert forall i :: 0 <= i < |yz| ==> !Text.IsAsciiUpper(yz[i]);
    PlatformUnchanged(Some(p));
    CityUnchanged(Some(xy));
    CityUnchanged(Some(x));
    SpendUnchanged(Some(z));
    SpendUnchanged(Some(yz));
    FrequencyUnchanged(Some(w));
    CohortIdOfParts(Some(p), Some(xy), Some(z), Some(w), p, xy, z, w);
    CohortIdOfParts(Some(p), Some(x), Some(yz), Some(w), p, x, yz, w);
    MoveSeparatedPiece(p, x, y, z, w);
  }

  /** The concatenation behind the collision: the middle `_` can belong to either side. */
  lemma MoveSeparatedPiece(p: string, x: string, y: string, z: string, w: string)
    ensures p + "_" + (x + "_" + y) + "_" + z + "_" + w == p + "_" + x + "_" + (y + "_" + z) + "_" + w
  {
  }

  // ---------------------------------------------------------------------------
  // Increment

  /** Every record is consistent: the flag follows the count and the stamp follows the flag. */
  ghost predicate Valid(reg: Registry)
  {
    forall id :: id in reg ==>
      && reg[id].count >= 1
      && reg[id].compliant == (reg[id].count >= K_THRESHOLD)
      && (reg[id].firstCompliantAt.Some? <==> reg[id].compliant)
  }

  /** The updated registry and the record `incrementCohort` returns. */
  datatype Incremented = Incremented(registry: Registry, record: CohortRecord)

  /** The record a cohort starts from: the stored one, or a fresh zero-count record. */
  function StartingRecord(reg: Registry, cohortId: string, now: int): (r: CohortRecord)
    ensures cohortId in reg ==> r == reg[cohortId]
    ensures cohortId !in reg ==> r == CohortRecord(0, now, now, false, None)
  {
    if cohortId in reg then reg[cohortId] else CohortRecord(0, now, now, false, None)
  }

  /** `incrementCohort(cohortId)` at time `now`. */
  function Increment(reg: Registry, cohortId: string, now: int): (r: Incremented)
    ensures r.registry.Keys == reg.Keys + {cohortId}
    ensures r.registry[cohortId] == r.record
    ensures forall id :: id in reg && id != cohortId ==> r.registry[id] == reg[id]
    ensures r.record.count == StartingRecord(reg, cohortId, now).count + 1
    ensures r.record.compliant <==> r.record.count >= K_THRESHOLD
    ensures r.record.lastUpdated == now
    ensures r.record.createdAt == StartingRecord(reg, cohortId, now).createdAt
    ensures !StartingRecord(reg, cohortId, now).compliant && r.record.compliant ==> r.record.firstCompliantAt == Some(now)
    ensures !(!StartingRecord(reg, cohortId, now).compliant && r.record.compliant) ==>
              r.record.firstCompliantAt == StartingRecord(reg, cohortId, now).firstCompliantAt
  {
    var base := StartingRecord(reg, cohortId, now);
    var count := base.count + 1;
    var compliant := count >= K_THRESHOLD;
    var first := if !base.compliant && compliant then Some(now) else base.firstCompliantAt;
    var record := CohortRecord(count, base.createdAt, now, compliant, first);
    Incremented(reg[cohortId := record], record)
  }

  /** A new cohort is created with count 0 and no stamp, so its first increment returns count 1. */
  lemma IncrementNewCohort(reg: Registry, cohortId: string, now: int)
    requires cohortId !in reg
    ensures Increment(reg, cohortId, now).record == CohortRecord(1, now, now, false, None)
  {
  }

  /** Increment keeps every record consistent. */
  lemma IncrementPreservesValid(reg: Registry, cohortId: string, now: int)
    requires Valid(reg)
    ensures Valid(Increment(reg, cohortId, now).registry)
  {
  }

  /**
   * Under the invariant a compliant cohort stays compliant and its first-compliance stamp is
   * never overwritten, whichever cohort is incremented.
   */
  lemma ComplianceIsStable(reg: Registry, cohortId: string, now: int, id: string)
    requires Valid(reg)
    requires id in reg && reg[id].compliant
    ensures var after := Increment(reg, cohortId, now).registry;
            after[id].compliant && after[id].firstCompliantAt == reg[id].firstCompliantAt
            && after[id].count >= reg[id].count
  {
  }

  /** Increments `cohortId` once per entry of `times`, in order. */
  function IncrementAll(reg: Registry, cohortId: string, times: seq<int>): (r: Registry)
    ensures cohortId in r || |times| == 0
  {
    if |times| == 0 then reg
    else Increment(IncrementAll(reg, cohortId, times[..|times| - 1]), cohortId, times[|times| - 1]).registry
  }

  /**
   * Starting from a registry without the cohort, `n` increments give count `n`; the cohort is
   * compliant exactly when `n >= K`, stamped with the time of the K-th increment, and was
   * created at the time of the first.
   */
  lemma {:induction false} IncrementAllFresh(reg: Registry, cohortId: string, times: seq<int>)
    requires cohortId !in reg
    requires |times| > 0
    ensures var rec := IncrementAll(reg, cohortId, times)[cohortId];
            && rec.count == |times|
            && rec.compliant == (|times| >= K_THRESHOLD)
            && rec.firstCompliantAt == (if |times| >= K_THRESHOLD then Some(times[K_THRESHOLD - 1]) else None)
            && rec.createdAt == times[0]
            && rec.lastUpdated == times[|times| - 1]
  {
    if |times| > 1 {
      var init := times[..|times| - 1];
      IncrementAllFresh(reg, cohortId, init);
      assert init[0] == times[0];
      if |init| >= K_THRESHOLD {
        assert init[K_THRESHOLD - 1] == times[K_THRESHOLD - 1];
      }
    }
  }

  // ---------------------------------------------------------------------------
  // Queries

  /** `getCohortCount(cohortId)`: the stored count, 0 for an unknown cohort. */
  function GetCohortCount(reg: Registry, cohortId: string): (n: int)
    ensures cohortId !in reg ==> n == 0
    ensures cohortId in reg ==> n == reg[cohortId].count
  {
    if cohortId in reg then reg[cohortId].count else 0
  }

  /** `getCohortDetails(cohortId)`: the stored record, or `null`. */
  function GetCohortDetails(reg: Registry, cohortId: string): (r: Option<CohortRecord>)
    ensures r.Some? <==> cohortId in reg
    ensures r.Some? ==> r.value == reg[cohortId]
  {
    if cohortId in reg then Some(reg[cohortId]) else None
  }

  /** `getCompliantCohorts(threshold)` (the caller's default threshold is K). */
  function GetCompliantCohorts(reg: Registry, threshold: int): (r: Registry)
    ensures forall id :: id in r <==> id in reg && reg[id].count >= threshold
    ensures forall id :: id in r ==> r[id] == reg[id]
  {
    map id | id in reg && reg[id].count >= threshold :: reg[id]
  }

  /** `checkKAnonymity(cohortId, threshold)`. */
  function CheckKAnonymity(reg: Registry, cohortId: string, threshold: int): (ok: bool)
    ensures ok <==> (if cohortId in reg then reg[cohortId].count else 0) >= threshold
  {
    GetCohortCount(reg, cohortId) >= threshold
  }

  /** With the default threshold, the query answers agree with the stored flags. */
  lemma QueriesAgreeWithFlags(reg: Registry, cohortId: string)
    requires Valid(reg)
    ensures CheckKAnonymity(reg, cohortId, K_THRESHOLD) <==> (cohortId in reg && reg[cohortId].compliant)
    ensures forall id :: id in GetCompliantCohorts(reg, K_THRESHOLD) <==> id in reg && reg[id].compliant
  {
  }

  // ---------------------------------------------------------------------------
  // Statistics

  /** The summary `getCohortStats` returns (the floating-point average is not modelled). */
  datatype CohortStats = CohortStats(
    totalCohorts: nat,
    totalProfiles: int,
    compliantCohorts: nat,
    nonCompliantCohorts: nat,
    largestCohort: Option<string>,
    largestCohortSize: int,
    smallestCohort: Option<string>,
    smallestCohortSize: int)

  function Members(r: CohortRecord): int { r.count }

  function CompliantFlag(r: CohortRecord): int { if r.compliant then 1 else 0 }

  /** The additive part of `getCohortStats()`: profiles and the compliant / non-compliant split. */
  method SumCohorts(reg: Registry, order: seq<string>) returns (totalProfiles: int, compliant: nat, nonCompliant: nat)
    requires forall i :: 0 <= i < |order| ==> order[i] in reg
    ensures totalProfiles == Counters.SumSeq(order, reg, Members)
    ensures compliant == Counters.SumSeq(order, reg, CompliantFlag)
    ensures compliant + nonCompliant == |order|
  {
    totalProfiles, compliant, nonCompliant := 0, 0, 0;
    for i := 0 to |order|
      invariant totalProfiles == Counters.SumSeq(order[..i], reg, Members)
      invariant compliant == Counters.SumSeq(order[..i], reg, CompliantFlag)
      invariant compliant + nonCompliant == i
    {
      var data := reg[order[i]];
      Counters.SumSeqSnoc(order, i, reg, Members);
      Counters.SumSeqSnoc(order, i, reg, CompliantFlag);
      totalProfiles := totalProfiles + data.count;
      if data.compliant {
        compliant := compliant + 1;
      } else {
        nonCompliant := nonCompliant + 1;
      }
    }
    assert order[..|order|] == order;
  }

  /**
   * The extremal part of `getCohortStats()`: the first cohort of strictly largest count
   * (starting from size 0) and the first of strictly smallest count (starting from
   * Infinity, written `None`).
   */
  method CohortExtremes(reg: Registry, order: seq<string>)
    returns (largest: Option<string>, largestSize: int, smallest: Option<string>, smallestSize: Option<int>)
    requires forall i :: 0 <= i < |order| ==> order[i] in reg
    ensures largestSize >= 0
    ensures forall j :: 0 <= j < |order| ==> reg[order[j]].count <= largestSize
    ensures largest.Some? ==> exists k :: 0 <= k < |order| && order[k] == largest.value && reg[order[k]].count == largestSize
                                          && forall j :: 0 <= j < k ==> reg[order[j]].count < largestSize
    ensures largest.None? ==> largestSize == 0
    ensures smallestSize.None? <==> |order| == 0
    ensures smallestSize.None? <==> smallest.None?
    ensures smallestSize.Some? ==> forall j :: 0 <= j < |order| ==> smallestSize.value <= reg[order[j]].count
    ensures smallestSize.Some? ==> exists k :: 0 <= k < |order| && order[k] == smallest.value && reg[order[k]].count == smallestSize.value
                                               && forall j :: 0 <= j < k ==> smallestSize.value < reg[order[j]].count
  {
    largest, largestSize, smallest, smallestSize := None, 0, None, None;
    ghost var li, si := 0, 0;
    for i := 0 to |order|
      invariant largestSize >= 0
      invariant forall j :: 0 <= j < i ==> reg[order[j]].count <= largestSize
      invariant largest.Some? ==> li < i && order[li] == largest.value && reg[order[li]].count == largestSize
                                  && forall j :: 0 <= j < li ==> reg[order[j]].count < largestSize
      invariant largest.None? ==> largestSize == 0
      invariant smallestSize.None? <==> i == 0
      invariant smallestSize.None? <==> smallest.None?
      invariant smallestSize.Some? ==> forall j :: 0 <= j < i ==> smallestSize.value <= reg[order[j]].count
      invariant smallestSize.Some? ==> si < i && order[si] == smallest.value && reg[order[si]].count == smallestSize.value
                                       && forall j :: 0 <= j < si ==> smallestSize.value < reg[order[j]].count
    {
      var id := order[i];
      var count := reg[id].count;
      if count > largestSize {
        largest := Some(id);
        largestSize := count;
        li := i;
      }
      if smallestSize.None? || count < smallestSize.value {
        smallest := Some(id);
        smallestSize := Some(count);
        si := i;
      }
    }
  }

  /**
   * `getCohortStats()`; `order` is the key order `Object.entries` visits, which decides ties
   * between equally large or equally small cohorts.
   */
  method GetCohortStats(reg: Registry, order: seq<string>) returns (s: CohortStats)
    requires Counters.Enumerates(order, reg)
    ensures s.totalCohorts == |reg|
    ensures s.totalProfiles == Counters.SumOver(reg, Members)
    ensures s.compliantCohorts == Counters.SumOver(reg, CompliantFlag)
    ensures s.compliantCohorts + s.nonCompliantCohorts == s.totalCohorts
    ensures s.largestCohortSize >= 0
    ensures forall id :: id in reg ==> reg[id].count <= s.largestCohortSize
    ensures s.largestCohort.Some? ==> s.largestCohort.value in reg && reg[s.largestCohort.value].count == s.largestCohortSize
    ensures s.largestCohort.None? ==> s.largestCohortSize == 0
    ensures |reg| > 0 ==> forall id :: id in reg ==> s.smallestCohortSize <= reg[id].count
    ensures |reg| > 0 ==> s.smallestCohort.Some? && s.smallestCohort.value in reg
                          && reg[s.smallestCohort.value].count == s.smallestCohortSize
    ensures |reg| == 0 ==> s.smallestCohortSize == 0 && s.smallestCohort.None? && s.largestCohort.None?
    ensures s.largestCohort.Some? ==> exists k :: 0 <= k < |order| && order[k] == s.largestCohort.value
                                                 && forall j :: 0 <= j < k ==> reg[order[j]].count < s.largestCohortSize
    ensures s.smallestCohort.Some? ==> exists k :: 0 <= k < |order| && order[k] == s.smallestCohort.value
                                                  && forall j :: 0 <= j < k ==> s.smallestCohortSize < reg[order[j]].count
  {
    var totalProfiles, compliant, nonCompliant := SumCohorts(reg, order);
    var largest, largestSize, smallest, smallestSize := CohortExtremes(reg, order);
    Counters.SumSeqEnumeration(order, reg, Members);
    Counters.SumSeqEnumeration(order, reg, CompliantFlag);
    Counters.EnumerationSize(order, reg);
    assert forall id :: id in reg ==> exists j :: 0 <= j < |order| && order[j] == id;
    s := CohortStats(|order|, totalProfiles, compliant, nonCompliant, largest, largestSize,
                     smallest, smallestSize.GetOr(0));
  }
}
