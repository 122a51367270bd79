/**
 * The append-only consent ledger of `consentLedger.js`: entry construction with its
 * defaults, lookups by hashed user and by proof ID, the inclusive date-window export and
 * the counters of the statistics endpoint. The ledger file is a value passed in and out;
 * the salted SHA-256, the entry ID and the clock are parameters.
 */
module ConsentLedger {
  import opened Wrappers
  import Seqs
  import Text
  import Counters

  const DefaultDatasetSource: string := "reclaim_protocol"
  const UnknownValue: string := "unknown"
  const ExplicitContribution: string := "explicit_contribution"
  const AnonymizedBehavioralData: string := "anonymized_behavioral_data"
  const AggregatedInsights: string := "aggregated_insights"

  datatype Method = ZkProof | SelfReported

  datatype Verification = Verification(kind: Method, verified: bool)

  /** `data_summary`; the window bounds are `null` (`None`) when absent. */
  datatype DataSummary = DataSummary(orderCount: int, dataWindowStart: Option<string>, dataWindowEnd: Option<string>)

  /** One ledger entry. `timestamp` is the ISO time of logging, read as epoch milliseconds. */
  datatype Entry = Entry(
    id: string,
    timestamp: int,
    hashedUserId: string,
    hashedWallet: Option<string>,
    proofId: Option<string>,
    datasetSource: string,
    dataType: string,
    geoRegion: string,
    cohortId: Option<string>,
    contributionId: Option<string>,
    dataSummary: DataSummary,
    consentType: string,
    consentScope: seq<string>,
    revocable: bool,
    verification: Verification)

  type Ledger = seq<Entry>

  /** The named arguments of `logConsent`; `None` stands for an argument left undefined. */
  datatype ConsentParams = ConsentParams(
    userId: string,
    reclaimProofId: Option<string>,
    dataType: Option<string>,
    datasetSource: Option<string>,
    geoRegion: Option<string>,
    cohortId: Option<string>,
    contributionId: Option<string>,
    orderCount: Option<int>,
    dataWindowStart: Option<string>,
    dataWindowEnd: Option<string>,
    walletAddress: Option<string>)

  /** The salted hash: an uninterpreted deterministic digest and the salt prepended to its input. */
  datatype Hasher = Hasher(digest: string -> string, salt: string)

  /** `hashUserId`: the digest of salt followed by the ID. */
  function HashUserId(hs: Hasher, userId: string): string
  {
    hs.digest(hs.salt + userId)
  }

  // ---------------------------------------------------------------------------
  // Logging

  /** The entry `logConsent` builds, given the generated ID and the current time. */
  function NewEntry(p: ConsentParams, id: string, now: int, hs: Hasher): (e: Entry)
    ensures e.id == id && e.timestamp == now
    ensures e.hashedUserId == HashUserId(hs, p.userId)
    ensures e.hashedWallet.Some? <==> Text.Present(p.walletAddress)
    ensures e.hashedWallet.Some? ==> e.hashedWallet.value == HashUserId(hs, p.walletAddress.value)
    ensures e.verification.verified <==> Text.Present(p.reclaimProofId)
    ensures e.verification.kind == ZkProof <==> Text.Present(p.reclaimProofId)
    ensures e.proofId.Some? <==> Text.Present(p.reclaimProofId)
    ensures e.proofId.Some? ==> e.proofId == p.reclaimProofId
    ensures !Text.Present(p.datasetSource) ==> e.datasetSource == DefaultDatasetSource
    ensures !Text.Present(p.dataType) ==> e.dataType == UnknownValue
    ensures !Text.Present(p.geoRegion) ==> e.geoRegion == UnknownValue
    ensures !Text.Present(p.cohortId) ==> e.cohortId.None?
    ensures !Text.Present(p.contributionId) ==> e.contributionId.None?
    ensures (p.orderCount.None? || p.orderCount == Some(0)) ==> e.dataSummary.orderCount == 0
    ensures Text.Present(p.datasetSource) ==> e.datasetSource == p.datasetSource.value
    ensures Text.Present(p.dataType) ==> e.dataType == p.dataType.value
    ensures Text.Present(p.geoRegion) ==> e.geoRegion == p.geoRegion.value
    ensures e.cohortId.Some? <==> Text.Present(p.cohortId)
    ensures e.cohortId.Some? ==> e.cohortId == p.cohortId
    ensures e.contributionId.Some? <==> Text.Present(p.contributionId)
    ensures e.contributionId.Some? ==> e.contributionId == p.contributionId
    ensures e.dataSummary.dataWindowStart == (if Text.Present(p.dataWindowStart) then p.dataWindowStart else None)
    ensures e.dataSummary.dataWindowEnd == (if Text.Present(p.dataWindowEnd) then p.dataWindowEnd else None)
    ensures e.dataSummary.orderCount == (if p.orderCount.Some? then p.orderCount.value else 0)
    ensures e.consentType == ExplicitContribution && e.revocable
  {
    var present := Text.Present(p.reclaimProofId);
    Entry(
      id := id,
      timestamp := now,
      hashedUserId := HashUserId(hs, p.userId),
      hashedWallet := if Text.Present(p.walletAddress) then Some(HashUserId(hs, p.walletAddress.value)) else None,
      proofId := Text.OrNull(p.reclaimProofId),
      datasetSource := Text.OrDefault(p.datasetSource, DefaultDatasetSource),
      dataType := Text.OrDefault(p.dataType, UnknownValue),
      geoRegion := Text.OrDefault(p.geoRegion, UnknownValue),
      cohortId := Text.OrNull(p.cohortId),
      contributionId := Text.OrNull(p.contributionId),
      dataSummary := DataSummary(
        p.orderCount.GetOr(0),
        Text.OrNull(p.dataWindowStart),
        Text.OrNull(p.dataWindowEnd)),
      consentType := ExplicitContribution,
      consentScope := [AnonymizedBehavioralData, AggregatedInsights],
      revocable := true,
      verification := Verification(if present then ZkProof else SelfReported, present))
  }

  /** The stored ledger after a `logConsent` call, and the entry the call returns. */
  datatype Logged = Logged(ledger: Ledger, entry: Entry)

  /**
   * `logConsent`: appends the new entry and writes the ledger back. `written` is whether
   * the write succeeded; the entry is returned either way.
   */
  function LogConsent(ledger: Ledger, p: ConsentParams, id: string, now: int, hs: Hasher, written: bool): (r: Logged)
    ensures written ==> |r.ledger| == |ledger| + 1 && r.ledger[..|ledger|] == ledger && r.ledger[|ledger|] == r.entry
    ensures !written ==> r.ledger == ledger
    ensures r.entry == NewEntry(p, id, now, hs)
  {
    var e := NewEntry(p, id, now, hs);
    Logged(if written then ledger + [e] else ledger, e)
  }

  // ---------------------------------------------------------------------------
  // Lookups

  /** The filter "belongs to the user with this hashed ID". */
  function ByHashedUser(hashed: string): Entry -> bool
  {
    (e: Entry) => e.hashedUserId == hashed
  }

  /** `getConsentEntriesByUser`: the user's entries, in ledger order. */
  function GetConsentEntriesByUser(ledger: Ledger, hs: Hasher, userId: string): (r: Ledger)
    ensures forall i :: 0 <= i < |r| ==> r[i].hashedUserId == HashUserId(hs, userId)
    ensures forall i :: 0 <= i < |ledger| && ledger[i].hashedUserId == HashUserId(hs, userId) ==> ledger[i] in r
    ensures forall e :: e in r ==> e in ledger
  {
    Seqs.Filter(ledger, ByHashedUser(HashUserId(hs, userId)))
  }

  /** After a successful `logConsent`, the user's entries are the old ones followed by the new entry. */
  lemma EntriesByUserAfterLog(ledger: Ledger, p: ConsentParams, id: string, now: int, hs: Hasher)
    ensures var r := LogConsent(ledger, p, id, now, hs, true);
            GetConsentEntriesByUser(r.ledger, hs, p.userId) == GetConsentEntriesByUser(ledger, hs, p.userId) + [r.entry]
  {
    var e := NewEntry(p, id, now, hs);
    var f := ByHashedUser(HashUserId(hs, p.userId));
    Seqs.FilterAppend(ledger, [e], f);
    assert Seqs.Filter([e], f) == [e] + Seqs.Filter([], f);
  }

  /** Logging for one user leaves the entries of every user with a different hash unchanged. */
  lemma EntriesOfOthersAfterLog(ledger: Ledger, p: ConsentParams, id: string, now: int, hs: Hasher, other: string)
    requires HashUserId(hs, other) != HashUserId(hs, p.userId)
    ensures var r := LogConsent(ledger, p, id, now, hs, true);
            GetConsentEntriesByUser(r.ledger, hs, other) == GetConsentEntriesByUser(ledger, hs, other)
  {
    var e := NewEntry(p, id, now, hs);
    var f := ByHashedUser(HashUserId(hs, other));
    Seqs.FilterAppend(ledger, [e], f);
    assert Seqs.Filter([e], f) == Seqs.Filter([], f);
  }

  /** The filter `e.proof_id === proofId`; `None` is `null`, which matches entries without a proof. */
  function WithProof(proofId: Option<string>): Entry -> bool
  {
    (e: Entry) => e.proofId == proofId
  }

  /** `getConsentByProofId`: the first entry whose `proof_id` is identical to the argument, else `null`. */
  function GetConsentByProofId(ledger: Ledger, proofId: Option<string>): (r: Option<Entry>)
    ensures r.Some? ==> exists i :: 0 <= i < |ledger| && ledger[i] == r.value && r.value.proofId == proofId
                                    && forall j :: 0 <= j < i ==> ledger[j].proofId != proofId
    ensures r.None? <==> forall i :: 0 <= i < |ledger| ==> ledger[i].proofId != proofId
  {
    Seqs.Find(ledger, WithProof(proofId))
  }

  /** `isProofAlreadyUsed`: false for a falsy ID, else whether some entry carries it. */
  function IsProofAlreadyUsed(ledger: Ledger, proofId: Option<string>): (r: bool)
    ensures r <==> Text.Present(proofId) && exists i :: 0 <= i < |ledger| && ledger[i].proofId == proofId
  {
    Text.Present(proofId) && Seqs.FindIndex(ledger, WithProof(proofId)).Some?
  }

  /** For a truthy ID the two lookups agree. */
  lemma ProofLookupsAgree(ledger: Ledger, proofId: Option<string>)
    requires Text.Present(proofId)
    ensures IsProofAlreadyUsed(ledger, proofId) <==> GetConsentByProofId(ledger, proofId).Some?
  {
  }

  /** Once an entry with a proof is logged, that proof counts as used, and looking it up finds an entry with it. */
  lemma ProofUsedAfterLog(ledger: Ledger, p: ConsentParams, id: string, now: int, hs: Hasher)
    requires Text.Present(p.reclaimProofId)
    ensures var r := LogConsent(ledger, p, id, now, hs, true);
            IsProofAlreadyUsed(r.ledger, p.reclaimProofId)
            && GetConsentByProofId(r.ledger, p.reclaimProofId).Some?
  {
    var r := LogConsent(ledger, p, id, now, hs, true);
    assert r.ledger[|ledger|].proofId == p.reclaimProofId;
  }

  // ---------------------------------------------------------------------------
  // Audit export

  /** The inclusive window test `entryDate >= start && entryDate <= end`. */
  function InWindow(start: int, end: int): Entry -> bool
  {
    (e: Entry) => start <= e.timestamp <= end
  }

  /**
   * `exportForAudit(startDate, endDate)`: dates are `None` when falsy; a missing start is
   * the epoch and a missing end is the current time `now`.
   */
  function ExportForAudit(ledger: Ledger, startDate: Option<int>, endDate: Option<int>, now: int): (r: Ledger)
    ensures startDate.None? && endDate.None? ==> r == ledger
    ensures startDate.Some? || endDate.Some? ==>
              var lo, hi := startDate.GetOr(0), endDate.GetOr(now);
              && (forall i :: 0 <= i < |r| ==> lo <= r[i].timestamp <= hi)
              && (forall i :: 0 <= i < |ledger| && lo <= ledger[i].timestamp <= hi ==> ledger[i] in r)
              && (forall e :: e in r ==> e in ledger)
  {
    if startDate.None? && endDate.None? then ledger
    else Seqs.Filter(ledger, InWindow(startDate.GetOr(0), endDate.GetOr(now)))
  }

  /** The export of a grown ledger is the export of the old part followed by that of the new part. */
  lemma ExportAppend(older: Ledger, newer: Ledger, startDate: Option<int>, endDate: Option<int>, now: int)
    ensures ExportForAudit(older + newer, startDate, endDate, now)
         == ExportForAudit(older, startDate, endDate, now) + ExportForAudit(newer, startDate, endDate, now)
  {
    if startDate.Some? || endDate.Some? {
      Seqs.FilterAppend(older, newer, InWindow(startDate.GetOr(0), endDate.GetOr(now)));
    }
  }

  // ---------------------------------------------------------------------------
  // Statistics

  datatype DateRange = DateRange(earliest: Option<int>, latest: Option<int>)

  datatype ConsentStats = ConsentStats(
    totalEntries: nat,
    uniqueUsers: nat,
    byDataType: map<string, nat>,
    byGeoRegion: map<string, nat>,
    byConsentType: map<string, nat>,
    verifiedCount: nat,
    dateRange: DateRange)

  function HashedUserOf(e: Entry): string { e.hashedUserId }
  function DataTypeOf(e: Entry): string { e.dataType }
  function GeoRegionOf(e: Entry): string { e.geoRegion }
  function ConsentTypeOf(e: Entry): string { e.consentType }
  predicate IsVerified(e: Entry) { e.verification.verified }

  /** The running earliest and latest timestamps of the `forEach`, visiting entries in order. */
  function DateRangeOf(ledger: Ledger): (r: DateRange)
    ensures r.earliest.Some? <==> |ledger| > 0
    ensures r.latest.Some? <==> |ledger| > 0
    ensures r.earliest.Some? ==> (exists i :: 0 <= i < |ledger| && ledger[i].timestamp == r.earliest.value)
                                 && forall i :: 0 <= i < |ledger| ==> r.earliest.value <= ledger[i].timestamp
    ensures r.latest.Some? ==> (exists i :: 0 <= i < |ledger| && ledger[i].timestamp == r.latest.value)
                               && forall i :: 0 <= i < |ledger| ==> ledger[i].timestamp <= r.latest.value
    decreases |ledger|
  {
    if |ledger| == 0 then DateRange(None, None)
    else
      var init := ledger[..|ledger| - 1];
      var t := ledger[|ledger| - 1].timestamp;
      var d := DateRangeOf(init);
      assert forall i :: 0 <= i < |init| ==> init[i] == ledger[i];
      DateRange(
        if d.earliest.None? || t < d.earliest.value then Some(t) else d.earliest,
        if d.latest.None? || t > d.latest.value then Some(t) else d.latest)
  }

  /** `getConsentStats()`. */
  function GetConsentStats(ledger: Ledger): (st: ConsentStats)
    ensures st.totalEntries == |ledger|
    ensures st.uniqueUsers == |set e | e in ledger :: e.hashedUserId|
    ensures st.uniqueUsers <= st.totalEntries
    ensures |ledger| > 0 ==> st.uniqueUsers >= 1
    ensures Counters.SumOver(st.byDataType, Counters.AsInt) == st.totalEntries
    ensures Counters.SumOver(st.byGeoRegion, Counters.AsInt) == st.totalEntries
    ensures Counters.SumOver(st.byConsentType, Counters.AsInt) == st.totalEntries
    ensures st.verifiedCount == |set i | 0 <= i < |ledger| && ledger[i].verification.verified|
    ensures st.verifiedCount <= st.totalEntries
    ensures st.dateRange.earliest.Some? <==> |ledger| > 0
    ensures st.dateRange.earliest.Some? ==> st.dateRange.latest.Some?
                                            && st.dateRange.earliest.value <= st.dateRange.latest.value
  {
    DistinctKeysBound(ledger, HashedUserOf);
    UserHashesAreKeys(ledger);
    VerifiedIndices(ledger);
    ConsentStats(
      |ledger|,
      |Counters.KeysOf(ledger, HashedUserOf)|,
      Counters.TallyBy(ledger, DataTypeOf),
      Counters.TallyBy(ledger, GeoRegionOf),
      Counters.TallyBy(ledger, ConsentTypeOf),
      Seqs.Count(ledger, IsVerified),
      DateRangeOf(ledger))
  }

  /** The hashed-user keys of the ledger are the hashed user IDs of its entries. */
  lemma UserHashesAreKeys(ledger: Ledger)
    ensures Counters.KeysOf(ledger, HashedUserOf) == set e | e in ledger :: e.hashedUserId
  {
    forall h | h in set e | e in ledger :: e.hashedUserId
      ensures h in Counters.KeysOf(ledger, HashedUserOf)
    {
      var e :| e in ledger && e.hashedUserId == h;
      var i :| 0 <= i < |ledger| && ledger[i] == e;
      assert HashedUserOf(ledger[i]) == h;
    }
  }

  /** The verified count is the number of ledger positions holding a verified entry. */
  lemma VerifiedIndices(ledger: Ledger)
    ensures Seqs.Count(ledger, IsVerified) == |set i | 0 <= i < |ledger| && ledger[i].verification.verified|
    ensures Seqs.Count(ledger, IsVerified) <= |ledger|
  {
    Seqs.CountIsIndices(ledger, IsVerified);
    assert Seqs.Positions(ledger, IsVerified) == set i | 0 <= i < |ledger| && ledger[i].verification.verified;
  }

  /** There are at most as many distinct keys as entries, and at least one when there is an entry. */
  lemma {:induction false} DistinctKeysBound<K>(ledger: Ledger, key: Entry -> K)
    ensures |Counters.KeysOf(ledger, key)| <= |ledger|
    ensures |ledger| > 0 ==> |Counters.KeysOf(ledger, key)| >= 1
    decreases |ledger|
  {
    if |ledger| > 0 {
      Counters.KeysOfSnoc(ledger, key);
      DistinctKeysBound(ledger[..|ledger| - 1], key);
    }
  }

  /** Each `by_data_type`, `by_geo_region` and `by_consent_type` counter is the number of entries with that key. */
  lemma ConsentStatsCounts(ledger: Ledger, dataType: string, region: string, consentType: string)
    ensures Counters.TallyOf(GetConsentStats(ledger).byDataType, dataType) == Seqs.Count(ledger, Counters.HasKey(DataTypeOf, dataType))
    ensures Counters.TallyOf(GetConsentStats(ledger).byGeoRegion, region) == Seqs.Count(ledger, Counters.HasKey(GeoRegionOf, region))
    ensures Counters.TallyOf(GetConsentStats(ledger).byConsentType, consentType) == Seqs.Count(ledger, Counters.HasKey(ConsentTypeOf, consentType))
  {
    Counters.TallyByCounts(ledger, DataTypeOf, dataType);
    Counters.TallyByCounts(ledger, GeoRegionOf, region);
    Counters.TallyByCounts(ledger, ConsentTypeOf, consentType);
  }

  /** A successful `logConsent` adds one entry, and one verified entry exactly when a proof was given. */
  lemma StatsAfterLog(ledger: Ledger, p: ConsentParams, id: string, now: int, hs: Hasher)
    ensures var after := GetConsentStats(LogConsent(ledger, p, id, now, hs, true).ledger);
            var before := GetConsentStats(ledger);
            && after.totalEntries == before.totalEntries + 1
            && after.verifiedCount == before.verifiedCount + (if Text.Present(p.reclaimProofId) then 1 else 0)
  {
    var r := LogConsent(ledger, p, id, now, hs, true);
    assert r.ledger[..|r.ledger| - 1] == ledger;
    Seqs.CountSnoc(r.ledger, IsVerified);
  }
}
