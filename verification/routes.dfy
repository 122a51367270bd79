/**
 * The decisions embedded in the route handlers of `mvpRoutes.js`: the bearer-token parser,
 * the username rule, the two duplicate checks of `/contribute`, its size-based points and
 * intake league, the tags it writes, and the pagination of `/enterprise/data`. Storage, the
 * pipelines and the clock are parameters.
 */
module MvpRoutes {
  import opened Wrappers
  import Seqs
  import Text
  import Numerals
  import opened Json
  import RewardService
  import CohortService
  import DbStorage
  import DbHelpers
  import ColumnRules

  // ---------------------------------------------------------------------------
  // Bearer tokens

  const BearerPrefix: string := "Bearer "
  const WalletTokenPrefix: string := "wallet_"
  const PrivyTokenPrefix: string := "privy_"
  const PrivyTokenSuffix: string := "_user"
  const AddressPrefix: string := "0x"

  /** The two 401 answers of `verifyWalletToken`. */
  datatype AuthError = MissingToken | InvalidFormat

  /**
   * The wallet address a token names: `wallet_X` gives `X` (the first `wallet_` is the
   * prefix itself), `privy_A_…` gives the piece `A` between the first two underscores, a
   * token starting `0x` is the address itself; anything else names none.
   */
  function WalletOf(token: string): (r: Option<string>)
    ensures (Text.StartsWith(token, AddressPrefix) && !Text.StartsWith(token, PrivyTokenPrefix)
             && !Text.StartsWith(token, WalletTokenPrefix)) ==> r == Some(token)
    ensures r.None? <==> (!Text.StartsWith(token, WalletTokenPrefix) && !Text.StartsWith(token, PrivyTokenPrefix)
                          && !Text.StartsWith(token, AddressPrefix))
  {
    if Text.StartsWith(token, WalletTokenPrefix) then Some(token[|WalletTokenPrefix|..])
    else if Text.StartsWith(token, PrivyTokenPrefix) then
      assert token == "privy" + ['_'] + token[|PrivyTokenPrefix|..];
      Text.SplitPrefix("privy", '_', token[|PrivyTokenPrefix|..]);
      Some(Text.Split(token, '_')[1])
    else if Text.StartsWith(token, AddressPrefix) then Some(token)
    else None
  }

  /** The token of a bearer header: the second piece of `header.split(' ')`. */
  function BearerToken(header: string): (token: string)
    requires Text.StartsWith(header, BearerPrefix)
    ensures ' ' !in token
  {
    assert header == "Bearer" + [' '] + header[|BearerPrefix|..];
    Text.SplitPrefix("Bearer", ' ', header[|BearerPrefix|..]);
    Text.Split(header, ' ')[1]
  }

  /**
   * `verifyWalletToken` on the `Authorization` header: the token is the second piece of
   * `header.split(' ')`, and the address it names must start with `0x`.
   */
  function VerifyWalletToken(header: Option<string>): (r: Result<string, AuthError>)
    ensures r == Failure(MissingToken) <==> header.None? || !Text.StartsWith(header.value, BearerPrefix)
    ensures r.Success? ==> Text.StartsWith(r.value, AddressPrefix)
    ensures r.Success? ==> WalletOf(BearerToken(header.value)) == Some(r.value)
    ensures header.Some? && Text.StartsWith(header.value, BearerPrefix) ==>
              var w := WalletOf(BearerToken(header.value));
              (r.Success? <==> w.Some? && Text.StartsWith(w.value, AddressPrefix))
              && (r.Failure? ==> r.error == InvalidFormat)
  {
    if header.None? || !Text.StartsWith(header.value, BearerPrefix) then Failure(MissingToken)
    else
      match WalletOf(BearerToken(header.value))
      case Some(w) => if Text.StartsWith(w, AddressPrefix) then Success(w) else Failure(InvalidFormat)
      case None => Failure(InvalidFormat)
  }

  /** A space-free token after `Bearer ` is the header's token. */
  lemma HeaderToken(token: string)
    requires ' ' !in token
    ensures Text.StartsWith(BearerPrefix + token, BearerPrefix)
    ensures BearerToken(BearerPrefix + token) == token
  {
    var h := BearerPrefix + token;
    assert h[..|BearerPrefix|] == BearerPrefix;
    assert h == "Bearer" + [' '] + token;
    Text.SplitPrefix("Bearer", ' ', token);
    assert Text.IndexOf(token, ' ').None?;
  }

  /** A privy token names the piece before the next underscore. */
  lemma PrivyPiece(piece: string, rest: string)
    requires '_' !in piece
    ensures WalletOf(PrivyTokenPrefix + piece + "_" + rest) == Some(piece)
  {
    var token := PrivyTokenPrefix + piece + "_" + rest;
    assert token[0] == 'p';
    assert !Text.StartsWith(token, WalletTokenPrefix);
    assert token[..|PrivyTokenPrefix|] == PrivyTokenPrefix;
    assert token == "privy" + ['_'] + (piece + ['_'] + rest);
    Text.SplitPrefix("privy", '_', piece + ['_'] + rest);
    Text.SplitPrefix(piece, '_', rest);
  }

  /** `generateAuthToken(walletAddress)` of the client: `privy_${walletAddress}_user`. */
  function GenerateAuthToken(wallet: string): string
  {
    PrivyTokenPrefix + wallet + PrivyTokenSuffix
  }

  /** The header the client sends for a wallet address. */
  function AuthHeader(wallet: string): string
  {
    BearerPrefix + GenerateAuthToken(wallet)
  }

  /** The client's token names back the wallet it was made from, for an address without `_` or space. */
  lemma PrivyTokenRoundTrip(wallet: string)
    requires Text.StartsWith(wallet, AddressPrefix)
    requires '_' !in wallet && ' ' !in wallet
    ensures VerifyWalletToken(Some(AuthHeader(wallet))) == Success(wallet)
  {
    var token := GenerateAuthToken(wallet);
    assert ' ' !in PrivyTokenPrefix && ' ' !in PrivyTokenSuffix;
    assert ' ' !in token;
    HeaderToken(token);
    assert token == PrivyTokenPrefix + wallet + "_" + "user";
    PrivyPiece(wallet, "user");
  }

  /** A `wallet_` token names the rest of the token, underscores included. */
  lemma WalletTokenRoundTrip(wallet: string)
    requires Text.StartsWith(wallet, AddressPrefix)
    requires ' ' !in wallet
    ensures VerifyWalletToken(Some(BearerPrefix + (WalletTokenPrefix + wallet))) == Success(wallet)
  {
    var token := WalletTokenPrefix + wallet;
    assert ' ' !in token;
    HeaderToken(token);
    assert token[..|WalletTokenPrefix|] == WalletTokenPrefix;
    assert token[|WalletTokenPrefix|..] == wallet;
  }

  /** A privy token whose address holds an underscore names only the part before it. */
  lemma PrivyTokenTruncates(head: string, rest: string)
    requires Text.StartsWith(head, AddressPrefix)
    requires '_' !in head && ' ' !in head && ' ' !in rest
    ensures VerifyWalletToken(Some(AuthHeader(head + "_" + rest))) == Success(head)
  {
    var token := GenerateAuthToken(head + "_" + rest);
    assert ' ' !in PrivyTokenPrefix && ' ' !in PrivyTokenSuffix;
    assert ' ' !in token;
    HeaderToken(token);
    assert token == PrivyTokenPrefix + head + "_" + (rest + PrivyTokenSuffix);
    PrivyPiece(head, rest + PrivyTokenSuffix);
  }

  // ---------------------------------------------------------------------------
  // Usernames

  const MinUsernameLength: nat := 3

  /** At least three characters, all of them letters, digits or underscores (`/^[a-zA-Z0-9_]+$/`). */
  predicate ValidUsername(u: string)
  {
    |u| >= MinUsernameLength && forall i :: 0 <= i < |u| ==> Text.IsWordChar(u[i])
  }

  /** The answers of `POST /user/username`, in the order the handler checks for them. */
  datatype UsernameOutcome =
    | UserNotFound     // 404
    | TooShort         // 400, missing or shorter than three characters
    | BadCharacters    // 400, a character outside `[A-Za-z0-9_]`
    | Taken            // 409
    | UsernameSet(username: string)

  /** The decision of `POST /user/username`; whether a name is free is the `available` lookup. */
  function SetUsername(userFound: bool, username: Option<string>, available: string -> bool): (r: UsernameOutcome)
    ensures r.UsernameSet? <==> userFound && username.Some? && ValidUsername(username.value) && available(username.value)
    ensures r.UsernameSet? ==> r.username == username.value
    ensures r == TooShort <==> userFound && (username.None? || |username.value| < MinUsernameLength)
    ensures r == UserNotFound <==> !userFound
    ensures r == BadCharacters <==> userFound && username.Some? && |username.value| >= MinUsernameLength && !ValidUsername(username.value)
    ensures r == Taken <==> userFound && username.Some? && ValidUsername(username.value) && !available(username.value)
  {
    if !userFound then UserNotFound
    else if username.None? || |username.value| < MinUsernameLength then TooShort
    else if exists i :: 0 <= i < |username.value| && !Text.IsWordChar(username.value[i]) then BadCharacters
    else if available(username.value) then UsernameSet(username.value)
    else Taken
  }

  /** The pattern test is the same as keeping only word characters and finding nothing removed. */
  lemma UsernameCharacters(u: string)
    ensures ValidUsername(u) <==> |u| >= MinUsernameLength && Text.Keep(u, Text.IsWordChar) == u
  {
    if |u| >= MinUsernameLength && Text.Keep(u, Text.IsWordChar) == u {
      forall i | 0 <= i < |u|
        ensures Text.IsWordChar(u[i])
      {
        assert u[i] in Text.Keep(u, Text.IsWordChar);
      }
    }
    if ValidUsername(u) {
      Text.KeepUnchanged(u, Text.IsWordChar);
    }
  }

  // ---------------------------------------------------------------------------
  // Duplicate submissions

  /**
   * JavaScript `===` between values decoded from JSON: primitives compare by value, while two
   * separately decoded arrays or objects are never the same object.
   */
  predicate StrictEquals(a: Option<Json>, b: Option<Json>)
  {
    match a
    case None => b.None?
    case Some(x) => b.Some? && !x.Arr? && !x.Obj? && x == b.value
  }

  const ProofField: string := "reclaimProofId"
  const IdField: string := "id"
  const DataField: string := "data"

  function SameProof(proofId: Option<Json>): DbStorage.Row -> bool
  {
    (c: DbStorage.Row) => StrictEquals(DbStorage.Col(c, ProofField), proofId)
  }

  /** The earlier contribution with the same truthy proof id, if any. */
  function DuplicateProof(contributions: seq<DbStorage.Row>, proofId: Option<Json>): (r: Option<DbStorage.Row>)
    ensures r.Some? ==> Truthy(proofId) && r.value in contributions && SameProof(proofId)(r.value)
    ensures r.Some? ==> exists i :: 0 <= i < |contributions| && contributions[i] == r.value
                          && SameProof(proofId)(contributions[i])
                          && forall j :: 0 <= j < i ==> !SameProof(proofId)(contributions[j])
    ensures r.None? <== !Truthy(proofId) || forall i :: 0 <= i < |contributions| ==> !SameProof(proofId)(contributions[i])
  {
    if Truthy(proofId) then Seqs.Find(contributions, SameProof(proofId)) else None
  }

  const DayMillis: int := 24 * 60 * 60 * 1000

  /** `Number(v)` as subtraction and comparison apply it; `None` is `NaN`. Non-numbers go through `toNumber`. */
  function NumberOf(v: Json, toNumber: Json -> Option<real>): (r: Option<real>)
    ensures v.Num? ==> r == Some(v.n)
  {
    if v.Num? then Some(v.n) else toNumber(v)
  }

  function Abs(x: real): real { if x < 0.0 then -x else x }

  /** `v || 0`. */
  function OrZero(v: Option<Json>): (r: Json)
    ensures Truthy(v) ==> r == v.value
    ensures !Truthy(v) ==> r == Num(0.0)
  {
    Or(v, Some(Num(0.0))).value
  }

  /** Same `dataType` and created less than a day before `now`. */
  function IsRecent(dataType: Option<Json>, now: int, time: Option<Json> -> int): DbStorage.Row -> bool
  {
    (c: DbStorage.Row) => StrictEquals(DbStorage.Col(c, DbStorage.DataTypeField), dataType)
                          && now - time(DbStorage.Col(c, DbStorage.CreatedAtField)) < DayMillis
  }

  /** `Math.abs(existingOrderCount - orderCount) < 3`, false when either side is `NaN`. */
  function IsSimilar(orderCount: Json, toNumber: Json -> Option<real>): DbStorage.Row -> bool
  {
    (c: DbStorage.Row) =>
      var existing := NumberOf(OrZero(Get(DbStorage.Col(c, DataField), ["orderCount"])), toNumber);
      var submitted := NumberOf(orderCount, toNumber);
      existing.Some? && submitted.Some? && Abs(existing.value - submitted.value) < 3.0
  }

  /** `anonymizedData?.orders?.length || 0`. */
  function SubmittedOrderCount(anonymizedData: Option<Json>): Json
  {
    OrZero(Get(anonymizedData, ["orders", "length"]))
  }

  /** A contribution that blocks the submission for 24 hours: recent, of the same type, and of similar size. */
  function RecentAndSimilar(dataType: Option<Json>, anonymizedData: Option<Json>, now: int, time: Option<Json> -> int,
                            toNumber: Json -> Option<real>): DbStorage.Row -> bool
  {
    Seqs.Both(IsRecent(dataType, now, time), IsSimilar(SubmittedOrderCount(anonymizedData), toNumber))
  }

  /**
   * The first recent contribution of the same type whose order count is within 2 of the submitted one:
   * `.filter` by type and age, then `.find` by size.
   */
  function SimilarRecent(contributions: seq<DbStorage.Row>, dataType: Option<Json>, anonymizedData: Option<Json>,
                         now: int, time: Option<Json> -> int, toNumber: Json -> Option<real>): (r: Option<DbStorage.Row>)
    ensures r.Some? ==> exists i :: 0 <= i < |contributions| && contributions[i] == r.value
                          && RecentAndSimilar(dataType, anonymizedData, now, time, toNumber)(contributions[i])
                          && forall j :: 0 <= j < i ==> !RecentAndSimilar(dataType, anonymizedData, now, time, toNumber)(contributions[j])
    ensures r.None? <==> forall i :: 0 <= i < |contributions| ==>
              !RecentAndSimilar(dataType, anonymizedData, now, time, toNumber)(contributions[i])
  {
    var recent := Seqs.Filter(contributions, IsRecent(dataType, now, time));
    Seqs.FindFiltered(contributions, IsRecent(dataType, now, time), IsSimilar(SubmittedOrderCount(anonymizedData), toNumber));
    Seqs.Find(recent, IsSimilar(SubmittedOrderCount(anonymizedData), toNumber))
  }

  /** A blocking contribution is recent, of the submitted type, and of similar size. */
  lemma RecentAndSimilarMeans(c: DbStorage.Row, dataType: Option<Json>, anonymizedData: Option<Json>, now: int,
                              time: Option<Json> -> int, toNumber: Json -> Option<real>)
    ensures RecentAndSimilar(dataType, anonymizedData, now, time, toNumber)(c) <==>
              StrictEquals(DbStorage.Col(c, DbStorage.DataTypeField), dataType)
              && now - time(DbStorage.Col(c, DbStorage.CreatedAtField)) < DayMillis
              && IsSimilar(SubmittedOrderCount(anonymizedData), toNumber)(c)
  {
  }

  /**
   * Two order counts are similar when they differ by less than 3; a stored contribution whose
   * data has no `orderCount` counts as 0 orders, and so does a submission without an order list.
   */
  lemma SimilarOrderCounts(c: DbStorage.Row, stored: real, orders: seq<Json>, rest: map<string, Json>,
                           toNumber: Json -> Option<real>)
    ensures var anonymizedData := Some(Obj(rest["orders" := Arr(orders)]));
            DbStorage.Col(c, DataField) == Some(Obj(map["orderCount" := Num(stored)])) && stored != 0.0 ==>
              (IsSimilar(SubmittedOrderCount(anonymizedData), toNumber)(c) <==> Abs(stored - |orders| as real) < 3.0)
    ensures DbStorage.Col(c, DataField).None? ==> IsSimilar(SubmittedOrderCount(None), toNumber)(c)
  {
    var anonymizedData := Some(Obj(rest["orders" := Arr(orders)]));
    assert Get(anonymizedData, ["orders", "length"]) == Get(Some(Arr(orders)), ["length"]);
    assert Get(Some(Arr(orders)), ["length"]) == Some(Num(|orders| as real));
  }

  /** Why `/contribute` turned a submission away. */
  datatype Rejection =
    | DuplicateSubmission(existingContributionId: Option<Json>)  // 409
    | RateLimited(retryAfter: int)                              // 429, a time in epoch milliseconds

  /**
   * The two checks of `/contribute` against the user's contributions (newest first): first the
   * proof id, then the 24-hour content check, whose `retryAfter` is a day after the match.
   */
  function CheckDuplicates(contributions: seq<DbStorage.Row>, proofId: Option<Json>, dataType: Option<Json>,
                           anonymizedData: Option<Json>, now: int, time: Option<Json> -> int,
                           toNumber: Json -> Option<real>): (r: Option<Rejection>)
    ensures (r.Some? && r.value.DuplicateSubmission?) <==> DuplicateProof(contributions, proofId).Some?
    ensures r.Some? && r.value.DuplicateSubmission? ==>
              r.value.existingContributionId == DbStorage.Col(DuplicateProof(contributions, proofId).value, IdField)
    ensures (r.Some? && r.value.RateLimited?) <==>
              DuplicateProof(contributions, proofId).None?
              && SimilarRecent(contributions, dataType, anonymizedData, now, time, toNumber).Some?
    ensures r.Some? && r.value.RateLimited? ==>
              r.value.retryAfter
              == time(DbStorage.Col(SimilarRecent(contributions, dataType, anonymizedData, now, time, toNumber).value,
                                    DbStorage.CreatedAtField)) + DayMillis
  {
    match DuplicateProof(contributions, proofId)
    case Some(c) => Some(DuplicateSubmission(DbStorage.Col(c, IdField)))
    case None =>
      match SimilarRecent(contributions, dataType, anonymizedData, now, time, toNumber)
      case Some(c) => Some(RateLimited(time(DbStorage.Col(c, DbStorage.CreatedAtField)) + DayMillis))
      case None => None
  }

  /**
   * A submission repeating an earlier contribution's primitive proof id is refused with 409,
   * whatever its content and however long ago the earlier one was.
   */
  lemma RepeatedProofRefused(contributions: seq<DbStorage.Row>, i: nat, proofId: Option<Json>, dataType: Option<Json>,
                             anonymizedData: Option<Json>, now: int, time: Option<Json> -> int,
                             toNumber: Json -> Option<real>)
    requires i < |contributions| && Truthy(proofId) && !proofId.value.Arr? && !proofId.value.Obj?
    requires DbStorage.Col(contributions[i], ProofField) == proofId
    ensures var r := CheckDuplicates(contributions, proofId, dataType, anonymizedData, now, time, toNumber);
            r.Some? && r.value.DuplicateSubmission?
  {
    assert SameProof(proofId)(contributions[i]);
  }

  // ---------------------------------------------------------------------------
  // Size of a submission and its points

  /** `v > bound` for a number `bound`: both sides as numbers, false when `v` is `NaN`. */
  predicate Above(v: Option<real>, bound: int)
  {
    v.Some? && v.value > bound as real
  }

  const ZomatoLargeOrders: int := 10
  const GithubLargeContributions: int := 50
  const NetflixLargeTitles: int := 20

  /** `sd?.transaction_data?.summary?.total_orders || anonymizedData?.orders?.length || 0`. */
  function OrderCount(sellableData: Option<Json>, anonymizedData: Option<Json>): Json
  {
    OrZero(Or(Get(sellableData, ["transaction_data", "summary", "total_orders"]), Get(anonymizedData, ["orders", "length"])))
  }

  /** `sd?.viewing_summary?.total_titles_watched || anonymizedData?.watchHistory?.length || 0`. */
  function NetflixTitles(sellableData: Option<Json>, anonymizedData: Option<Json>): Json
  {
    OrZero(Or(Get(sellableData, ["viewing_summary", "total_titles_watched"]), Get(anonymizedData, ["watchHistory", "length"])))
  }

  /**
   * `sd?.activity_metrics?.yearly_contributions || parseInt(anonymizedData?.contributionsLastYear || '0', 10)`,
   * as the number the comparison reads.
   */
  function GithubContributions(sellableData: Option<Json>, anonymizedData: Option<Json>,
                               toText: Json -> string, toNumber: Json -> Option<real>): Option<real>
  {
    var yearly := Get(sellableData, ["activity_metrics", "yearly_contributions"]);
    if Truthy(yearly) then NumberOf(yearly.value, toNumber)
    else
      match DbStorage.ParseIntJson(Or(Get(anonymizedData, ["contributionsLastYear"]), Some(Str("0"))).value, toText)
      case Some(n) => Some(n as real)
      case None => None
  }

  /** Whether a submission counts as large: more than 10 orders, 50 contributions or 20 titles, by type. */
  function IsLargeData(dataType: Option<string>, sellableData: Option<Json>, anonymizedData: Option<Json>,
                       toText: Json -> string, toNumber: Json -> Option<real>): (large: bool)
    ensures large ==> dataType.Some? && dataType.value in {DbStorage.ZomatoType, DbStorage.NetflixType, DbStorage.GithubType}
  {
    if dataType == Some(DbStorage.ZomatoType) then
      Above(NumberOf(OrderCount(sellableData, anonymizedData), toNumber), ZomatoLargeOrders)
    else if dataType == Some(DbStorage.GithubType) then
      Above(GithubContributions(sellableData, anonymizedData, toText, toNumber), GithubLargeContributions)
    else if dataType == Some(DbStorage.NetflixType) then
      Above(NumberOf(NetflixTitles(sellableData, anonymizedData), toNumber), NetflixLargeTitles)
    else false
  }

  /**
   * Without a truthy summary count, a Zomato submission is large exactly when its raw order
   * list has more than ten entries.
   */
  lemma RawOrdersDecideZomato(sellableData: Option<Json>, orders: seq<Json>, rest: map<string, Json>,
                              toText: Json -> string, toNumber: Json -> Option<real>)
    requires !Truthy(Get(sellableData, ["transaction_data", "summary", "total_orders"]))
    ensures var anonymizedData := Some(Obj(rest["orders" := Arr(orders)]));
            IsLargeData(Some(DbStorage.ZomatoType), sellableData, anonymizedData, toText, toNumber) <==> |orders| > ZomatoLargeOrders
  {
    var anonymizedData := Some(Obj(rest["orders" := Arr(orders)]));
    assert Get(anonymizedData, ["orders", "length"]) == Get(Some(Arr(orders)), ["length"]);
    assert Get(Some(Arr(orders)), ["length"]) == Some(Num(|orders| as real));
  }

  /** A truthy summary count from the pipeline decides a Zomato submission alone, whatever the raw data. */
  lemma SummaryCountDecidesZomato(sellableData: Option<Json>, anonymizedData: Option<Json>, n: real,
                                  toText: Json -> string, toNumber: Json -> Option<real>)
    requires Get(sellableData, ["transaction_data", "summary", "total_orders"]) == Some(Num(n)) && n != 0.0
    ensures IsLargeData(Some(DbStorage.ZomatoType), sellableData, anonymizedData, toText, toNumber) <==> n > ZomatoLargeOrders as real
  {
  }

  /** A truthy title count from the pipeline decides a Netflix submission alone, whatever the raw data. */
  lemma TitleCountDecidesNetflix(sellableData: Option<Json>, anonymizedData: Option<Json>, n: real,
                                 toText: Json -> string, toNumber: Json -> Option<real>)
    requires Get(sellableData, ["viewing_summary", "total_titles_watched"]) == Some(Num(n)) && n != 0.0
    ensures IsLargeData(Some(DbStorage.NetflixType), sellableData, anonymizedData, toText, toNumber) <==> n > NetflixLargeTitles as real
  {
  }

  /**
   * Without a truthy title count, a Netflix submission is large exactly when its raw watch
   * history has more than twenty entries.
   */
  lemma WatchHistoryDecidesNetflix(sellableData: Option<Json>, history: seq<Json>, rest: map<string, Json>,
                                   toText: Json -> string, toNumber: Json -> Option<real>)
    requires !Truthy(Get(sellableData, ["viewing_summary", "total_titles_watched"]))
    ensures var anonymizedData := Some(Obj(rest["watchHistory" := Arr(history)]));
            IsLargeData(Some(DbStorage.NetflixType), sellableData, anonymizedData, toText, toNumber) <==> |history| > NetflixLargeTitles
  {
    var anonymizedData := Some(Obj(rest["watchHistory" := Arr(history)]));
    assert Get(anonymizedData, ["watchHistory", "length"]) == Get(Some(Arr(history)), ["length"]);
    assert Get(Some(Arr(history)), ["length"]) == Some(Num(|history| as real));
  }

  /** A truthy yearly count from the pipeline decides a GitHub submission alone, whatever the raw data. */
  lemma YearlyCountDecidesGithub(sellableData: Option<Json>, anonymizedData: Option<Json>, n: real,
                                 toText: Json -> string, toNumber: Json -> Option<real>)
    requires Get(sellableData, ["activity_metrics", "yearly_contributions"]) == Some(Num(n)) && n != 0.0
    ensures IsLargeData(Some(DbStorage.GithubType), sellableData, anonymizedData, toText, toNumber) <==> n > GithubLargeContributions as real
  {
  }

  /**
   * Without a yearly count from the pipeline, a GitHub submission whose `contributionsLastYear`
   * is the decimal text of `n` is large exactly when `n > 50`.
   */
  lemma ContributionTextDecidesGithub(sellableData: Option<Json>, n: nat, rest: map<string, Json>,
                                      toText: Json -> string, toNumber: Json -> Option<real>)
    requires !Truthy(Get(sellableData, ["activity_metrics", "yearly_contributions"]))
    ensures var anonymizedData := Some(Obj(rest["contributionsLastYear" := Str(Numerals.NatToString(n))]));
            IsLargeData(Some(DbStorage.GithubType), sellableData, anonymizedData, toText, toNumber) <==> n > GithubLargeContributions
  {
    var text := Numerals.NatToString(n);
    var anonymizedData := Some(Obj(rest["contributionsLastYear" := Str(text)]));
    assert Get(anonymizedData, ["contributionsLastYear"]) == Some(Str(text));
    Numerals.ParseIntNatToString(n, true);
    GithubTextCount(sellableData, anonymizedData, text, n, toText, toNumber);
  }

  /** Without a yearly count, the GitHub contribution count is the decimal reading of the raw text. */
  lemma GithubTextCount(sellableData: Option<Json>, anonymizedData: Option<Json>, text: string, k: int,
                        toText: Json -> string, toNumber: Json -> Option<real>)
    requires !Truthy(Get(sellableData, ["activity_metrics", "yearly_contributions"]))
    requires Get(anonymizedData, ["contributionsLastYear"]) == Some(Str(text)) && |text| >= 1
    requires Numerals.ParseInt(text, true) == Some(k)
    ensures GithubContributions(sellableData, anonymizedData, toText, toNumber) == Some(k as real)
  {
    assert Truthy(Some(Str(text)));
  }

  /** `isLargeData ? 20 : 10`, the same rule `addContribution` applies to the flag. */
  function IntakePoints(large: bool): nat
  {
    if large then DbStorage.LargeDataPoints else DbStorage.SmallDataPoints
  }

  const IntakeGold: int := 100
  const IntakeSilver: int := 50

  /**
   * The league the intake route stores: Gold from 100 points, Silver from 50, else Bronze.
   * It is not `calculateLeague`, whose ladder starts Silver at 200.
   */
  function IntakeLeague(totalPoints: int): (l: RewardService.League)
    ensures l in {RewardService.Bronze, RewardService.Silver, RewardService.Gold}
    ensures l == RewardService.Gold <==> totalPoints >= IntakeGold
    ensures l == RewardService.Bronze <==> totalPoints < IntakeSilver
  {
    if totalPoints >= IntakeGold then RewardService.Gold
    else if totalPoints >= IntakeSilver then RewardService.Silver
    else RewardService.Bronze
  }

  /** More points never mean a lower intake league. */
  lemma IntakeLeagueMonotone(p: int, q: int)
    requires p <= q
    ensures RewardService.Rank(IntakeLeague(p)) <= RewardService.Rank(IntakeLeague(q))
  {
  }

  /**
   * The intake league is at least the `calculateLeague` one exactly below 2000 points, where
   * the five-tier ladder moves past Gold; at 100 points the two already differ.
   */
  lemma IntakeLeagueVersusLadder(totalPoints: int)
    ensures RewardService.Rank(IntakeLeague(totalPoints)) >= RewardService.Rank(RewardService.CalculateLeague(totalPoints))
            <==> totalPoints < 2000
    ensures IntakeLeague(IntakeGold) == RewardService.Gold && RewardService.CalculateLeague(IntakeGold) == RewardService.Bronze
  {
  }

  // ---------------------------------------------------------------------------
  // Tags and k-anonymity

  const EnterprisePipelineTag: string := "enterprise_pipeline"
  const Sellable: string := "sellable"
  const PendingMoreContributors: string := "pending_more_contributors"

  /** `sellableData ? 'enterprise_pipeline' : 'raw'`. */
  function ProcessingMethodTag(sellableData: Option<Json>): (tag: string)
    ensures tag == EnterprisePipelineTag <==> Truthy(sellableData)
    ensures tag == DbHelpers.RawMethod <==> !Truthy(sellableData)
  {
    if Truthy(sellableData) then EnterprisePipelineTag else DbHelpers.RawMethod
  }

  /** `!kAnonymityCompliant ? 'pending_more_contributors' : 'sellable'`. */
  function AggregationStatus(compliant: bool): (status: string)
    ensures status == Sellable <==> compliant
  {
    if compliant then Sellable else PendingMoreContributors
  }

  /** The own properties `{...v}` copies from a JSON value that is an object (others add none here). */
  function Fields(v: Option<Json>): map<string, Json>
  {
    if v.Some? && v.value.Obj? then v.value.fields else map[]
  }

  /** The keys the k-anonymity step writes into `privacy_compliance`. */
  const StatusKeys: set<string> := {"k_anonymity_compliant", "cohort_size", "aggregation_status"}

  /**
   * `{...privacy_compliance, k_anonymity_compliant, cohort_size, aggregation_status}`: the
   * three status properties over a copy of the old block.
   */
  function MergeStatus(privacy: Option<Json>, compliant: bool, cohortSize: int): (status: map<string, Json>)
    ensures status.Keys == Fields(privacy).Keys + StatusKeys
    ensures status["k_anonymity_compliant"] == Bool(compliant)
    ensures status["cohort_size"] == Num(cohortSize as real)
    ensures status["aggregation_status"] == Str(AggregationStatus(compliant))
    ensures forall k :: k in status && k !in StatusKeys ==> status[k] == Fields(privacy)[k]
  {
    Fields(privacy)["k_anonymity_compliant" := Bool(compliant)]
                   ["cohort_size" := Num(cohortSize as real)]
                   ["aggregation_status" := Str(AggregationStatus(compliant))]
  }

  /**
   * `{...sd, metadata: {...sd.metadata, privacy_compliance: {...}}}`: the status block is
   * merged two levels down, and every other property on the way is copied.
   */
  function WithPrivacyStatus(sellableData: Json, compliant: bool, cohortSize: int): (r: Json)
    ensures r.Obj? && r.fields.Keys == Fields(Some(sellableData)).Keys + {"metadata"}
    ensures forall k :: k in r.fields && k != "metadata" ==> r.fields[k] == Fields(Some(sellableData))[k]
    ensures var m := r.fields["metadata"];
            m.Obj? && m.fields.Keys == Fields(Member(sellableData, "metadata")).Keys + {"privacy_compliance"}
            && (forall k :: k in m.fields && k != "privacy_compliance" ==> m.fields[k] == Fields(Member(sellableData, "metadata"))[k])
            && m.fields["privacy_compliance"] == Obj(MergeStatus(Get(Member(sellableData, "metadata"), ["privacy_compliance"]), compliant, cohortSize))
  {
    var metadata := Member(sellableData, "metadata");
    var status := MergeStatus(Get(metadata, ["privacy_compliance"]), compliant, cohortSize);
    var middle := Fields(metadata)["privacy_compliance" := Obj(status)];
    Obj(Fields(Some(sellableData))["metadata" := Obj(middle)])
  }

  /** The merged record carries the new status and leaves every other property of the sellable data as it was. */
  lemma PrivacyStatusMerged(sellableData: Json, compliant: bool, cohortSize: int, key: string)
    requires sellableData.Obj?
    ensures var updated := Some(WithPrivacyStatus(sellableData, compliant, cohortSize));
            && Get(updated, ["metadata", "privacy_compliance", "aggregation_status"]) == Some(Str(AggregationStatus(compliant)))
            && Get(updated, ["metadata", "privacy_compliance", "k_anonymity_compliant"]) == Some(Bool(compliant))
            && Get(updated, ["metadata", "privacy_compliance", "cohort_size"]) == Some(Num(cohortSize as real))
            && (key != "metadata" ==> Get(updated, [key]) == Get(Some(sellableData), [key]))
  {
    var metadata := Member(sellableData, "metadata");
    var privacy := Get(metadata, ["privacy_compliance"]);
    var status := MergeStatus(privacy, compliant, cohortSize);
    var middle := Fields(metadata)["privacy_compliance" := Obj(status)];
    var outer := Fields(Some(sellableData))["metadata" := Obj(middle)];
    assert WithPrivacyStatus(sellableData, compliant, cohortSize) == Obj(outer);
    NestedGet(outer, middle, status, "metadata", "privacy_compliance", "aggregation_status");
    NestedGet(outer, middle, status, "metadata", "privacy_compliance", "k_anonymity_compliant");
    NestedGet(outer, middle, status, "metadata", "privacy_compliance", "cohort_size");
    if key != "metadata" {
      GetStep(outer, key, []);
      GetStep(sellableData.fields, key, []);
      assert [key] + [] == [key];
    }
  }


  /** What the k-anonymity step leaves behind: the counters, the reported size and compliance, and the rewrite. */
  datatype CohortStep = CohortStep(
    registry: CohortService.Registry,
    cohortSize: int,
    compliant: Option<bool>,          // `null` when the submission names no cohort
    rewritten: Option<Json>)          // the sellable data written back, when it has a privacy block

  /** The cohort key `incrementCohort` is called with: the segment id as text. */
  function CohortKey(cohortId: Json, toText: Json -> string): string
  {
    if cohortId.Str? then cohortId.s else toText(cohortId)
  }

  /**
   * The k-anonymity step of `/contribute`: a truthy `audience_segment.segment_id` is counted
   * once more, and the size and compliance reported are the counter's; a sellable record with a
   * truthy `metadata.privacy_compliance` is rewritten with them.
   */
  function KAnonymityStep(reg: CohortService.Registry, sellableData: Option<Json>, now: int, toText: Json -> string): (r: CohortStep)
    ensures !Truthy(Get(sellableData, ["audience_segment", "segment_id"])) ==> r == CohortStep(reg, 0, None, None)
    ensures r.compliant.Some? ==> (r.compliant.value <==> r.cohortSize >= CohortService.K_THRESHOLD)
    ensures Truthy(Get(sellableData, ["audience_segment", "segment_id"])) ==>
              r.compliant.Some?
              && r.registry.Keys == reg.Keys + {CohortKey(Get(sellableData, ["audience_segment", "segment_id"]).value, toText)}
    ensures r.rewritten.Some? ==> r.compliant.Some? && Truthy(Get(sellableData, ["metadata", "privacy_compliance"]))
  {
    var cohortId := Get(sellableData, ["audience_segment", "segment_id"]);
    if !Truthy(cohortId) then CohortStep(reg, 0, None, None)
    else
      var inc := CohortService.Increment(reg, CohortKey(cohortId.value, toText), now);
      var rewritten := if Truthy(Get(sellableData, ["metadata", "privacy_compliance"]))
                       then Some(WithPrivacyStatus(sellableData.value, inc.record.compliant, inc.record.count))
                       else None;
      CohortStep(inc.registry, inc.record.count, Some(inc.record.compliant), rewritten)
  }

  /**
   * The tenth contribution to a cohort is the first to be marked sellable: a rewritten record
   * says `sellable` exactly when the cohort's new count reaches the k-anonymity threshold.
   */
  lemma SellableOnceCohortIsLarge(reg: CohortService.Registry, sellableData: Option<Json>, now: int, toText: Json -> string)
    requires Truthy(Get(sellableData, ["audience_segment", "segment_id"]))
    requires Truthy(Get(sellableData, ["metadata", "privacy_compliance"]))
    ensures var step := KAnonymityStep(reg, sellableData, now, toText);
            var key := CohortKey(Get(sellableData, ["audience_segment", "segment_id"]).value, toText);
            var before := if key in reg then reg[key].count else 0;
            && step.cohortSize == before + 1
            && step.rewritten.Some?
            && (Get(step.rewritten, ["metadata", "privacy_compliance", "aggregation_status"]) == Some(Str(Sellable))
                <==> before + 1 >= CohortService.K_THRESHOLD)
  {
    var step := KAnonymityStep(reg, sellableData, now, toText);
    assert sellableData.Some? && sellableData.value.Obj?;
    PrivacyStatusMerged(sellableData.value, step.compliant.value, step.cohortSize, "metadata");
  }

  // ---------------------------------------------------------------------------
  // Pagination of /enterprise/data

  /** `parseInt(s) || fallback` for an optional query parameter: a missing, unreadable or zero value gives the fallback. */
  function IntOr(s: Option<string>, fallback: int): (r: int)
    ensures s.None? ==> r == fallback
    ensures s.Some? && Numerals.ParseInt(s.value, false).Some? && Numerals.ParseInt(s.value, false).value != 0
            ==> r == Numerals.ParseInt(s.value, false).value
  {
    if s.None? then fallback
    else match Numerals.ParseInt(s.value, false)
      case Some(n) => if n != 0 then n else fallback
      case None => fallback
  }

  /** A `slice` bound: negative bounds count from the end, and both are clamped to the length. */
  function SliceBound(i: int, length: nat): (r: nat)
    ensures r <= length
    ensures 0 <= i <= length ==> r == i
  {
    if i < 0 then (if length + i < 0 then 0 else length + i)
    else if i > length then length
    else i
  }

  /** `Array.prototype.slice(start, end)`. */
  function Slice<T>(s: seq<T>, start: int, end: int): (r: seq<T>)
    ensures SliceBound(start, |s|) + |r| <= |s|
    ensures forall k :: 0 <= k < |r| ==> r[k] == s[SliceBound(start, |s|) + k]
    ensures 0 <= start && start <= end ==> |r| <= end - start
  {
    var a, b := SliceBound(start, |s|), SliceBound(end, |s|);
    if a < b then s[a..b] else []
  }

  const DefaultLimit: int := 100

  /** The `/enterprise/data` answer: one page of the rows, the number of rows in all, and the window it reports. */
  datatype Page<T> = Page(data: seq<T>, total: nat, offset: int, limit: int)

  function HasDataType(dataType: string): DbStorage.Row -> bool
  {
    (d: DbStorage.Row) => DbStorage.Col(d, DbStorage.DataTypeField) == Some(Str(dataType))
  }

  /** The rows `/enterprise/data` pages through: all of them, or those of a non-empty `dataType`. */
  function Selected(rows: seq<DbStorage.Row>, dataType: Option<string>): seq<DbStorage.Row>
  {
    if Text.Present(dataType) then Seqs.Filter(rows, HasDataType(dataType.value)) else rows
  }

  /**
   * `GET /enterprise/data`: `start = parseInt(offset) || 0`, `end = start + (parseInt(limit) || 100)`,
   * the page is `data.slice(start, end)`, and the reported limit is `end - start`.
   */
  function EnterpriseData(rows: seq<DbStorage.Row>, limit: Option<string>, offset: Option<string>,
                          dataType: Option<string>): (page: Page<DbStorage.Row>)
    ensures page.total == |Selected(rows, dataType)|
    ensures forall k :: 0 <= k < |page.data| ==> page.data[k] in Selected(rows, dataType)
    ensures Text.Present(dataType) ==> forall k :: 0 <= k < |page.data| ==> HasDataType(dataType.value)(page.data[k])
    ensures offset.None? ==> page.offset == 0
    ensures limit.None? ==> page.limit == DefaultLimit
    ensures page.offset >= 0 && page.limit >= 0 ==> |page.data| <= page.limit
  {
    var data := Selected(rows, dataType);
    var start := IntOr(offset, 0);
    var end := start + IntOr(limit, DefaultLimit);
    var paged := Slice(data, start, end);
    assert forall k :: 0 <= k < |paged| ==> paged[k] in data;
    Page(paged, |data|, start, end - start)
  }

  /** With decimal parameters, the page is the window `[offset, offset + limit)` of the rows, cut at their end. */
  lemma EnterpriseDataWindow(rows: seq<DbStorage.Row>, limit: nat, offset: nat)
    requires limit > 0
    ensures var page := EnterpriseData(rows, Some(Numerals.NatToString(limit)), Some(Numerals.NatToString(offset)), None);
            var from := if offset < |rows| then offset else |rows|;
            var to := if offset + limit < |rows| then offset + limit else |rows|;
            && page.data == rows[from..to]
            && page.total == |rows| && page.offset == offset && page.limit == limit
  {
    var lim, off := Some(Numerals.NatToString(limit)), Some(Numerals.NatToString(offset));
    IntOrRendered(limit, DefaultLimit);
    IntOrRendered(offset, 0);
    EnterpriseDataPage(rows, lim, off, offset, limit);
    SliceWindow(rows, offset, offset + limit);
  }

  /** A rendered natural reads back through `IntOr`, except that zero falls back. */
  lemma IntOrRendered(n: nat, fallback: int)
    requires n > 0 || fallback == 0
    ensures IntOr(Some(Numerals.NatToString(n)), fallback) == n
  {
    Numerals.ParseIntNatToString(n, false);
  }

  /** Without a data type, the page is the slice of all rows from the offset to the offset plus the limit. */
  lemma EnterpriseDataPage(rows: seq<DbStorage.Row>, limit: Option<string>, offset: Option<string>,
                           start: int, size: int)
    requires IntOr(offset, 0) == start && IntOr(limit, DefaultLimit) == size
    ensures EnterpriseData(rows, limit, offset, None) == Page(Slice(rows, start, start + size), |rows|, start, size)
  {
  }

  /** Slicing with in-order non-negative bounds clamps both bounds to the length. */
  lemma SliceWindow<T>(s: seq<T>, start: nat, end: nat)
    requires start <= end
    ensures var from := if start < |s| then start else |s|;
            var to := if end < |s| then end else |s|;
            Slice(s, start, end) == s[from..to]
  {
  }

  /**
   * A negative limit counts back from the end: with `limit=-n` the page is every row but the
   * last `n`, and the reported limit is `-n`.
   */
  lemma NegativeLimitCountsFromEnd(rows: seq<DbStorage.Row>, n: nat)
    requires 1 <= n <= |rows|
    ensures var page := EnterpriseData(rows, Some("-" + Numerals.NatToString(n)), None, None);
            page.data == rows[..|rows| - n] && page.limit == -(n as int)
  {
    var limit := "-" + Numerals.NatToString(n);
    NegativeIntOr(n);
    EnterpriseDataPage(rows, Some(limit), None, 0, -(n as int));
    assert EnterpriseData(rows, Some(limit), None, None).data == Slice(rows, 0, -(n as int));
    SliceFromEnd(rows, n);
  }

  /** A negative end bound counts back from the end of the sequence. */
  lemma SliceFromEnd<T>(s: seq<T>, n: nat)
    requires 1 <= n <= |s|
    ensures Slice(s, 0, -(n as int)) == s[..|s| - n]
  {
    assert SliceBound(-(n as int), |s|) == |s| - n;
  }

  /** A minus sign before a rendered positive number reads back through `IntOr` as its negation. */
  lemma NegativeIntOr(n: nat)
    requires n >= 1
    ensures IntOr(Some("-" + Numerals.NatToString(n)), DefaultLimit) == -(n as int)
  {
    Numerals.ParseIntNegative(n, false);
  }

  // ---------------------------------------------------------------------------
  // POST /contribute

  /** The stored user the handler works with. */
  datatype User = User(id: Json, walletAddress: Option<Json>, totalPoints: Option<int>)

  /** The body fields the handler reads. */
  datatype Submission = Submission(anonymizedData: Option<Json>, dataType: Option<string>, reclaimProofId: Option<Json>)

  /** What the data type's pipeline produced, when it ran and succeeded. */
  datatype PipelineResult = PipelineResult(sellableData: Option<Json>, processedData: Option<Json>, insights: Option<Json>)

  /** The three values the pipelines leave for storage. */
  datatype Prepared = Prepared(sellableData: Option<Json>, processedData: Option<Json>, insights: Option<Json>)

  /**
   * Storage starts from `sellableData = null`, the raw data and `behavioralInsights = null`; a
   * successful Zomato pipeline replaces all three, the GitHub and Netflix ones the first two.
   */
  function Prepare(dataType: Option<string>, anonymizedData: Option<Json>, pipeline: Option<PipelineResult>): (p: Prepared)
    ensures pipeline.None? ==> p == Prepared(Some(Null), anonymizedData, Some(Null))
    ensures dataType.None? || dataType.value !in {DbStorage.ZomatoType, DbStorage.NetflixType, DbStorage.GithubType}
            ==> p == Prepared(Some(Null), anonymizedData, Some(Null))
    ensures dataType != Some(DbStorage.ZomatoType) ==> p.insights == Some(Null)
  {
    if pipeline.None? then Prepared(Some(Null), anonymizedData, Some(Null))
    else if dataType == Some(DbStorage.ZomatoType) then
      Prepared(pipeline.value.sellableData, pipeline.value.processedData, pipeline.value.insights)
    else if dataType == Some(DbStorage.GithubType) || dataType == Some(DbStorage.NetflixType) then
      Prepared(pipeline.value.sellableData, pipeline.value.processedData, Some(Null))
    else Prepared(Some(Null), anonymizedData, Some(Null))
  }

  /** A submission's data type as the JSON value the duplicate check compares. */
  function DataTypeValue(dataType: Option<string>): Option<Json>
  {
    if dataType.Some? then Some(Str(dataType.value)) else None
  }

  /** The `UPDATE … SET sellable_data` of the k-anonymity step. */
  datatype SellableRewrite = SellableRewrite(table: string, contributionId: string, sellableData: DbHelpers.SqlValue)

  /** An accepted submission: what was stored, the points and league the user now has, and the cohort step. */
  datatype Intake = Intake(
    added: DbStorage.Added,
    large: bool,
    totalPoints: int,
    league: RewardService.League,
    cohort: CohortStep,
    rewrite: Option<SellableRewrite>)

  datatype ContributeOutcome =
    | NoUser                              // 404
    | MissingData                         // 400, `anonymizedData` falsy
    | Rejected(rejection: Rejection)      // 409 or 429
    | StorageFailed(message: string)      // 500, `addContribution` threw
    | Accepted(intake: Intake)

  /**
   * `POST /contribute`. The user's stored contributions, the pipeline's result, the cohort
   * counters, the clock, the new id and the table's columns come in as parameters.
   */
  function Contribute(user: Option<User>, sub: Submission, contributions: seq<DbStorage.Row>,
                      pipeline: Option<PipelineResult>, reg: CohortService.Registry, now: int,
                      contributionId: string, createdAt: string, existing: seq<string>,
                      layouts: DbStorage.Table -> ColumnRules.Layout,
                      toText: Json -> string, toNumber: Json -> Option<real>,
                      parse: string -> Option<Json>, time: Option<Json> -> int): (r: ContributeOutcome)
    requires DbStorage.ValidLayouts(layouts)
    ensures r == NoUser <==> user.None?
    ensures r == MissingData <==> user.Some? && !Truthy(sub.anonymizedData)
    ensures r.Rejected? <==> user.Some? && Truthy(sub.anonymizedData)
                             && CheckDuplicates(contributions, sub.reclaimProofId, DataTypeValue(sub.dataType),
                                                sub.anonymizedData, now, time, toNumber).Some?
    ensures r.Rejected? ==> Some(r.rejection) == CheckDuplicates(contributions, sub.reclaimProofId,
                                                                 DataTypeValue(sub.dataType), sub.anonymizedData,
                                                                 now, time, toNumber)
    ensures r.Accepted? ==> !Truthy(sub.reclaimProofId)
                            || forall i :: 0 <= i < |contributions| ==> !SameProof(sub.reclaimProofId)(contributions[i])
    ensures r.Accepted? || r.StorageFailed? ==>
              user.Some? && r == Store(user.value, sub, pipeline, reg, now, contributionId, createdAt, existing,
                                       layouts, toText, toNumber, parse)
  {
    if user.None? then NoUser
    else if !Truthy(sub.anonymizedData) then MissingData
    else
      match CheckDuplicates(contributions, sub.reclaimProofId, DataTypeValue(sub.dataType), sub.anonymizedData, now, time, toNumber)
      case Some(rejection) => Rejected(rejection)
      case None => Store(user.value, sub, pipeline, reg, now, contributionId, createdAt, existing, layouts,
                         toText, toNumber, parse)
  }

  /**
   * The part of `/contribute` after the duplicate checks: storage through `addContribution`,
   * which only the three table types survive, then the user's points and league and the
   * k-anonymity step.
   */
  function Store(user: User, sub: Submission, pipeline: Option<PipelineResult>, reg: CohortService.Registry,
                 now: int, contributionId: string, createdAt: string, existing: seq<string>,
                 layouts: DbStorage.Table -> ColumnRules.Layout,
                 toText: Json -> string, toNumber: Json -> Option<real>, parse: string -> Option<Json>): (r: ContributeOutcome)
    requires DbStorage.ValidLayouts(layouts)
    ensures r.Accepted? || r.StorageFailed?
    ensures r.Accepted? <==> sub.dataType.Some?
                             && sub.dataType.value in {DbStorage.ZomatoType, DbStorage.NetflixType, DbStorage.GithubType}
    ensures r.Accepted? ==> r.intake.added.pointsAwarded == IntakePoints(r.intake.large)
                            && r.intake.totalPoints == user.totalPoints.GetOr(0) + r.intake.added.pointsAwarded
                            && r.intake.league == IntakeLeague(r.intake.totalPoints)
    ensures r.Accepted? && r.intake.rewrite.Some? ==>
              r.intake.rewrite.value.table == r.intake.added.insert.table
              && r.intake.rewrite.value.contributionId == contributionId
              && r.intake.cohort.rewritten.Some?
              && r.intake.rewrite.value.sellableData == DbHelpers.JsonText(r.intake.cohort.rewritten.value)
  {
    var prepared := Prepare(sub.dataType, sub.anonymizedData, pipeline);
    var large := IsLargeData(sub.dataType, prepared.sellableData, sub.anonymizedData, toText, toNumber);
    var data := DbStorage.ContributionData(
      sub.dataType, user.walletAddress, prepared.processedData, prepared.sellableData, prepared.insights,
      sub.reclaimProofId, Some(Str(ProcessingMethodTag(prepared.sellableData))), Some(Bool(large)));
    DbStorage.ContributionTypeHasTable(data);
    var added := DbStorage.AddContributionWith(layouts, user.id, data, contributionId, createdAt, existing, toText, parse);
    if added.Failure? then StorageFailed(added.error)
    else Accepted(Admit(user, added.value, large, prepared.sellableData, reg, now, contributionId, toText))
  }

  /** The user's new total and league, and the k-anonymity step with its rewrite of the stored record. */
  function Admit(user: User, added: DbStorage.Added, large: bool, sellableData: Option<Json>,
                 reg: CohortService.Registry, now: int, contributionId: string, toText: Json -> string): (i: Intake)
    ensures i.added == added && i.large == large
    ensures i.totalPoints == user.totalPoints.GetOr(0) + added.pointsAwarded
    ensures i.league == IntakeLeague(i.totalPoints)
    ensures i.cohort == KAnonymityStep(reg, sellableData, now, toText)
    ensures i.rewrite.Some? <==> i.cohort.rewritten.Some?
    ensures i.rewrite.Some? ==> i.rewrite.value == SellableRewrite(added.insert.table, contributionId,
                                                                   DbHelpers.JsonText(i.cohort.rewritten.value))
  {
    var total := user.totalPoints.GetOr(0) + added.pointsAwarded;
    var cohort := KAnonymityStep(reg, sellableData, now, toText);
    var rewrite := if cohort.rewritten.Some?
                   then Some(SellableRewrite(added.insert.table, contributionId, DbHelpers.JsonText(cohort.rewritten.value)))
                   else None;
    Intake(added, large, total, IntakeLeague(total), cohort, rewrite)
  }

  /**
   * Once a contribution with a primitive proof id is stored, submitting the same proof again
   * is refused with 409 naming that contribution, whatever the new data.
   */
  lemma ResubmissionRefused(user: User, sub: Submission, stored: DbStorage.Row, contributions: seq<DbStorage.Row>,
                            pipeline: Option<PipelineResult>, reg: CohortService.Registry, now: int,
                            contributionId: string, createdAt: string, existing: seq<string>,
                            layouts: DbStorage.Table -> ColumnRules.Layout,
                            toText: Json -> string, toNumber: Json -> Option<real>,
                            parse: string -> Option<Json>, time: Option<Json> -> int)
    requires DbStorage.ValidLayouts(layouts)
    requires Truthy(sub.anonymizedData) && Truthy(sub.reclaimProofId)
    requires !sub.reclaimProofId.value.Arr? && !sub.reclaimProofId.value.Obj?
    requires DbStorage.Col(stored, ProofField) == sub.reclaimProofId
    ensures Contribute(Some(user), sub, [stored] + contributions, pipeline, reg, now, contributionId, createdAt,
                       existing, layouts, toText, toNumber, parse, time)
            == Rejected(DuplicateSubmission(DbStorage.Col(stored, IdField)))
  {
    var all := [stored] + contributions;
    assert SameProof(sub.reclaimProofId)(all[0]);
    var found := DuplicateProof(all, sub.reclaimProofId);
    assert found == Some(stored);
  }
}
