/**
 * The pure parts of `dbStorage.js`: table dispatch, the paired column and value lists that
 * `addContribution` assembles against the columns a table actually has, the JSONB value
 * normalisation `processValue`, the points rule, the per-cohort count merging and the
 * newest-first ordering of a user's contributions. Query execution is left out; rows and
 * existing columns come in as data.
 */
module DbStorage {
  import opened Wrappers
  import Seqs
  import Text
  import Numerals
  import opened Json
  import opened DbHelpers
  import Sorting
  import opened ColumnRules

  // ---------------------------------------------------------------------------
  // Tables

  const ZomatoType: string := "zomato_order_history"
  const NetflixType: string := "netflix_watch_history"
  const GithubType: string := "github_profile"

  /** `addContribution`'s data type when none is given, which no table accepts. */
  const GeneralType: string := "general"

  datatype Table = Zomato | Netflix | Github

  function TableName(t: Table): string
  {
    match t
    case Zomato => "zomato_contributions"
    case Netflix => "netflix_contributions"
    case Github => "github_contributions"
  }

  /** The data type stored in a table. */
  function DataTypeOf(t: Table): string
  {
    match t
    case Zomato => ZomatoType
    case Netflix => NetflixType
    case Github => GithubType
  }

  /** `getTableName(dataType)`; the thrown `Unknown dataType` error is a `Failure`. */
  function GetTableName(dataType: string): (r: Result<Table, string>)
    ensures r.Success? <==> dataType in {ZomatoType, NetflixType, GithubType}
    ensures r.Success? ==> DataTypeOf(r.value) == dataType
  {
    if dataType == ZomatoType then Success(Zomato)
    else if dataType == NetflixType then Success(Netflix)
    else if dataType == GithubType then Success(Github)
    else Failure("Unknown dataType: " + dataType)
  }

  /** Every table is found from its own data type, and the default `general` is rejected. */
  lemma TableNameRoundTrip(t: Table)
    ensures GetTableName(DataTypeOf(t)) == Success(t)
    ensures GetTableName(GeneralType).Failure?
  {
  }

  // ---------------------------------------------------------------------------
  // Column extraction rules

  /** The table's own columns and their rules, as `addContribution` lists them for each table. */
  function TableLayout(t: Table): (l: Layout)
    ensures ValidLayout(l)
  {
    match t
    case Github => GithubLayoutValid(); Layout(GithubColumns, GithubRuleList)
    case Netflix => NetflixLayoutValid(); Layout(NetflixColumns, NetflixRuleList)
    case Zomato => ZomatoLayoutValid(); Layout(ZomatoColumns, ZomatoRuleList)
  }

  /** A valid column layout for every table. */
  predicate ValidLayouts(layouts: Table -> Layout)
  {
    forall t: Table :: ValidLayout(layouts(t))
  }

  /** The layouts `addContribution` lists are valid ones. */
  lemma TableLayoutsValid()
    ensures ValidLayouts(TableLayout)
  {
    forall t: Table
      ensures ValidLayout(TableLayout(t))
    {
    }
  }

  // ---------------------------------------------------------------------------
  // Rule evaluation

  /** The `data` argument of `addContribution`; `None` is an absent property. */
  datatype ContributionData = ContributionData(
    dataType: Option<string>,
    walletAddress: Option<Json>,
    anonymizedData: Option<Json>,
    sellableData: Option<Json>,
    behavioralInsights: Option<Json>,
    reclaimProofId: Option<Json>,
    processingMethod: Option<Json>,
    isLargeData: Option<Json>)

  /** The value an optional-chaining path reaches. */
  function Lookup(p: Path, data: ContributionData): Option<Json>
  {
    Get(if p.root == Sellable then data.sellableData else data.anonymizedData, p.keys)
  }

  /** `p1 || p2 || … || fallback`: the first truthy value along the paths, else the fallback. */
  function FirstTruthy(paths: seq<Path>, fallback: Json, data: ContributionData): (r: Json)
    ensures r == fallback || exists i :: 0 <= i < |paths| && Lookup(paths[i], data) == Some(r) && Truthy(Some(r))
    ensures (forall i :: 0 <= i < |paths| ==> !Truthy(Lookup(paths[i], data))) ==> r == fallback
  {
    if |paths| == 0 then fallback
    else
      var v := Lookup(paths[0], data);
      if Truthy(v) then v.value
      else
        var r := FirstTruthy(paths[1..], fallback, data);
        assert forall i :: 0 <= i < |paths[1..]| ==> paths[1..][i] == paths[i + 1];
        r
  }

  /** `parseInt(v, 10)` as a bound value. */
  function ParseIntValue(v: Json, toText: Json -> string): (r: SqlValue)
    ensures r.Value? || r == NotANumber
  {
    match ParseIntJson(v, toText)
    case Some(n) => Value(Num(n as real))
    case None => NotANumber
  }

  /** `parseInt(v, 10)`; a non-string is first turned into text by `toText`, JavaScript's `String(v)`. `None` is `NaN`. */
  function ParseIntJson(v: Json, toText: Json -> string): Option<int>
  {
    Numerals.ParseInt(if v.Str? then v.s else toText(v), true)
  }

  /** The value a rule gives. */
  function Evaluate(rule: Rule, data: ContributionData, toText: Json -> string): SqlValue
  {
    match rule
    case FirstOf(paths, fallback) => Value(FirstTruthy(paths, fallback, data))
    case StringifyAt(p) => StringifiedOrNull(Lookup(p, data))
    case YearlyOrParsed =>
      var yearly := Lookup(S(["activity_metrics", "yearly_contributions"]), data);
      if Truthy(yearly) then Value(yearly.value)
      else ParseIntValue(Or(Get(data.anonymizedData, ["contributionsLastYear"]), Some(Str("0"))).value, toText)
  }

  /** Each rule evaluated against the same data. */
  function Evaluator(data: ContributionData, toText: Json -> string): Rule -> SqlValue
  {
    (r: Rule) => Evaluate(r, data, toText)
  }

  // ---------------------------------------------------------------------------
  // Column and value assembly

  /** The document stored as `sellable_data`: the sellable data when truthy, else `{}`. */
  function SellableDoc(data: ContributionData): (doc: Json)
    ensures doc != Null
  {
    if Truthy(data.sellableData) then data.sellableData.value else Obj(map[])
  }

  /** The values pushed for the eleven base columns of `InsertColumns`, in that order. */
  function BaseValues(userId: Json, data: ContributionData, contributionId: string, createdAt: string): (vs: seq<SqlValue>)
    ensures |vs| == |InsertColumns|
  {
    [ Value(Str(contributionId)),
      Value(userId),
      Value(Or(data.walletAddress, Some(Null)).value),
      if data.anonymizedData.None? then Undefined else JsonText(data.anonymizedData.value),
      JsonText(SellableDoc(data)),
      StringifiedOrNull(data.behavioralInsights),
      Value(Or(data.reclaimProofId, Some(Null)).value),
      Value(Or(data.processingMethod, Some(Str(RawMethod))).value),
      Value(Str(Verified)),
      Value(Str(createdAt)),
      Value(Str(createdAt)) ]
  }

  /** The values of a table's own columns. */
  function TableValues(l: Layout, data: ContributionData, toText: Json -> string): (vs: seq<SqlValue>)
    ensures |vs| == |l.rules|
  {
    Seqs.Map(l.rules, Evaluator(data, toText))
  }

  /** The columns `addContribution` may push: the base ones, then the table's own when `sd` is truthy. */
  function CandidateColumns(l: Layout, sellable: bool): seq<string>
  {
    InsertColumns + (if sellable then l.columns else [])
  }

  /** Every `(column, value)` pair `addContribution` would push if the table had every column. */
  function Candidates(l: Layout, userId: Json, data: ContributionData, contributionId: string, createdAt: string,
                      toText: Json -> string): (r: seq<(string, SqlValue)>)
    requires Aligned(l)
    ensures Seqs.Map(r, Seqs.Fst) == CandidateColumns(l, Truthy(data.sellableData))
  {
    var cols := CandidateColumns(l, Truthy(data.sellableData));
    var vals := CandidateValues(l, userId, data, contributionId, createdAt, toText);
    ZipFst(cols, vals);
    Seqs.Zip(cols, vals)
  }

  /** The values pushed with `CandidateColumns`: the base values, then the table's own. */
  function CandidateValues(l: Layout, userId: Json, data: ContributionData, contributionId: string, createdAt: string,
                           toText: Json -> string): (vs: seq<SqlValue>)
    requires Aligned(l)
    ensures |vs| == |CandidateColumns(l, Truthy(data.sellableData))|
    ensures forall k :: 0 <= k < |InsertColumns| ==> vs[k] == BaseValues(userId, data, contributionId, createdAt)[k]
  {
    var base := BaseValues(userId, data, contributionId, createdAt);
    if Truthy(data.sellableData) then base + TableValues(l, data, toText) else base
  }

  lemma ZipFst<A, B>(a: seq<A>, b: seq<B>)
    requires |a| == |b|
    ensures Seqs.Map(Seqs.Zip(a, b), Seqs.Fst) == a
  {
    var m := Seqs.Map(Seqs.Zip(a, b), Seqs.Fst);
    assert forall i :: 0 <= i < |a| ==> m[i] == a[i];
  }

  /** `columnList` and `valueList`. */
  datatype Assembly = Assembly(columns: seq<string>, values: seq<SqlValue>)

  /** The `includes`-guarded pushes of `addContribution`: the candidate pairs whose column the table has. */
  function Assemble(l: Layout, userId: Json, data: ContributionData, contributionId: string, createdAt: string,
                    toText: Json -> string, existing: seq<string>): (a: Assembly)
    requires Aligned(l)
    ensures |a.columns| == |a.values|
    ensures forall i :: 0 <= i < |a.columns| ==> a.columns[i] in existing
    ensures forall i :: 0 <= i < |a.columns| ==>
              (a.columns[i], a.values[i]) in Candidates(l, userId, data, contributionId, createdAt, toText)
  {
    var kept := Seqs.Filter(Candidates(l, userId, data, contributionId, createdAt, toText), Seqs.On(Seqs.Fst, ExistsIn(existing)));
    Assembly(Seqs.Map(kept, Seqs.Fst), Seqs.Map(kept, Seqs.Snd))
  }

  /** The pushed columns are the candidate columns the table has, in push order. */
  lemma AssembledColumns(l: Layout, userId: Json, data: ContributionData, contributionId: string, createdAt: string,
                         toText: Json -> string, existing: seq<string>)
    requires Aligned(l)
    ensures Assemble(l, userId, data, contributionId, createdAt, toText, existing).columns
         == Seqs.Filter(CandidateColumns(l, Truthy(data.sellableData)), ExistsIn(existing))
  {
    var all := Candidates(l, userId, data, contributionId, createdAt, toText);
    Seqs.MapFilterOn(all, Seqs.Fst, ExistsIn(existing));
  }

  /** Without truthy sellable data only base columns are pushed. */
  lemma NoTableColumnsWithoutSellableData(l: Layout, userId: Json, data: ContributionData, contributionId: string,
                                          createdAt: string, toText: Json -> string, existing: seq<string>)
    requires Aligned(l)
    requires !Truthy(data.sellableData)
    ensures forall c :: c in Assemble(l, userId, data, contributionId, createdAt, toText, existing).columns ==> c in InsertColumns
  {
    AssembledColumns(l, userId, data, contributionId, createdAt, toText, existing);
    assert CandidateColumns(l, false) == InsertColumns;
  }

  /** No column is pushed twice. */
  lemma AssembledColumnsDistinct(l: Layout, userId: Json, data: ContributionData, contributionId: string,
                                 createdAt: string, toText: Json -> string, existing: seq<string>)
    requires ValidLayout(l)
    ensures Seqs.Distinct(Assemble(l, userId, data, contributionId, createdAt, toText, existing).columns)
  {
    AssembledColumns(l, userId, data, contributionId, createdAt, toText, existing);
    CandidateColumnsDistinct(l, Truthy(data.sellableData));
    Seqs.FilterDistinct(CandidateColumns(l, Truthy(data.sellableData)), ExistsIn(existing));
  }

  /** The candidate columns of a valid layout are pairwise different. */
  lemma CandidateColumnsDistinct(l: Layout, sellable: bool)
    requires ValidLayout(l)
    ensures Seqs.Distinct(CandidateColumns(l, sellable))
  {
    InsertColumnsDistinct();
    if sellable {
      DistinctConcat(InsertColumns, l.columns);
    } else {
      assert CandidateColumns(l, sellable) == InsertColumns;
    }
  }

  lemma DistinctConcat(a: seq<string>, b: seq<string>)
    requires Seqs.Distinct(a) && Seqs.Distinct(b)
    requires NoneAmong(b, a)
    ensures Seqs.Distinct(a + b)
  {
    var ab := a + b;
    forall i, j | 0 <= i < j < |ab|
      ensures ab[i] != ab[j]
    {
      if j < |a| {
        assert ab[i] == a[i] && ab[j] == a[j];
      } else if i < |a| {
        assert ab[i] == a[i] && ab[j] == b[j - |a|];
        assert a[i] in a;
      } else {
        assert ab[i] == b[i - |a|] && ab[j] == b[j - |a|];
      }
    }
  }

  lemma InsertColumnsDistinct()
    ensures Seqs.Distinct(InsertColumns)
  {
  }

  // ---------------------------------------------------------------------------
  // JSONB normalisation

  /** The column that has a NOT NULL constraint. */
  const SellableColumn: string := "sellable_data"

  /**
   * `processValue(col, val)`. Text is parsed by `parse`, which is `JSON.parse` with `None` for
   * the text it rejects by throwing; the text `JSON.stringify(doc)` is parsed back to `doc`.
   */
  function ProcessValue(col: string, v: SqlValue, parse: string -> Option<Json>): (r: Result<SqlValue, string>)
    ensures col !in JsonbColumns ==> r == Success(v)
    ensures col in JsonbColumns && r.Success? ==> r.value.Value?
    ensures col in JsonbColumns && !SqlTruthy(v) ==> r == Success(Value(if col == SellableColumn then Obj(map[]) else Null))
    ensures r.Failure? <==> col in JsonbColumns && SqlTruthy(v) && v.Value? && v.j.Str? && parse(v.j.s).None?
  {
    if col !in JsonbColumns then Success(v)
    else if SqlTruthy(v) then
      match v
      case JsonText(doc) => Success(Value(doc))
      case Value(Str(text)) =>
        (match parse(text)
         case Some(doc) => Success(Value(doc))
         case None => Failure("Invalid JSON in column " + col))
      case _ => Success(v)
    else if col == SellableColumn then Success(Value(Obj(map[])))
    else Success(Value(Null))
  }

  /** Stringify-then-process gives the document back, or `null` (`{}` for `sellable_data`) when it was falsy. */
  lemma ProcessStringified(col: string, x: Option<Json>, parse: string -> Option<Json>)
    requires col in JsonbColumns
    ensures ProcessValue(col, StringifiedOrNull(x), parse)
         == Success(Value(if Truthy(x) then x.value else if col == SellableColumn then Obj(map[]) else Null))
  {
  }

  /** A value `processValue` never has to parse: no JSONB column holds raw text. */
  predicate NeedsNoParsing(col: string, v: SqlValue)
  {
    col in JsonbColumns ==> !(v.Value? && v.j.Str?)
  }

  /** `columnList.map((col, idx) => processValue(col, valueList[idx]))`; a throw is a `Failure`. */
  function ProcessAll(cols: seq<string>, vals: seq<SqlValue>, parse: string -> Option<Json>): (r: Result<seq<SqlValue>, string>)
    requires |cols| == |vals|
    ensures r.Success? <==> forall i :: 0 <= i < |cols| ==> ProcessValue(cols[i], vals[i], parse).Success?
    ensures r.Success? ==> |r.value| == |cols|
    ensures r.Success? ==> forall i :: 0 <= i < |cols| ==> Success(r.value[i]) == ProcessValue(cols[i], vals[i], parse)
    decreases |cols|
  {
    if |cols| == 0 then Success([])
    else
      var head := ProcessValue(cols[0], vals[0], parse);
      if head.Failure? then Failure(head.error)
      else
        var tail := ProcessAll(cols[1..], vals[1..], parse);
        if tail.Failure? then
          Failure(tail.error)
        else
          Success([head.value] + tail.value)
  }

  // ---------------------------------------------------------------------------
  // The INSERT and the reported contribution

  /** The columns every table's placeholder casts to `jsonb`. */
  const BaseCasts: seq<string> := ["data", "sellable_data", "behavioral_insights", "metadata"]

  /** The columns whose placeholder carries a `::jsonb` cast in the table's INSERT. */
  function CastColumns(t: Table): seq<string>
  {
    match t
    case Github => BaseCasts
    case Netflix => BaseCasts + ["top_genres", "day_of_week_distribution", "time_of_day_curve", "movies_watched", "top_series"]
    case Zomato => BaseCasts + [
      "top_cuisines", "top_brands", "day_of_week_distribution", "time_of_day_curve", "price_bucket_distribution",
      "frequent_dishes", "favorite_restaurants", "competitor_mapping", "repeat_baskets", "geo_data"]
  }

  /** Every cast column is one `processValue` turns into a JSON document. */
  lemma CastsAreJsonb(t: Table)
    ensures forall c :: c in CastColumns(t) ==> c in JsonbColumns
  {
  }

  const JsonbCast: string := "::jsonb"

  /** The placeholders of a table's INSERT: `$i+1`, with `::jsonb` for a cast column. */
  function CastPlaceholders(casts: seq<string>, cols: seq<string>): (r: seq<string>)
    ensures |r| == |cols|
    ensures forall i :: 0 <= i < |cols| ==>
              r[i] == Placeholder(i) + (if cols[i] in casts then JsonbCast else "")
  {
    if |cols| == 0 then []
    else
      var n := |cols| - 1;
      CastPlaceholders(casts, cols[..n]) + [Placeholder(n) + (if cols[n] in casts then JsonbCast else "")]
  }

  /** The object `addContribution` returns, without `pointsAwarded`. */
  datatype Contribution = Contribution(
    id: string,
    userId: Json,
    walletAddress: Json,
    data: Option<Json>,
    sellableData: Json,
    behavioralInsights: Json,
    dataType: string,
    reclaimProofId: Json,
    processingMethod: Json,
    status: string,
    createdAt: string)

  /** The executed INSERT, the returned contribution and its points. */
  datatype Added = Added(insert: InsertQuery, contribution: Contribution, pointsAwarded: nat)

  const SmallDataPoints: nat := 10
  const LargeDataPoints: nat := 20

  /** `data.dataType || 'general'`. */
  function ContributionType(data: ContributionData): string
  {
    Text.OrDefault(data.dataType, GeneralType)
  }

  /** Only a stated data type can name one of the three tables; the `general` default names none. */
  lemma ContributionTypeHasTable(data: ContributionData)
    ensures ContributionType(data) in {ZomatoType, NetflixType, GithubType}
            <==> data.dataType.Some? && data.dataType.value in {ZomatoType, NetflixType, GithubType}
  {
  }

  /**
   * `addContribution(userId, data)` with the id (`Date.now()`), the timestamp and the table's
   * existing columns passed in. A thrown error is a `Failure`.
   */
  function AddContribution(userId: Json, data: ContributionData, contributionId: string, createdAt: string,
                           existing: seq<string>, toText: Json -> string, parse: string -> Option<Json>): (r: Result<Added, string>)
    ensures r.Success? <==> GetTableName(ContributionType(data)).Success?
    ensures r.Failure? ==> r.error == GetTableName(ContributionType(data)).error
    ensures r.Success? ==> r.value.insert.table == TableName(GetTableName(ContributionType(data)).value)
    ensures r.Success? ==> r.value.pointsAwarded == (if Truthy(data.isLargeData) then LargeDataPoints else SmallDataPoints)
  {
    TableLayoutsValid();
    AddContributionWith(TableLayout, userId, data, contributionId, createdAt, existing, toText, parse)
  }

  /**
   * `addContribution` with the column layout of each table as a parameter: the data type picks
   * the table, or the call fails with the message `getTableName` throws.
   */
  function AddContributionWith(layouts: Table -> Layout, userId: Json, data: ContributionData, contributionId: string,
                               createdAt: string, existing: seq<string>, toText: Json -> string,
                               parse: string -> Option<Json>): (r: Result<Added, string>)
    requires ValidLayouts(layouts)
    ensures r.Success? <==> GetTableName(ContributionType(data)).Success?
    ensures r.Failure? ==> r.error == GetTableName(ContributionType(data)).error
    ensures r.Success? ==> r.value.insert.table == TableName(GetTableName(ContributionType(data)).value)
    ensures r.Success? ==> r.value.pointsAwarded == (if Truthy(data.isLargeData) then LargeDataPoints else SmallDataPoints)
  {
    var table := GetTableName(ContributionType(data));
    if table.Failure? then Failure(table.error)
    else
      var t := table.value;
      Success(AddToTable(t, layouts(t), userId, data, contributionId, createdAt, existing, toText, parse))
  }

  /** A successful `addContribution` is the insert into its table, laid out by that table's column rules. */
  lemma AddContributionUsesLayout(userId: Json, data: ContributionData, contributionId: string, createdAt: string,
                                  existing: seq<string>, toText: Json -> string, parse: string -> Option<Json>)
    requires GetTableName(ContributionType(data)).Success?
    ensures var t := GetTableName(ContributionType(data)).value;
            var r := AddContribution(userId, data, contributionId, createdAt, existing, toText, parse);
            r.Success? && r.value == AddToTable(t, TableLayout(t), userId, data, contributionId, createdAt, existing, toText, parse)
  {
  }

  /** What `addContribution` does once the data type has named its table, for any valid column layout. */
  function AddToTable(t: Table, l: Layout, userId: Json, data: ContributionData, contributionId: string, createdAt: string,
                      existing: seq<string>, toText: Json -> string, parse: string -> Option<Json>): (added: Added)
    requires ValidLayout(l)
    ensures added.insert.table == TableName(t)
    ensures |added.insert.columns| == |added.insert.values| == |added.insert.placeholders|
    ensures Seqs.Distinct(added.insert.columns)
    ensures forall i :: 0 <= i < |added.insert.columns| ==> added.insert.columns[i] in existing
    ensures added.pointsAwarded == (if Truthy(data.isLargeData) then LargeDataPoints else SmallDataPoints)
    ensures added.contribution.status == Verified && Truthy(Some(added.contribution.processingMethod))
    ensures added.contribution.sellableData == Null <==> !Truthy(data.sellableData)
    ensures SellableColumn in existing ==>
              exists i :: 0 <= i < |added.insert.columns| && added.insert.columns[i] == SellableColumn
                && added.insert.values[i] == Value(SellableDoc(data))
  {
    var a := Assemble(l, userId, data, contributionId, createdAt, toText, existing);
    AssemblyProcessed(l, userId, data, contributionId, createdAt, toText, existing, parse);
    var points := if Truthy(data.isLargeData) then LargeDataPoints else SmallDataPoints;
    Added(ContributionInsert(t, a, parse), ContributionRecord(userId, data, contributionId, createdAt), points)
  }

  /**
   * The table's INSERT: the assembled columns, their placeholders and their processed values.
   * (The GitHub branch looks each value up by `columnList.indexOf(col)`, which is its own index
   * because no column is pushed twice.)
   */
  function ContributionInsert(t: Table, a: Assembly, parse: string -> Option<Json>): (q: InsertQuery)
    requires |a.columns| == |a.values| && AllNeedNoParsing(a.columns, a.values)
    ensures q.table == TableName(t) && q.columns == a.columns
    ensures |q.values| == |q.columns| == |q.placeholders|
    ensures forall i :: 0 <= i < |q.columns| ==> Success(q.values[i]) == ProcessValue(q.columns[i], a.values[i], parse)
  {
    ProcessingSucceeds(a.columns, a.values, parse);
    InsertQuery(TableName(t), a.columns, CastPlaceholders(CastColumns(t), a.columns), ProcessAll(a.columns, a.values, parse).value)
  }

  /**
   * For a valid layout the assembled lists have distinct columns, every value processes, and
   * `sellable_data`, when the table has it, is processed into the sellable document.
   */
  lemma AssemblyProcessed(l: Layout, userId: Json, data: ContributionData, contributionId: string, createdAt: string,
                          toText: Json -> string, existing: seq<string>, parse: string -> Option<Json>)
    requires ValidLayout(l)
    ensures var a := Assemble(l, userId, data, contributionId, createdAt, toText, existing);
            && AllNeedNoParsing(a.columns, a.values)
            && Seqs.Distinct(a.columns)
            && ProcessAll(a.columns, a.values, parse).Success?
            && (SellableColumn in existing ==>
                  exists i :: 0 <= i < |a.columns| && a.columns[i] == SellableColumn
                    && ProcessAll(a.columns, a.values, parse).value[i] == Value(SellableDoc(data)))
  {
    var a := Assemble(l, userId, data, contributionId, createdAt, toText, existing);
    AssembledNeedsNoParsing(l, userId, data, contributionId, createdAt, toText, existing);
    AssembledColumnsDistinct(l, userId, data, contributionId, createdAt, toText, existing);
    SellableAssembled(l, userId, data, contributionId, createdAt, toText, existing);
    SellableProcessed(a, parse, SellableDoc(data));
  }

  /** `processValue` only throws on raw text in a JSONB column. */
  lemma ProcessingSucceeds(cols: seq<string>, vals: seq<SqlValue>, parse: string -> Option<Json>)
    requires |cols| == |vals| && AllNeedNoParsing(cols, vals)
    ensures ProcessAll(cols, vals, parse).Success?
  {
    forall i | 0 <= i < |cols|
      ensures ProcessValue(cols[i], vals[i], parse).Success?
    {
      assert NeedsNoParsing(cols[i], vals[i]);
    }
  }

  /** The returned contribution; absent values default as in `newContribution`. */
  function ContributionRecord(userId: Json, data: ContributionData, contributionId: string, createdAt: string): (c: Contribution)
    ensures c.status == Verified && Truthy(Some(c.processingMethod))
    ensures c.sellableData == Null <==> !Truthy(data.sellableData)
    ensures c.dataType == ContributionType(data)
  {
    Contribution(
      contributionId, userId, Or(data.walletAddress, Some(Null)).value, data.anonymizedData,
      Or(data.sellableData, Some(Null)).value, Or(data.behavioralInsights, Some(Null)).value,
      ContributionType(data), Or(data.reclaimProofId, Some(Null)).value,
      Or(data.processingMethod, Some(Str(RawMethod))).value, Verified, createdAt)
  }

  /** Assembly never puts raw text in a JSONB column, so `processValue` never parses and never throws. */
  lemma AssembledNeedsNoParsing(l: Layout, userId: Json, data: ContributionData, contributionId: string,
                                createdAt: string, toText: Json -> string, existing: seq<string>)
    requires ValidLayout(l)
    ensures var a := Assemble(l, userId, data, contributionId, createdAt, toText, existing);
            AllNeedNoParsing(a.columns, a.values)
  {
    var c := Candidates(l, userId, data, contributionId, createdAt, toText);
    CandidatesNeedNoParsing(l, userId, data, contributionId, createdAt, toText);
  }

  /** Column by column, no value needs parsing. */
  predicate AllNeedNoParsing(cols: seq<string>, vals: seq<SqlValue>)
    requires |cols| == |vals|
  {
    forall k :: 0 <= k < |cols| ==> NeedsNoParsing(cols[k], vals[k])
  }

  lemma CandidatesNeedNoParsing(l: Layout, userId: Json, data: ContributionData, contributionId: string,
                                createdAt: string, toText: Json -> string)
    requires ValidLayout(l)
    ensures forall p :: p in Candidates(l, userId, data, contributionId, createdAt, toText) ==> NeedsNoParsing(p.0, p.1)
  {
    var base := BaseValues(userId, data, contributionId, createdAt);
    var tv := TableValues(l, data, toText);
    BaseNeedsNoParsing(userId, data, contributionId, createdAt);
    TableValuesNeedNoParsing(l, data, toText);
    var cols := CandidateColumns(l, Truthy(data.sellableData));
    var vals := CandidateValues(l, userId, data, contributionId, createdAt, toText);
    if Truthy(data.sellableData) {
      AppendNeedsNoParsing(InsertColumns, base, l.columns, tv);
      assert cols == InsertColumns + l.columns && vals == base + tv;
    } else {
      assert cols == InsertColumns && vals == base;
    }
    ZipNeedsNoParsing(cols, vals);
  }

  lemma ZipNeedsNoParsing(cols: seq<string>, vals: seq<SqlValue>)
    requires |cols| == |vals| && AllNeedNoParsing(cols, vals)
    ensures forall p :: p in Seqs.Zip(cols, vals) ==> NeedsNoParsing(p.0, p.1)
  {
    var z := Seqs.Zip(cols, vals);
    forall p | p in z
      ensures NeedsNoParsing(p.0, p.1)
    {
      var k :| 0 <= k < |z| && z[k] == p;
    }
  }

  lemma AppendNeedsNoParsing(c1: seq<string>, v1: seq<SqlValue>, c2: seq<string>, v2: seq<SqlValue>)
    requires |c1| == |v1| && |c2| == |v2|
    requires AllNeedNoParsing(c1, v1) && AllNeedNoParsing(c2, v2)
    ensures AllNeedNoParsing(c1 + c2, v1 + v2)
  {
    forall k | 0 <= k < |c1 + c2|
      ensures NeedsNoParsing((c1 + c2)[k], (v1 + v2)[k])
    {
      if k >= |c1| {
        assert (c1 + c2)[k] == c2[k - |c1|] && (v1 + v2)[k] == v2[k - |c1|];
      } else {
        assert (c1 + c2)[k] == c1[k] && (v1 + v2)[k] == v1[k];
      }
    }
  }

  lemma BaseNeedsNoParsing(userId: Json, data: ContributionData, contributionId: string, createdAt: string)
    ensures AllNeedNoParsing(InsertColumns, BaseValues(userId, data, contributionId, createdAt))
  {
    var vs := BaseValues(userId, data, contributionId, createdAt);
    BaseJsonbColumns();
    forall k | 0 <= k < |InsertColumns| && InsertColumns[k] in JsonbColumns
      ensures !(vs[k].Value? && vs[k].j.Str?)
    {
      assert k == DataIndex || k == SellableIndex || k == InsightsIndex;
    }
  }

  lemma TableValuesNeedNoParsing(l: Layout, data: ContributionData, toText: Json -> string)
    requires ValidLayout(l)
    ensures AllNeedNoParsing(l.columns, TableValues(l, data, toText))
  {
    RulesNeedNoParsing(l.columns, l.rules, data, toText);
  }

  lemma RulesNeedNoParsing(cols: seq<string>, rules: seq<Rule>, data: ContributionData, toText: Json -> string)
    requires |cols| == |rules|
    requires StringifiesJsonb(cols, rules)
    ensures AllNeedNoParsing(cols, Seqs.Map(rules, Evaluator(data, toText)))
  {
    var vals := Seqs.Map(rules, Evaluator(data, toText));
    forall j | 0 <= j < |cols|
      ensures NeedsNoParsing(cols[j], vals[j])
    {
      if cols[j] in JsonbColumns {
        assert rules[j].StringifyAt?;
        var v := StringifiedOrNull(Lookup(rules[j].path, data));
        assert vals[j] == v;
        assert v.JsonText? || v == Value(Null);
      }
    }
  }

  /** A `sellable_data` value holding a stringified document is processed back into that document. */
  lemma SellableProcessed(a: Assembly, parse: string -> Option<Json>, doc: Json)
    requires |a.columns| == |a.values| && AllNeedNoParsing(a.columns, a.values)
    ensures ProcessAll(a.columns, a.values, parse).Success?
    ensures (exists i :: 0 <= i < |a.columns| && a.columns[i] == SellableColumn && a.values[i] == JsonText(doc)) ==>
              exists i :: 0 <= i < |a.columns| && a.columns[i] == SellableColumn
                && ProcessAll(a.columns, a.values, parse).value[i] == Value(doc)
  {
    ProcessingSucceeds(a.columns, a.values, parse);
    if i :| 0 <= i < |a.columns| && a.columns[i] == SellableColumn && a.values[i] == JsonText(doc) {
      assert Success(ProcessAll(a.columns, a.values, parse).value[i]) == ProcessValue(SellableColumn, JsonText(doc), parse);
    }
  }

  /** `sellable_data`, when the table has it, is assembled with the stringified sellable data or `{}`. */
  lemma SellableAssembled(l: Layout, userId: Json, data: ContributionData, contributionId: string, createdAt: string,
                          toText: Json -> string, existing: seq<string>)
    requires Aligned(l)
    ensures var a := Assemble(l, userId, data, contributionId, createdAt, toText, existing);
            SellableColumn in existing ==>
              exists i :: 0 <= i < |a.columns| && a.columns[i] == SellableColumn
                && a.values[i] == JsonText(SellableDoc(data))
  {
    if SellableColumn in existing {
      var i := AssembledSellable(l, userId, data, contributionId, createdAt, toText, existing);
    }
  }

  /** Where `sellable_data` lands in the assembled lists, and what it holds there. */
  lemma AssembledSellable(l: Layout, userId: Json, data: ContributionData, contributionId: string, createdAt: string,
                          toText: Json -> string, existing: seq<string>) returns (i: nat)
    requires Aligned(l)
    requires SellableColumn in existing
    ensures var a := Assemble(l, userId, data, contributionId, createdAt, toText, existing);
            i < |a.columns| && a.columns[i] == SellableColumn
            && a.values[i] == JsonText(SellableDoc(data))
  {
    var c := Candidates(l, userId, data, contributionId, createdAt, toText);
    CandidateAtSellable(l, userId, data, contributionId, createdAt, toText);
    i := KeptPair(c, existing, SellableIndex);
  }

  /** A pair whose column exists survives the `includes` filter. */
  lemma KeptPair(pairs: seq<(string, SqlValue)>, existing: seq<string>, k: nat) returns (i: nat)
    requires k < |pairs| && pairs[k].0 in existing
    ensures var kept := Seqs.Filter(pairs, Seqs.On(Seqs.Fst, ExistsIn(existing)));
            i < |kept| && Seqs.Map(kept, Seqs.Fst)[i] == pairs[k].0 && Seqs.Map(kept, Seqs.Snd)[i] == pairs[k].1
  {
    var kept := Seqs.Filter(pairs, Seqs.On(Seqs.Fst, ExistsIn(existing)));
    assert ExistsIn(existing)(Seqs.Fst(pairs[k]));
    assert Seqs.On(Seqs.Fst, ExistsIn(existing))(pairs[k]);
    i :| 0 <= i < |kept| && kept[i] == pairs[k];
  }

  /** The `sellable_data` candidate holds the stringified sellable data, or `{}`. */
  lemma CandidateAtSellable(l: Layout, userId: Json, data: ContributionData, contributionId: string, createdAt: string,
                            toText: Json -> string)
    requires Aligned(l)
    ensures var c := Candidates(l, userId, data, contributionId, createdAt, toText);
            |c| > SellableIndex && c[SellableIndex].0 == SellableColumn
            && c[SellableIndex].1 == JsonText(SellableDoc(data))
  {
    var cols := CandidateColumns(l, Truthy(data.sellableData));
    var vals := CandidateValues(l, userId, data, contributionId, createdAt, toText);
    assert cols[SellableIndex] == InsertColumns[SellableIndex];
    assert vals[SellableIndex] == BaseValues(userId, data, contributionId, createdAt)[SellableIndex];
  }

  // ---------------------------------------------------------------------------
  // Cohort sizes

  /** `parseInt(count || 0, 10)` for a `COUNT(*)` value, which arrives as text; `None` is `NaN`. */
  function ParseCount(count: Option<string>): (r: Option<int>)
    ensures !Text.Present(count) ==> r == Some(0)
    ensures Text.Present(count) ==> r == Numerals.ParseInt(count.value, true)
  {
    if Text.Present(count) then Numerals.ParseInt(count.value, true) else Some(0)
  }

  /** The `count` of the first row of each table's query; `None` when the row or its field is missing. */
  datatype TableCounts = TableCounts(zomato: Option<string>, netflix: Option<string>, github: Option<string>)

  /**
   * `getCohortSize(cohortId)` with the three `COUNT(*)` results passed in; a failed query gives 0.
   * `None` is `NaN`, which a count that does not parse turns the whole sum into.
   */
  function GetCohortSize(counts: Result<TableCounts, string>): (r: Option<int>)
    ensures counts.Failure? ==> r == Some(0)
    ensures counts.Success? ==>
              (r.None? <==> ParseCount(counts.value.zomato).None? || ParseCount(counts.value.netflix).None?
                            || ParseCount(counts.value.github).None?)
  {
    match counts
    case Failure(_) => Some(0)
    case Success(c) =>
      var z, n, g := ParseCount(c.zomato), ParseCount(c.netflix), ParseCount(c.github);
      if z.Some? && n.Some? && g.Some? then Some(z.value + n.value + g.value) else None
  }

  /** Counts written in decimal add up exactly; missing rows count as 0. */
  lemma CohortSizeIsSum(z: nat, n: nat, g: nat)
    ensures GetCohortSize(Success(TableCounts(Some(Numerals.NatToString(z)), Some(Numerals.NatToString(n)),
                                              Some(Numerals.NatToString(g))))) == Some(z + n + g)
    ensures GetCohortSize(Success(TableCounts(None, None, None))) == Some(0)
  {
    DecimalCount(z);
    DecimalCount(n);
    DecimalCount(g);
    ParsedCountsAdd(TableCounts(Some(Numerals.NatToString(z)), Some(Numerals.NatToString(n)),
                                Some(Numerals.NatToString(g))), z, n, g);
  }

  /** Three counts that parse add up to their sum. */
  lemma ParsedCountsAdd(c: TableCounts, z: int, n: int, g: int)
    requires ParseCount(c.zomato) == Some(z) && ParseCount(c.netflix) == Some(n) && ParseCount(c.github) == Some(g)
    ensures GetCohortSize(Success(c)) == Some(z + n + g)
  {
  }

  /** A count written in decimal parses back to itself. */
  lemma DecimalCount(n: nat)
    ensures ParseCount(Some(Numerals.NatToString(n))) == Some(n)
  {
    Numerals.ParseIntNatToString(n, true);
  }

  /** One row of a grouped count query: `cohort_id` and `count`. */
  datatype CohortCountRow = CohortCountRow(cohortId: Option<string>, count: Option<string>)

  /** `cohortCounts[id] || 0`: a missing entry and `NaN` both read as 0. */
  function Current(m: map<string, Option<int>>, id: string): int
  {
    if id in m && m[id].Some? then m[id].value else 0
  }

  /** One step of the `forEach`: rows with a falsy id are skipped. */
  function AddRow(m: map<string, Option<int>>, row: CohortCountRow): (r: map<string, Option<int>>)
    ensures !Text.Present(row.cohortId) ==> r == m
    ensures Text.Present(row.cohortId) ==> r.Keys == m.Keys + {row.cohortId.value}
    ensures forall id :: id in m && Some(id) != row.cohortId ==> id in r && r[id] == m[id]
  {
    if Text.Present(row.cohortId) then
      var id := row.cohortId.value;
      m[id := match ParseCount(row.count)
              case Some(n) => Some(Current(m, id) + n)
              case None => None]
    else m
  }

  /** The ids of the rows whose id is truthy. */
  function PresentIds(rows: seq<CohortCountRow>): set<string>
  {
    set i | 0 <= i < |rows| && Text.Present(rows[i].cohortId) :: rows[i].cohortId.value
  }

  /** The `forEach` over the rows in order, starting from `{}`. */
  function MergeCounts(rows: seq<CohortCountRow>): (r: map<string, Option<int>>)
    ensures r.Keys == PresentIds(rows)
    decreases |rows|
  {
    if |rows| == 0 then map[]
    else
      var init, last := rows[..|rows| - 1], rows[|rows| - 1];
      PresentIdsSnoc(rows);
      AddRow(MergeCounts(init), last)
  }

  lemma PresentIdsSnoc(rows: seq<CohortCountRow>)
    requires |rows| > 0
    ensures var last := rows[|rows| - 1];
            PresentIds(rows) == PresentIds(rows[..|rows| - 1]) + (if Text.Present(last.cohortId) then {last.cohortId.value} else {})
  {
    var init := rows[..|rows| - 1];
    assert forall i :: 0 <= i < |init| ==> init[i] == rows[i];
  }

  /** The three grouped query results. */
  datatype TableRows<T> = TableRows(zomato: seq<T>, netflix: seq<T>, github: seq<T>)

  function AllRows<T>(t: TableRows<T>): seq<T>
  {
    t.zomato + t.netflix + t.github
  }

  /** `getCohortSizes()` with the grouped query results passed in; a failed query gives `{}`. */
  function GetCohortSizes(rows: Result<TableRows<CohortCountRow>, string>): (r: map<string, Option<int>>)
    ensures rows.Failure? ==> r == map[]
    ensures rows.Success? ==> r.Keys == PresentIds(AllRows(rows.value))
  {
    match rows
    case Failure(_) => map[]
    case Success(t) => MergeCounts(AllRows(t))
  }

  function HasCohort(id: string): CohortCountRow -> bool
  {
    (row: CohortCountRow) => row.cohortId == Some(id)
  }

  /** A row's parsed count, 0 when it does not parse. */
  function CountOf(row: CohortCountRow): int
  {
    ParseCount(row.count).GetOr(0)
  }

  /** When every count parses, each cohort's size is the sum of its rows' counts across all tables. */
  lemma {:induction false} MergeCountsSums(rows: seq<CohortCountRow>, id: string)
    requires id != ""
    requires forall i :: 0 <= i < |rows| ==> ParseCount(rows[i].count).Some?
    ensures id in MergeCounts(rows) ==> MergeCounts(rows)[id].Some?
    ensures Current(MergeCounts(rows), id) == Seqs.Sum(Seqs.Map(Seqs.Filter(rows, HasCohort(id)), CountOf))
    decreases |rows|
  {
    if |rows| > 0 {
      var init, last := rows[..|rows| - 1], rows[|rows| - 1];
      assert rows == init + [last];
      forall i | 0 <= i < |init|
        ensures ParseCount(init[i].count).Some?
      {
        assert init[i] == rows[i];
      }
      MergeCountsSums(init, id);
      AddRowCurrent(MergeCounts(init), last, id);
      Seqs.FilterAppend(init, [last], HasCohort(id));
      var tail := Seqs.Filter([last], HasCohort(id));
      CountsAppend(Seqs.Filter(init, HasCohort(id)), tail);
      if last.cohortId == Some(id) {
        assert tail == [last];
      } else {
        assert tail == [];
      }
    }
  }

  /** One row adds its count to its own cohort's entry and leaves every other entry's value alone. */
  lemma AddRowCurrent(m: map<string, Option<int>>, row: CohortCountRow, id: string)
    requires id != ""
    requires ParseCount(row.count).Some?
    requires id in m ==> m[id].Some?
    ensures var r := AddRow(m, row);
            && (id in r ==> r[id].Some?)
            && Current(r, id) == Current(m, id) + (if row.cohortId == Some(id) then CountOf(row) else 0)
  {
  }

  /** The counts of two runs of rows add up. */
  lemma CountsAppend(a: seq<CohortCountRow>, b: seq<CohortCountRow>)
    ensures Seqs.Sum(Seqs.Map(a + b, CountOf)) == Seqs.Sum(Seqs.Map(a, CountOf)) + Seqs.Sum(Seqs.Map(b, CountOf))
  {
    assert Seqs.Map(a + b, CountOf) == Seqs.Map(a, CountOf) + Seqs.Map(b, CountOf);
    Seqs.SumAppend(Seqs.Map(a, CountOf), Seqs.Map(b, CountOf));
  }

  // ---------------------------------------------------------------------------
  // A user's contributions, newest first

  /** A result row: column name to value; a column the row lacks is absent. */
  type Row = map<string, Json>

  /** `row.col`, `None` when undefined. */
  function Col(row: Row, col: string): (r: Option<Json>)
    ensures r.Some? <==> col in row
  {
    if col in row then Some(row[col]) else None
  }

  /** The property `key: v`, left out when `v` is undefined, as `JSON.stringify` drops it. */
  function Put(m: Row, key: string, v: Option<Json>): (r: Row)
    ensures Col(r, key) == (if v.Some? then v else Col(m, key))
    ensures forall k :: k != key ==> Col(r, k) == Col(m, k)
  {
    if v.Some? then m[key := v.value] else m
  }

  /** `alias: row.col || row.alias`, the value of a camelCase copy. */
  function Aliased(row: Row, col: string, alias: string): Option<Json>
  {
    Or(Col(row, col), Col(row, alias))
  }

  /** The camelCase copies of the seven aliased columns. */
  function Renamed(row: Row): (r: Row)
    ensures Col(r, CreatedAtField) == Aliased(row, "created_at", CreatedAtField)
  {
    var m := Put(map[], "userId", Aliased(row, "user_id", "userId"));
    var m := Put(m, "walletAddress", Aliased(row, "wallet_address", "walletAddress"));
    var m := Put(m, "sellableData", Aliased(row, "sellable_data", "sellableData"));
    var m := Put(m, "behavioralInsights", Aliased(row, "behavioral_insights", "behavioralInsights"));
    var m := Put(m, "reclaimProofId", Aliased(row, "reclaim_proof_id", "reclaimProofId"));
    var m := Put(m, "processingMethod", Aliased(row, "processing_method", "processingMethod"));
    Put(m, CreatedAtField, Aliased(row, "created_at", CreatedAtField))
  }

  const DataTypeField: string := "dataType"
  const CreatedAtField: string := "createdAt"

  /**
   * `mapRow(row, dataType)`: `id`, `data` and `status` copied, the camelCase copies, the data
   * type, then `...row`, whose own columns win every clash.
   */
  function MapRow(row: Row, dataType: string): (r: Row)
    ensures forall c :: c in row ==> Col(r, c) == Col(row, c)
    ensures Col(r, DataTypeField) == (if DataTypeField in row then Col(row, DataTypeField) else Some(Str(dataType)))
    ensures CreatedAtField !in row ==>
              Col(r, CreatedAtField) == (if Truthy(Col(row, "created_at")) then Col(row, "created_at") else None)
  {
    Copied(row)[DataTypeField := Str(dataType)] + row
  }

  /** `id`, `data` and `status` copied, then the camelCase copies. */
  function Copied(row: Row): (r: Row)
    ensures Col(r, CreatedAtField) == Aliased(row, "created_at", CreatedAtField)
  {
    Put(Put(Put(Renamed(row), "id", Col(row, "id")), "data", Col(row, "data")), "status", Col(row, "status"))
  }

  /** The mapper for one table's rows. */
  function Labeller(dataType: string): Row -> Row
  {
    (row: Row) => MapRow(row, dataType)
  }

  /** The three tables' rows, mapped and concatenated: zomato, then netflix, then github. */
  function Labelled(rows: TableRows<Row>): (r: seq<Row>)
    ensures |r| == |rows.zomato| + |rows.netflix| + |rows.github|
  {
    Seqs.Map(rows.zomato, Labeller(ZomatoType)) + Seqs.Map(rows.netflix, Labeller(NetflixType))
      + Seqs.Map(rows.github, Labeller(GithubType))
  }

  /** `new Date(c.createdAt)` as a number, with the date parser `time` passed in. */
  function CreatedTime(time: Option<Json> -> int): Row -> int
  {
    (r: Row) => time(Col(r, CreatedAtField))
  }

  /**
   * `getUserContributions(userId)` with the three per-table query results passed in; a failed
   * query gives `[]`. Sorted newest first by `createdAt`.
   */
  function GetUserContributions(rows: Result<TableRows<Row>, string>, time: Option<Json> -> int): (r: seq<Row>)
    ensures rows.Failure? ==> r == []
    ensures rows.Success? ==> multiset(r) == multiset(Labelled(rows.value))
    ensures Sorting.SortedDesc(r, CreatedTime(time))
  {
    match rows
    case Failure(_) => []
    case Success(t) => Sorting.Sort(Labelled(t), CreatedTime(time))
  }

  /**
   * Contributions with the same `createdAt` time keep their merge order: zomato before netflix
   * before github, each table in its query order. So the first match a scan of the result finds
   * is determined by the rows alone.
   */
  lemma UserContributionsStable(rows: TableRows<Row>, time: Option<Json> -> int, k: int)
    ensures Seqs.Filter(GetUserContributions(Success(rows), time), Sorting.KeyIs(CreatedTime(time), k))
         == Seqs.Filter(Labelled(rows), Sorting.KeyIs(CreatedTime(time), k))
  {
    Sorting.SortStable(Labelled(rows), CreatedTime(time), k);
  }
}
