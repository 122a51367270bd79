/**
 * The schema-tolerant query builders of `dbHelpers.js`. The columns a table actually has
 * (`getTableColumns`) are a parameter; queries are kept structured, with their SQL text
 * rendered separately.
 */
module DbHelpers {
  import opened Wrappers
  import Seqs
  import Text
  import Numerals
  import opened Json

  /** A bound query parameter. */
  datatype SqlValue =
    | Undefined        // an `undefined` JavaScript value
    | Value(j: Json)   // a JavaScript value passed as it is; `Value(Null)` is `null`
    | JsonText(doc: Json)  // the text `JSON.stringify(doc)`
    | NotANumber       // `NaN`, the result of a failed `parseInt`

  /** JavaScript truthiness of a bound value; the text of `JSON.stringify` is never empty. */
  predicate SqlTruthy(v: SqlValue)
  {
    match v
    case Undefined => false
    case Value(j) => Truthy(Some(j))
    case JsonText(_) => true
    case NotANumber => false
  }

  /** A possibly-undefined value passed as it is. */
  function Raw(v: Option<Json>): SqlValue
  {
    if v.None? then Undefined else Value(v.value)
  }

  /** `v ? JSON.stringify(v) : null`. */
  function StringifiedOrNull(v: Option<Json>): (r: SqlValue)
    ensures r.JsonText? <==> Truthy(v)
    ensures !r.JsonText? ==> r == Value(Null)
  {
    if Truthy(v) then JsonText(v.value) else Value(Null)
  }

  /** The filter `col => existingColumns.includes(col)`. */
  function ExistsIn(existing: seq<string>): string -> bool
  {
    (c: string) => c in existing
  }

  // ---------------------------------------------------------------------------
  // SELECT

  /** The camelCase names `buildSelectQuery` gives the seven known columns. */
  const ColumnAliases: map<string, string> := map[
    "user_id" := "userId",
    "wallet_address" := "walletAddress",
    "sellable_data" := "sellableData",
    "behavioral_insights" := "behavioralInsights",
    "reclaim_proof_id" := "reclaimProofId",
    "processing_method" := "processingMethod",
    "created_at" := "createdAt"]

  /** The select-list item for one column: `col as "alias"` for the known columns, else `col`. */
  function SelectItem(col: string): string
  {
    if col in ColumnAliases then col + " as \"" + ColumnAliases[col] + "\"" else col
  }

  /** The column a select-list item reads: the text before its first space. */
  function ColumnOf(item: string): string
  {
    Text.Split(item, ' ')[0]
  }

  /** An item reads the column it was made for; aliasing only renames the result. */
  lemma SelectItemReadsColumn(col: string)
    requires ' ' !in col
    ensures ColumnOf(SelectItem(col)) == col
    ensures col !in ColumnAliases ==> SelectItem(col) == col
  {
    if col in ColumnAliases {
      var rest := "as \"" + ColumnAliases[col] + "\"";
      assert SelectItem(col) == col + [' '] + rest;
      Text.SplitPrefix(col, ' ', rest);
    } else {
      assert Text.IndexOf(col, ' ').None?;
    }
  }

  /** A SELECT statement; `selectList` is `None` for `SELECT *`. */
  datatype SelectQuery = SelectQuery(table: string, selectList: Option<seq<string>>)

  /** `buildSelectQuery(tableName, columns)` against the table's `existing` columns. */
  function BuildSelectQuery(table: string, columns: seq<string>, existing: seq<string>): (q: SelectQuery)
    ensures q.table == table
    ensures q.selectList.None? <==> forall i :: 0 <= i < |columns| ==> columns[i] !in existing
    ensures q.selectList.Some? ==> |q.selectList.value| <= |columns|
  {
    var selected := Seqs.Filter(columns, ExistsIn(existing));
    if |selected| == 0 then SelectQuery(table, None)
    else
      assert selected[0] in columns && ExistsIn(existing)(selected[0]);
      SelectQuery(table, Some(Seqs.Map(selected, SelectItem)))
  }

  /** The select list reads exactly the requested columns that exist, in the requested order. */
  lemma SelectListColumns(table: string, columns: seq<string>, existing: seq<string>)
    requires forall i :: 0 <= i < |columns| ==> ' ' !in columns[i]
    ensures var q := BuildSelectQuery(table, columns, existing);
            q.selectList.Some? ==> Seqs.Map(q.selectList.value, ColumnOf) == Seqs.Filter(columns, ExistsIn(existing))
  {
    var selected := Seqs.Filter(columns, ExistsIn(existing));
    ItemsReadColumns(selected);
  }

  /** Mapping the items of space-free columns back to their columns recovers the columns. */
  lemma ItemsReadColumns(cols: seq<string>)
    requires forall c :: c in cols ==> ' ' !in c
    ensures Seqs.Map(Seqs.Map(cols, SelectItem), ColumnOf) == cols
  {
    var items := Seqs.Map(cols, SelectItem);
    var back := Seqs.Map(items, ColumnOf);
    forall i | 0 <= i < |cols|
      ensures back[i] == cols[i]
    {
      SelectItemReadsColumn(cols[i]);
    }
  }

  const SelectKeyword: string := "SELECT "
  const StarFrom: string := "* FROM "
  const FromKeyword: string := " FROM "

  /** The SQL text of a SELECT statement. */
  function SelectSql(q: SelectQuery): string
  {
    match q.selectList
    case None => SelectKeyword + StarFrom + q.table
    case Some(items) => SelectKeyword + Text.Join(items, ", ") + FromKeyword + q.table
  }

  // ---------------------------------------------------------------------------
  // INSERT

  /** The `data` argument of `buildInsertQuery`; `None` is an absent property. */
  datatype InsertData = InsertData(
    id: Option<Json>,
    userId: Option<Json>,
    walletAddress: Option<Json>,
    anonymizedData: Option<Json>,
    sellableData: Option<Json>,
    behavioralInsights: Option<Json>,
    reclaimProofId: Option<Json>,
    processingMethod: Option<Json>,
    createdAt: Option<Json>)

  const Verified: string := "verified"
  const RawMethod: string := "raw"

  /** The keys of `columnValueMap`, in declaration order. */
  const InsertColumns: seq<string> := [
    "id", "user_id", "wallet_address", "data", "sellable_data", "behavioral_insights",
    "reclaim_proof_id", "processing_method", "status", "created_at", "updated_at"]

  /** Indices of the stringified JSON columns, `status` and `processing_method` in `InsertColumns`. */
  const DataIndex: nat := 3
  const SellableIndex: nat := 4
  const InsightsIndex: nat := 5
  const MethodIndex: nat := 7
  const StatusIndex: nat := 8

  /** The values of `columnValueMap`, in the same order as `InsertColumns`. */
  function InsertValues(data: InsertData): (vs: seq<SqlValue>)
    ensures |vs| == |InsertColumns|
    ensures vs[StatusIndex] == Value(Str(Verified))
  {
    [ Raw(data.id),
      Raw(data.userId),
      Raw(data.walletAddress),
      StringifiedOrNull(data.anonymizedData),
      StringifiedOrNull(data.sellableData),
      StringifiedOrNull(data.behavioralInsights),
      Raw(data.reclaimProofId),
      Raw(Or(data.processingMethod, Some(Str(RawMethod)))),
      Value(Str(Verified)),
      Raw(data.createdAt),
      Raw(data.createdAt) ]
  }

  /** `columnValueMap` as its list of entries. */
  function ColumnValueMap(data: InsertData): seq<(string, SqlValue)>
  {
    Seqs.Zip(InsertColumns, InsertValues(data))
  }

  /** The positional placeholder for the `i`-th value (0-based): `$` followed by `i + 1`. */
  function Placeholder(i: nat): string
  {
    "$" + Numerals.NatToString(i + 1)
  }

  /** `$1, …, $n` as a list. */
  function Placeholders(n: nat): (r: seq<string>)
    ensures |r| == n
    ensures forall i :: 0 <= i < n ==> r[i] == Placeholder(i)
  {
    if n == 0 then [] else Placeholders(n - 1) + [Placeholder(n - 1)]
  }

  /** An INSERT statement with its bound values. */
  datatype InsertQuery = InsertQuery(table: string, columns: seq<string>, placeholders: seq<string>, values: seq<SqlValue>)

  /** `buildInsertQuery(tableName, data)` against the table's `existing` columns. */
  function BuildInsertQuery(table: string, data: InsertData, existing: seq<string>): (q: InsertQuery)
    ensures q.table == table
    ensures |q.columns| == |q.values| == |q.placeholders| <= |InsertColumns|
    ensures q.placeholders == Placeholders(|q.columns|)
    ensures forall i :: 0 <= i < |q.columns| ==> q.columns[i] in existing
    ensures forall i :: 0 <= i < |q.columns| ==> (q.columns[i], q.values[i]) in ColumnValueMap(data)
  {
    var kept := Seqs.Filter(ColumnValueMap(data), Seqs.On(Seqs.Fst, ExistsIn(existing)));
    InsertQuery(table, Seqs.Map(kept, Seqs.Fst), Placeholders(|kept|), Seqs.Map(kept, Seqs.Snd))
  }

  /** The inserted columns are the fixed keys that exist, in declaration order. */
  lemma InsertColumnsFiltered(table: string, data: InsertData, existing: seq<string>)
    ensures BuildInsertQuery(table, data, existing).columns == Seqs.Filter(InsertColumns, ExistsIn(existing))
  {
    var pairs := ColumnValueMap(data);
    Seqs.MapFilterOn(pairs, Seqs.Fst, ExistsIn(existing));
    assert Seqs.Map(pairs, Seqs.Fst) == InsertColumns;
  }

  /** Each placeholder is `$` followed by the 1-based position of its value, read back by `parseInt`. */
  lemma PlaceholderNumbers(table: string, data: InsertData, existing: seq<string>, i: nat)
    requires i < |BuildInsertQuery(table, data, existing).placeholders|
    ensures var ph := BuildInsertQuery(table, data, existing).placeholders[i];
            |ph| >= 2 && ph[0] == '$' && Numerals.ParseInt(ph[1..], false) == Some(i + 1)
  {
    var q := BuildInsertQuery(table, data, existing);
    assert q.placeholders[i] == Placeholder(i);
    PlaceholderReadsBack(i);
  }

  /** `$i+1` is a dollar sign followed by the number `i + 1` in decimal. */
  lemma PlaceholderReadsBack(i: nat)
    ensures var ph := Placeholder(i);
            |ph| >= 2 && ph[0] == '$' && Numerals.ParseInt(ph[1..], false) == Some(i + 1)
  {
    var ph := Placeholder(i);
    assert ph[1..] == Numerals.NatToString(i + 1);
    Numerals.ParseIntNatToString(i + 1, false);
  }

  /**
   * The fixed values: `status` is always `verified`, `processing_method` is never falsy,
   * and the three JSON columns hold either stringified JSON or `null`.
   */
  lemma InsertedValueShapes(table: string, data: InsertData, existing: seq<string>, i: nat)
    requires i < |BuildInsertQuery(table, data, existing).columns|
    ensures var q := BuildInsertQuery(table, data, existing);
            && (q.columns[i] == InsertColumns[StatusIndex] ==> q.values[i] == Value(Str(Verified)))
            && (q.columns[i] == InsertColumns[MethodIndex] ==> q.values[i].Value? && Truthy(Some(q.values[i].j)))
            && ((q.columns[i] in {InsertColumns[DataIndex], InsertColumns[SellableIndex], InsertColumns[InsightsIndex]})
                  ==> q.values[i].JsonText? || q.values[i] == Value(Null))
  {
    var q := BuildInsertQuery(table, data, existing);
    var pairs := ColumnValueMap(data);
    var k :| 0 <= k < |pairs| && pairs[k] == (q.columns[i], q.values[i]);
    assert InsertColumns[k] == q.columns[i];
    DistinctInsertColumns(k);
  }

  /** The fixed keys are distinct, so a key determines its position. */
  lemma DistinctInsertColumns(k: nat)
    requires k < |InsertColumns|
    ensures InsertColumns[k] == InsertColumns[StatusIndex] ==> k == StatusIndex
    ensures InsertColumns[k] == InsertColumns[MethodIndex] ==> k == MethodIndex
    ensures (InsertColumns[k] in {InsertColumns[DataIndex], InsertColumns[SellableIndex], InsertColumns[InsightsIndex]})
              ==> k in {DataIndex, SellableIndex, InsightsIndex}
  {
  }

  const InsertInto: string := "INSERT INTO "
  const ValuesKeyword: string := ") VALUES ("

  /** The SQL text of an INSERT statement. */
  function InsertSql(q: InsertQuery): string
  {
    InsertInto + q.table + " (" + Text.Join(q.columns, ", ") + ValuesKeyword + Text.Join(q.placeholders, ", ") + ")"
  }
}
