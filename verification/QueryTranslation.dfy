/** Queries in API names, translated to physical columns and their results translated back. */
module QueryTranslation {
  import opened Ordering
  import opened Values
  import opened Sequences

  /** A property of a type; without a physical column it is virtual. */
  datatype Property = Property(apiName: string, column: Option<string>)

  datatype Schema = Schema(properties: seq<Property>, masked: set<string>)

  datatype Filter = Filter(field: string, operator: string, value: Value)

  datatype Order = Asc | Desc

  datatype Sort = Sort(field: string, order: Order)

  datatype Result<+T> = Ok(value: T) | MaskedField(field: string)

  datatype Answer = Answer(rows: seq<Row>, total: nat, columns: seq<string>)

  /** The data source's comparison operators and its order of values. */
  datatype Source = Source(matches: (string, Value, Value) -> bool, less: (Value, Value) -> bool)

  // ── The connector: filter, sort, slice, project ──

  predicate Satisfies(row: Row, filters: seq<Filter>, source: Source) {
    forall i :: 0 <= i < |filters| ==> source.matches(filters[i].operator, Get(row, filters[i].field), filters[i].value)
  }

  function Passing(filters: seq<Filter>, source: Source): Row -> bool {
    (row: Row) => Satisfies(row, filters, source)
  }

  function Where(rows: seq<Row>, filters: seq<Filter>, source: Source): seq<Row> {
    Keep(rows, Passing(filters, source))
  }

  function RowLess(a: Row, b: Row, sort: seq<Sort>, source: Source): bool {
    if sort == [] then false
    else
      var x, y := Get(a, sort[0].field), Get(b, sort[0].field);
      if source.less(x, y) then sort[0].order == Asc
      else if source.less(y, x) then sort[0].order == Desc
      else RowLess(a, b, sort[1..], source)
  }

  function Insert(row: Row, rows: seq<Row>, sort: seq<Sort>, source: Source): seq<Row> {
    if rows == [] || RowLess(row, rows[0], sort, source) then [row] + rows
    else [rows[0]] + Insert(row, rows[1..], sort, source)
  }

  /** Stable: ties keep the order of the table. */
  function OrderBy(rows: seq<Row>, sort: seq<Sort>, source: Source): seq<Row> {
    if rows == [] then []
    else Insert(rows[|rows| - 1], OrderBy(rows[..|rows| - 1], sort, source), sort, source)
  }

  function Slice(rows: seq<Row>, offset: nat, limit: nat): seq<Row> {
    if |rows| <= offset then []
    else if |rows| - offset <= limit then rows[offset..]
    else rows[offset..offset + limit]
  }

  /** No columns means all of them. */
  function Project(row: Row, columns: seq<string>): Row {
    if columns == [] then row else map c | c in columns :: Get(row, c)
  }

  function MapRows(rows: seq<Row>, f: Row -> Row): seq<Row> {
    seq(|rows|, i requires 0 <= i < |rows| => f(rows[i]))
  }

  function Projecting(columns: seq<string>): Row -> Row {
    (row: Row) => Project(row, columns)
  }

  /** Without a sort, the first selected column orders. */
  function Effective(sort: seq<Sort>, columns: seq<string>): seq<Sort> {
    if sort == [] && columns != [] then [Sort(columns[0], Asc)] else sort
  }

  function Matched(table: seq<Row>, columns: seq<string>, filters: seq<Filter>, sort: seq<Sort>,
                   source: Source): seq<Row> {
    OrderBy(Where(table, filters, source), Effective(sort, columns), source)
  }

  function Execute(table: seq<Row>, columns: seq<string>, filters: seq<Filter>, sort: seq<Sort>, offset: nat,
                   limit: nat,
                   source: Source): Answer
  {
    Answer(MapRows(Slice(Matched(table, columns, filters, sort, source), offset, limit), Projecting(columns)),
           |Where(table, filters, source)|, columns)
  }

  // ── The column map: a dictionary in insertion order ──

  datatype Binding = Binding(apiName: string, column: string)

  function Bind(bindings: seq<Binding>, b: Binding): seq<Binding> {
    if bindings == [] then [b]
    else if bindings[0].apiName == b.apiName then [b] + bindings[1..]
    else [bindings[0]] + Bind(bindings[1..], b)
  }

  function Lookup(bindings: seq<Binding>, apiName: string): Option<string> {
    if bindings == [] then None
    else if bindings[0].apiName == apiName then Some(bindings[0].column)
    else Lookup(bindings[1..], apiName)
  }

  function ColumnOf(bindings: seq<Binding>, apiName: string): string {
    match Lookup(bindings, apiName) case Some(column) => column case None => apiName
  }

  function ColumnMap(properties: seq<Property>): seq<Binding> {
    if properties == [] then []
    else
      var front, last := ColumnMap(properties[..|properties| - 1]), properties[|properties| - 1];
      if last.column.Some? && last.column.value != "" then Bind(front, Binding(last.apiName, last.column.value))
      else front
  }

  function ApiNames(bindings: seq<Binding>): seq<string> {
    seq(|bindings|, i requires 0 <= i < |bindings| => bindings[i].apiName)
  }

  function Columns(bindings: seq<Binding>): seq<string> {
    seq(|bindings|, i requires 0 <= i < |bindings| => bindings[i].column)
  }

  /** `{v: k for k, v in col_map.items()}.get(k, k)`: of names with one column, the last one counts. */
  function Reverse(bindings: seq<Binding>, column: string): string {
    if bindings == [] then column
    else if bindings[|bindings| - 1].column == column then bindings[|bindings| - 1].apiName
    else Reverse(bindings[..|bindings| - 1], column)
  }

  ghost predicate DistinctNames(bindings: seq<Binding>) {
    forall i, j :: 0 <= i < j < |bindings| ==> bindings[i].apiName != bindings[j].apiName
  }

  ghost predicate Injective(bindings: seq<Binding>) {
    forall i, j :: 0 <= i < j < |bindings| ==> bindings[i].column != bindings[j].column
  }

  lemma {:induction false} ReverseFacts(bindings: seq<Binding>, column: string)
    requires column in Columns(bindings)
    ensures exists i :: 0 <= i < |bindings| && bindings[i] == Binding(Reverse(bindings, column), column)
  {
    var last := bindings[|bindings| - 1];
    if last.column != column {
      var k :| 0 <= k < |bindings| && Columns(bindings)[k] == column;
      assert Columns(bindings[..|bindings| - 1])[k] == column;
      ReverseFacts(bindings[..|bindings| - 1], column);
    }
  }

  lemma ReverseApart(bindings: seq<Binding>, c: string, d: string)
    requires DistinctNames(bindings) && c in Columns(bindings) && d in Columns(bindings)
    requires Reverse(bindings, c) == Reverse(bindings, d)
    ensures c == d
  {
    ReverseFacts(bindings, c);
    ReverseFacts(bindings, d);
  }

  /** A selected row has bound columns only, unless everything was selected. */
  predicate Selected(row: Row, bindings: seq<Binding>) {
    bindings == [] || forall c :: c in row ==> c in Columns(bindings)
  }

  /** A result row under API names. */
  function Rename(row: Row, bindings: seq<Binding>): Row
    requires DistinctNames(bindings) && Selected(row, bindings)
  {
    assert forall c, d :: c in row && d in row && Reverse(bindings, c) == Reverse(bindings, d) ==> c == d by {
      forall c, d | c in row && d in row && Reverse(bindings, c) == Reverse(bindings, d) ensures c == d {
        if bindings != [] { ReverseApart(bindings, c, d); }
      }
    }
    map c | c in row :: Reverse(bindings, c) := row[c]
  }

  // ── The logical table ──

  /** A table row as its API names see it; without bindings, names are columns. */
  function Logical(row: Row, bindings: seq<Binding>): Row {
    if bindings == [] then row
    else map a | a in ApiNames(bindings) :: Get(row, ColumnOf(bindings, a))
  }

  function Renaming(bindings: seq<Binding>): Row -> Row {
    (row: Row) => Logical(row, bindings)
  }

  lemma {:induction false} LookupFacts(bindings: seq<Binding>, apiName: string)
    ensures Lookup(bindings, apiName).Some? <==> apiName in ApiNames(bindings)
    ensures Lookup(bindings, apiName).Some? ==> Binding(apiName, Lookup(bindings, apiName).value) in bindings
  {
    if bindings == [] {
    } else {
      LookupFacts(bindings[1..], apiName);
      assert ApiNames(bindings) == [bindings[0].apiName] + ApiNames(bindings[1..]);
      assert bindings == [bindings[0]] + bindings[1..];
    }
  }

  lemma LookupBound(bindings: seq<Binding>, i: nat)
    requires i < |bindings| && DistinctNames(bindings)
    ensures Lookup(bindings, bindings[i].apiName) == Some(bindings[i].column)
  {
    LookupFacts(bindings, bindings[i].apiName);
    assert ApiNames(bindings)[i] == bindings[i].apiName;
    var b := Binding(bindings[i].apiName, Lookup(bindings, bindings[i].apiName).value);
    var k :| 0 <= k < |bindings| && bindings[k] == b;
    assert k == i;
  }

  /** Looking up the name given back for a column finds that column. */
  lemma ReverseThenLookup(bindings: seq<Binding>, column: string)
    requires DistinctNames(bindings) && column in Columns(bindings)
    ensures Reverse(bindings, column) in ApiNames(bindings) && ColumnOf(bindings, Reverse(bindings, column)) == column
  {
    ReverseFacts(bindings, column);
    var i :| 0 <= i < |bindings| && bindings[i] == Binding(Reverse(bindings, column), column);
    LookupBound(bindings, i);
    assert ApiNames(bindings)[i] == Reverse(bindings, column);
  }

  lemma LookupThenReverse(bindings: seq<Binding>, apiName: string)
    requires DistinctNames(bindings) && Injective(bindings) && apiName in ApiNames(bindings)
    ensures ColumnOf(bindings, apiName) in Columns(bindings)
    ensures Reverse(bindings, ColumnOf(bindings, apiName)) == apiName
  {
    LookupFacts(bindings, apiName);
    var b := Binding(apiName, ColumnOf(bindings, apiName));
    var i :| 0 <= i < |bindings| && bindings[i] == b;
    assert Columns(bindings)[i] == b.column;
    ReverseFacts(bindings, b.column);
  }

  /** Selecting the bound columns and renaming them gives the logical row exactly when no column is shared. */
  lemma RenamesBack(row: Row, bindings: seq<Binding>)
    requires DistinctNames(bindings)
    ensures Selected(Project(row, Columns(bindings)), bindings)
    ensures Rename(Project(row, Columns(bindings)), bindings) == Logical(row, bindings) <==> Injective(bindings)
  {
    if bindings != [] {
      var selected := Project(row, Columns(bindings));
      assert Columns(bindings)[0] == bindings[0].column;
      var renamed := Rename(selected, bindings);
      forall c | c in selected ensures Reverse(bindings, c) in Logical(row, bindings)
                                       && Logical(row, bindings)[Reverse(bindings, c)] == selected[c] {
        ReverseThenLookup(bindings, c);
      }
      if Injective(bindings) {
        forall a | a in ApiNames(bindings) ensures a in renamed {
          LookupThenReverse(bindings, a);
        }
      } else {
        var i, j :| 0 <= i < j < |bindings| && bindings[i].column == bindings[j].column;
        SharedColumnIsLost(row, bindings, i, j);
      }
    } else {
      assert Columns(bindings) == [];
    }
  }

  /** Of two names with one column, at most one is in the result. */
  lemma SharedColumnIsLost(row: Row, bindings: seq<Binding>, i: nat, j: nat)
    requires DistinctNames(bindings) && i < j < |bindings| && bindings[i].column == bindings[j].column
    requires Selected(Project(row, Columns(bindings)), bindings)
    ensures Rename(Project(row, Columns(bindings)), bindings) != Logical(row, bindings)
  {
    var renamed := Rename(Project(row, Columns(bindings)), bindings);
    LookupBound(bindings, i);
    LookupBound(bindings, j);
    assert ApiNames(bindings)[i] == bindings[i].apiName && ApiNames(bindings)[j] == bindings[j].apiName;
    if bindings[i].apiName in renamed && bindings[j].apiName in renamed {
      var c :| c in Project(row, Columns(bindings)) && Reverse(bindings, c) == bindings[i].apiName;
      var d :| d in Project(row, Columns(bindings)) && Reverse(bindings, d) == bindings[j].apiName;
      assert Columns(bindings)[0] == bindings[0].column;
      ReverseThenLookup(bindings, c);
      ReverseThenLookup(bindings, d);
    }
  }

  // ── Translating filters and sorts ──

  function AddFilter(done: Result<seq<Filter>>, f: Filter, bindings: seq<Binding>, masked: set<string>)
    : Result<seq<Filter>>
  {
    if done.MaskedField? then done
    else if f.field in masked then MaskedField(f.field)
    else
      match Lookup(bindings, f.field)
      case None => done
      case Some(column) => Ok(done.value + [f.(field := column)])
  }

  function TranslateFilters(filters: seq<Filter>, bindings: seq<Binding>, masked: set<string>): Result<seq<Filter>> {
    if filters == [] then Ok([])
    else
      AddFilter(TranslateFilters(filters[..|filters| - 1], bindings, masked), filters[|filters| - 1], bindings, masked)
  }

  function AddSort(done: Result<seq<Sort>>, s: Sort, bindings: seq<Binding>, masked: set<string>): Result<seq<Sort>> {
    if done.MaskedField? then done
    else if s.field in masked then MaskedField(s.field)
    else
      match Lookup(bindings, s.field)
      case None => done
      case Some(column) => Ok(done.value + [s.(field := column)])
  }

  function TranslateSort(sort: seq<Sort>, bindings: seq<Binding>, masked: set<string>): Result<seq<Sort>> {
    if sort == [] then Ok([])
    else AddSort(TranslateSort(sort[..|sort| - 1], bindings, masked), sort[|sort| - 1], bindings, masked)
  }

  predicate HasColumn(p: Property, apiName: string) {
    p.apiName == apiName && p.column.Some? && p.column.value != ""
  }

  /** Property `k` is the last one of that name with a column. */
  ghost predicate LastColumn(properties: seq<Property>, apiName: string, k: int) {
    && 0 <= k < |properties| && HasColumn(properties[k], apiName)
    && forall j :: k < j < |properties| ==> !HasColumn(properties[j], apiName)
  }

  lemma {:induction false} BindThenLookup(bindings: seq<Binding>, b: Binding, a: string)
    ensures Lookup(Bind(bindings, b), a) == if a == b.apiName then Some(b.column) else Lookup(bindings, a)
  {
    if bindings == [] {
      assert [b][1..] == [];
    } else if bindings[0].apiName == b.apiName {
      assert ([b] + bindings[1..])[1..] == bindings[1..];
    } else {
      BindThenLookup(bindings[1..], b, a);
      assert ([bindings[0]] + Bind(bindings[1..], b))[1..] == Bind(bindings[1..], b);
    }
  }

  /** A name gets the column of its last property that has one, and none if there is no such property. */
  lemma {:induction false} LastColumnCounts(properties: seq<Property>, a: string)
    ensures forall k :: LastColumn(properties, a, k) ==>
              Lookup(ColumnMap(properties), a) == Some(properties[k].column.value)
    ensures Lookup(ColumnMap(properties), a).Some? <==> exists k :: LastColumn(properties, a, k)
  {
    if properties == [] {
    } else {
      var front, last := properties[..|properties| - 1], properties[|properties| - 1];
      LastColumnCounts(front, a);
      if last.column.Some? {
        BindThenLookup(ColumnMap(front), Binding(last.apiName, last.column.value), a);
      }
      if HasColumn(last, a) {
        assert LastColumn(properties, a, |front|);
      } else {
        forall k ensures LastColumn(properties, a, k) <==> LastColumn(front, a, k) {
          assert forall j :: 0 <= j < |front| ==> front[j] == properties[j];
        }
      }
    }
  }

  method BuildColumnMap(properties: seq<Property>) returns (bindings: seq<Binding>)
    ensures bindings == ColumnMap(properties)
    ensures DistinctNames(bindings)
    ensures forall a, k :: LastColumn(properties, a, k) ==> Lookup(bindings, a) == Some(properties[k].column.value)
    ensures forall a :: Lookup(bindings, a).Some? <==> exists k :: LastColumn(properties, a, k)
  {
    ColumnMapDistinct(properties);
    forall a ensures Lookup(ColumnMap(properties), a).Some? <==> exists k :: LastColumn(properties, a, k) {
      LastColumnCounts(properties, a);
    }
    forall a, k | LastColumn(properties, a, k)
      ensures Lookup(ColumnMap(properties), a) == Some(properties[k].column.value)
    {
      LastColumnCounts(properties, a);
    }
    bindings := [];
    for i := 0 to |properties|
      invariant bindings == ColumnMap(properties[..i])
    {
      assert properties[..i + 1][..i] == properties[..i];
      var column := properties[i].column;
      if column.Some? && column.value != "" {
        bindings := Bind(bindings, Binding(properties[i].apiName, column.value));
      }
    }
    assert properties[..|properties|] == properties;
  }

  lemma {:induction false} MaskStays(filters: seq<Filter>, i: nat, bindings: seq<Binding>, masked: set<string>)
    requires i <= |filters| && TranslateFilters(filters[..i], bindings, masked).MaskedField?
    ensures TranslateFilters(filters, bindings, masked) == TranslateFilters(filters[..i], bindings, masked)
  {
    if i < |filters| {
      var front := filters[..|filters| - 1];
      assert front[..i] == filters[..i];
      MaskStays(front, i, bindings, masked);
    } else {
      assert filters[..i] == filters;
    }
  }

  lemma {:induction false} SortMaskStays(sort: seq<Sort>, i: nat, bindings: seq<Binding>, masked: set<string>)
    requires i <= |sort| && TranslateSort(sort[..i], bindings, masked).MaskedField?
    ensures TranslateSort(sort, bindings, masked) == TranslateSort(sort[..i], bindings, masked)
  {
    if i < |sort| {
      var front := sort[..|sort| - 1];
      assert front[..i] == sort[..i];
      SortMaskStays(front, i, bindings, masked);
    } else {
      assert sort[..i] == sort;
    }
  }

  method FiltersToColumns(filters: seq<Filter>, bindings: seq<Binding>, masked: set<string>)
    returns (r: Result<seq<Filter>>)
    ensures r == TranslateFilters(filters, bindings, masked)
  {
    var translated := [];
    for i := 0 to |filters|
      invariant TranslateFilters(filters[..i], bindings, masked) == Ok(translated)
    {
      var f := filters[i];
      assert filters[..i + 1][..i] == filters[..i];
      if f.field in masked {
        MaskStays(filters, i + 1, bindings, masked);
        return MaskedField(f.field);
      }
      var column := Lookup(bindings, f.field);
      if column.None? {
        continue;
      }
      translated := translated + [f.(field := column.value)];
    }
    assert filters[..|filters|] == filters;
    r := Ok(translated);
  }

  method SortToColumns(sort: seq<Sort>, bindings: seq<Binding>, masked: set<string>) returns (r: Result<seq<Sort>>)
    ensures r == TranslateSort(sort, bindings, masked)
  {
    var translated := [];
    for i := 0 to |sort|
      invariant TranslateSort(sort[..i], bindings, masked) == Ok(translated)
    {
      var s := sort[i];
      assert sort[..i + 1][..i] == sort[..i];
      if s.field in masked {
        SortMaskStays(sort, i + 1, bindings, masked);
        return MaskedField(s.field);
      }
      var column := Lookup(bindings, s.field);
      if column.Some? {
        translated := translated + [s.(field := column.value)];
      }
    }
    assert sort[..|sort|] == sort;
    r := Ok(translated);
  }

  // ── What the translation means ──

  function FilterIsBound(bindings: seq<Binding>): Filter -> bool {
    (f: Filter) => Lookup(bindings, f.field).Some?
  }

  function SortIsBound(bindings: seq<Binding>): Sort -> bool {
    (s: Sort) => Lookup(bindings, s.field).Some?
  }

  /** The filters on physical fields. */
  function BoundFilters(filters: seq<Filter>, bindings: seq<Binding>): seq<Filter> {
    Keep(filters, FilterIsBound(bindings))
  }

  function BoundSort(sort: seq<Sort>, bindings: seq<Binding>): seq<Sort> {
    Keep(sort, SortIsBound(bindings))
  }

  ghost predicate Unmasked(filters: seq<Filter>, sort: seq<Sort>, masked: set<string>) {
    (forall f :: f in filters ==> f.field !in masked) && forall s :: s in sort ==> s.field !in masked
  }

  function PhysicalFilters(filters: seq<Filter>, bindings: seq<Binding>): seq<Filter> {
    seq(|filters|, i requires 0 <= i < |filters| => filters[i].(field := ColumnOf(bindings, filters[i].field)))
  }

  function PhysicalSort(sort: seq<Sort>, bindings: seq<Binding>): seq<Sort> {
    seq(|sort|, i requires 0 <= i < |sort| => sort[i].(field := ColumnOf(bindings, sort[i].field)))
  }

  /** Filters fail exactly on masked fields; otherwise those on physical fields are renamed, in order. */
  lemma {:induction false} FiltersTranslate(filters: seq<Filter>, bindings: seq<Binding>, masked: set<string>)
    ensures TranslateFilters(filters, bindings, masked).Ok? <==> forall f :: f in filters ==> f.field !in masked
    ensures TranslateFilters(filters, bindings, masked).Ok? ==>
              TranslateFilters(filters, bindings, masked).value
              == PhysicalFilters(BoundFilters(filters, bindings), bindings)
  {
    if filters == [] {
    } else {
      var front, last := filters[..|filters| - 1], filters[|filters| - 1];
      FiltersTranslate(front, bindings, masked);
      assert filters == front + [last];
      var bound := BoundFilters(front, bindings);
      assert PhysicalFilters(bound + [last], bindings)
          == PhysicalFilters(bound, bindings) + [last.(field := ColumnOf(bindings, last.field))];
    }
  }

  lemma {:induction false} SortTranslates(sort: seq<Sort>, bindings: seq<Binding>, masked: set<string>)
    ensures TranslateSort(sort, bindings, masked).Ok? <==> forall s :: s in sort ==> s.field !in masked
    ensures TranslateSort(sort, bindings, masked).Ok? ==>
              TranslateSort(sort, bindings, masked).value == PhysicalSort(BoundSort(sort, bindings), bindings)
  {
    if sort == [] {
    } else {
      var front, last := sort[..|sort| - 1], sort[|sort| - 1];
      SortTranslates(front, bindings, masked);
      assert sort == front + [last];
      var bound := BoundSort(front, bindings);
      assert PhysicalSort(bound + [last], bindings)
          == PhysicalSort(bound, bindings) + [last.(field := ColumnOf(bindings, last.field))];
    }
  }

  // ── Queries commute with renaming ──

  ghost predicate FiltersOn(filters: seq<Filter>, names: seq<string>) {
    forall i :: 0 <= i < |filters| ==> filters[i].field in names
  }

  ghost predicate SortsOn(sort: seq<Sort>, names: seq<string>) {
    forall i :: 0 <= i < |sort| ==> sort[i].field in names
  }

  lemma FieldReads(row: Row, bindings: seq<Binding>, name: string)
    requires name in ApiNames(bindings)
    ensures Get(Logical(row, bindings), name) == Get(row, ColumnOf(bindings, name))
  {
  }

  lemma FilterCommutes(row: Row, filters: seq<Filter>, bindings: seq<Binding>, source: Source)
    requires FiltersOn(filters, ApiNames(bindings))
    ensures Satisfies(row, PhysicalFilters(filters, bindings), source)
       <==> Satisfies(Logical(row, bindings), filters, source)
  {
    var physical := PhysicalFilters(filters, bindings);
    forall i | 0 <= i < |filters|
      ensures Get(row, physical[i].field) == Get(Logical(row, bindings), filters[i].field)
      ensures physical[i].operator == filters[i].operator && physical[i].value == filters[i].value
    {
      FieldReads(row, bindings, filters[i].field);
    }
  }

  lemma {:induction false} WhereCommutes(rows: seq<Row>, filters: seq<Filter>, bindings: seq<Binding>, source: Source)
    requires FiltersOn(filters, ApiNames(bindings))
    ensures MapRows(Where(rows, PhysicalFilters(filters, bindings), source), Renaming(bindings))
         == Where(MapRows(rows, Renaming(bindings)), filters, source)
  {
    if rows == [] {
    } else {
      var front, last := rows[..|rows| - 1], rows[|rows| - 1];
      WhereCommutes(front, filters, bindings, source);
      FilterCommutes(last, filters, bindings, source);
      MapRowsAppend(Where(front, PhysicalFilters(filters, bindings), source), last, Renaming(bindings));
      assert MapRows(rows, Renaming(bindings))[..|rows| - 1] == MapRows(front, Renaming(bindings));
    }
  }

  lemma MapRowsAppend(rows: seq<Row>, row: Row, f: Row -> Row)
    ensures MapRows(rows + [row], f) == MapRows(rows, f) + [f(row)]
  {
  }

  lemma {:induction false} RowLessCommutes(a: Row, b: Row, sort: seq<Sort>, bindings: seq<Binding>, source: Source)
    requires SortsOn(sort, ApiNames(bindings))
    ensures RowLess(a, b, PhysicalSort(sort, bindings), source)
       <==> RowLess(Logical(a, bindings), Logical(b, bindings), sort, source)
  {
    if sort == [] {
    } else {
      assert sort[0].field in ApiNames(bindings);
      FieldReads(a, bindings, sort[0].field);
      FieldReads(b, bindings, sort[0].field);
      RowLessCommutes(a, b, sort[1..], bindings, source);
      assert PhysicalSort(sort, bindings)[1..] == PhysicalSort(sort[1..], bindings);
    }
  }

  lemma MapRowsCons(row: Row, rows: seq<Row>, f: Row -> Row)
    ensures MapRows([row] + rows, f) == [f(row)] + MapRows(rows, f)
  {
  }

  /** Comparing images by one sort is comparing rows by the other. */
  ghost predicate OrderPreserving(f: Row -> Row, s: seq<Sort>, t: seq<Sort>, source: Source) {
    forall a, b :: RowLess(a, b, s, source) <==> RowLess(f(a), f(b), t, source)
  }

  lemma {:induction false} InsertCommutes(row: Row, rows: seq<Row>, f: Row -> Row, s: seq<Sort>, t: seq<Sort>,
                                          source: Source)
    requires OrderPreserving(f, s, t, source)
    ensures MapRows(Insert(row, rows, s, source), f) == Insert(f(row), MapRows(rows, f), t, source)
  {
    if rows == [] {
      MapRowsCons(row, [], f);
    } else {
      var first, rest := rows[0], rows[1..];
      assert rows == [first] + rest;
      MapRowsCons(first, rest, f);
      if RowLess(row, first, s, source) {
        MapRowsCons(row, rows, f);
      } else {
        InsertCommutes(row, rest, f, s, t, source);
        MapRowsCons(first, Insert(row, rest, s, source), f);
        assert MapRows(rows, f)[1..] == MapRows(rest, f);
      }
    }
  }

  lemma {:induction false} OrderCommutes(rows: seq<Row>, f: Row -> Row, s: seq<Sort>, t: seq<Sort>, source: Source)
    requires OrderPreserving(f, s, t, source)
    ensures MapRows(OrderBy(rows, s, source), f) == OrderBy(MapRows(rows, f), t, source)
  {
    if rows == [] {
    } else {
      var front, last := rows[..|rows| - 1], rows[|rows| - 1];
      OrderCommutes(front, f, s, t, source);
      InsertCommutes(last, OrderBy(front, s, source), f, s, t, source);
      assert MapRows(rows, f)[..|rows| - 1] == MapRows(front, f);
    }
  }

  lemma RenamingPreservesOrder(sort: seq<Sort>, bindings: seq<Binding>, source: Source)
    requires SortsOn(sort, ApiNames(bindings))
    ensures OrderPreserving(Renaming(bindings), PhysicalSort(sort, bindings), sort, source)
  {
    forall a, b
      ensures RowLess(a, b, PhysicalSort(sort, bindings), source)
         <==> RowLess(Logical(a, bindings), Logical(b, bindings), sort, source)
    {
      RowLessCommutes(a, b, sort, bindings, source);
    }
  }

  lemma SliceCommutes(rows: seq<Row>, offset: nat, limit: nat, f: Row -> Row)
    ensures MapRows(Slice(rows, offset, limit), f) == Slice(MapRows(rows, f), offset, limit)
  {
  }

  lemma EffectiveCommutes(sort: seq<Sort>, bindings: seq<Binding>)
    requires SortsOn(sort, ApiNames(bindings)) && DistinctNames(bindings)
    ensures Effective(PhysicalSort(sort, bindings), Columns(bindings))
         == PhysicalSort(Effective(sort, ApiNames(bindings)), bindings)
    ensures SortsOn(Effective(sort, ApiNames(bindings)), ApiNames(bindings))
  {
    if sort == [] && bindings != [] {
      LookupBound(bindings, 0);
      assert Columns(bindings) != [] && ApiNames(bindings) != [];
    }
    if bindings == [] { assert Columns(bindings) == [] && ApiNames(bindings) == []; }
  }

  /** Filtering, sorting and slicing physically is doing so on the logical table. */
  lemma {:induction false} MatchedCommutes(table: seq<Row>, filters: seq<Filter>, sort: seq<Sort>,
                                           bindings: seq<Binding>, source: Source)
    requires FiltersOn(filters, ApiNames(bindings)) && SortsOn(sort, ApiNames(bindings)) && DistinctNames(bindings)
    ensures MapRows(Matched(table, Columns(bindings), PhysicalFilters(filters, bindings), PhysicalSort(sort, bindings),
                            source), Renaming(bindings))
         == Matched(MapRows(table, Renaming(bindings)), ApiNames(bindings), filters, sort, source)
    ensures |Where(table, PhysicalFilters(filters, bindings), source)|
         == |Where(MapRows(table, Renaming(bindings)), filters, source)|
  {
    EffectiveCommutes(sort, bindings);
    WhereCommutes(table, filters, bindings, source);
    var effective := Effective(sort, ApiNames(bindings));
    RenamingPreservesOrder(effective, bindings, source);
    OrderCommutes(Where(table, PhysicalFilters(filters, bindings), source), Renaming(bindings),
                  PhysicalSort(effective, bindings), effective, source);
    assert |MapRows(Where(table, PhysicalFilters(filters, bindings), source), Renaming(bindings))|
        == |Where(table, PhysicalFilters(filters, bindings), source)|;
  }

  lemma {:induction false} ColumnMapDistinct(properties: seq<Property>)
    ensures DistinctNames(ColumnMap(properties))
  {
    if properties == [] {
    } else {
      ColumnMapDistinct(properties[..|properties| - 1]);
      var last := properties[|properties| - 1];
      if last.column.Some? {
        BindFacts(ColumnMap(properties[..|properties| - 1]), Binding(last.apiName, last.column.value));
      }
    }
  }

  lemma {:induction false} BindFacts(bindings: seq<Binding>, b: Binding)
    requires DistinctNames(bindings)
    ensures DistinctNames(Bind(bindings, b))
    ensures forall a :: a in ApiNames(Bind(bindings, b)) <==> a == b.apiName || a in ApiNames(bindings)
  {
    if bindings == [] {
      assert ApiNames([b]) == [b.apiName];
    } else {
      var first, rest := bindings[0], bindings[1..];
      assert ApiNames(bindings) == [first.apiName] + ApiNames(rest);
      if first.apiName == b.apiName {
        assert ApiNames([b] + rest) == [b.apiName] + ApiNames(rest);
      } else {
        BindFacts(rest, b);
        var r := Bind(rest, b);
        assert ApiNames([first] + r) == [first.apiName] + ApiNames(r);
        forall j | 0 <= j < |r| ensures r[j].apiName != first.apiName {
          assert ApiNames(r)[j] == r[j].apiName;
          if r[j].apiName in ApiNames(rest) {
            var k :| 0 <= k < |rest| && ApiNames(rest)[k] == r[j].apiName;
            assert bindings[k + 1].apiName == r[j].apiName;
          }
        }
      }
    }
  }

  lemma BoundFiltersOn(filters: seq<Filter>, bindings: seq<Binding>)
    ensures FiltersOn(BoundFilters(filters, bindings), ApiNames(bindings))
  {
    var bound := BoundFilters(filters, bindings);
    BoundAreFilters(filters, bindings);
    forall i | 0 <= i < |bound| ensures bound[i].field in ApiNames(bindings) { assert bound[i] in bound; }
  }

  lemma BoundSortsOn(sort: seq<Sort>, bindings: seq<Binding>)
    ensures SortsOn(BoundSort(sort, bindings), ApiNames(bindings))
  {
    var bound := BoundSort(sort, bindings);
    KeepMembers(sort, SortIsBound(bindings));
    forall i | 0 <= i < |bound| ensures bound[i].field in ApiNames(bindings) {
      assert bound[i] in bound;
      LookupFacts(bindings, bound[i].field);
    }
  }

  // ── The query ──

  /** Results back under API names; every row came out of `Project` with the bound columns. */
  function RenameAll(rows: seq<Row>, bindings: seq<Binding>): seq<Row>
    requires DistinctNames(bindings) && forall i :: 0 <= i < |rows| ==> Selected(rows[i], bindings)
  {
    seq(|rows|, i requires 0 <= i < |rows| => Rename(rows[i], bindings))
  }

  lemma ProjectedAreSelected(rows: seq<Row>, bindings: seq<Binding>)
    ensures forall i :: 0 <= i < |rows| ==> Selected(MapRows(rows, Projecting(Columns(bindings)))[i], bindings)
  {
    if bindings != [] { assert Columns(bindings)[0] == bindings[0].column; }
  }

  method QueryInstances(schema: Schema, table: seq<Row>, filters: seq<Filter>, sort: seq<Sort>, offset: nat, limit: nat,
                        source: Source) returns (r: Result<Answer>)
    ensures r.Ok? <==> Unmasked(filters, sort, schema.masked)
    ensures var bindings := ColumnMap(schema.properties);
            var logical := Execute(MapRows(table, Renaming(bindings)), ApiNames(bindings),
                                   BoundFilters(filters, bindings), BoundSort(sort, bindings), offset, limit, source);
            r.Ok? ==>
              && r.value.total == logical.total && r.value.columns == logical.columns
              && |r.value.rows| == |logical.rows|
              && (r.value == logical <==> Injective(bindings) || logical.rows == [])
  {
    var bindings := BuildColumnMap(schema.properties);
    ColumnMapDistinct(schema.properties);
    FiltersTranslate(filters, bindings, schema.masked);
    SortTranslates(sort, bindings, schema.masked);
    var physicalFilters := FiltersToColumns(filters, bindings, schema.masked);
    if physicalFilters.MaskedField? {
      return MaskedField(physicalFilters.field);
    }
    var physicalSort := SortToColumns(sort, bindings, schema.masked);
    if physicalSort.MaskedField? {
      return MaskedField(physicalSort.field);
    }
    var result := Execute(table, Columns(bindings), physicalFilters.value, physicalSort.value, offset, limit, source);
    ghost var sliced :=
      Slice(Matched(table, Columns(bindings), physicalFilters.value, physicalSort.value, source), offset, limit);
    ProjectedAreSelected(sliced, bindings);
    r := Ok(Answer(RenameAll(result.rows, bindings), result.total, ApiNames(bindings)));
    AnswerIsLogical(table, filters, sort, offset, limit, bindings, source);
  }

  /** Translating, executing and renaming back is executing on the logical table, unless names share a column. */
  lemma AnswerIsLogical(table: seq<Row>, filters: seq<Filter>, sort: seq<Sort>, offset: nat, limit: nat,
                        bindings: seq<Binding>, source: Source)
    requires DistinctNames(bindings)
    ensures var f, s := BoundFilters(filters, bindings), BoundSort(sort, bindings);
            var physical := Execute(table, Columns(bindings), PhysicalFilters(f, bindings), PhysicalSort(s, bindings),
                                    offset, limit, source);
            var logical := Execute(MapRows(table, Renaming(bindings)), ApiNames(bindings), f, s, offset, limit, source);
            && physical.total == logical.total && |physical.rows| == |logical.rows|
            && (forall i :: 0 <= i < |physical.rows| ==> Selected(physical.rows[i], bindings))
            && (RenameAll(physical.rows, bindings) == logical.rows <==> Injective(bindings) || logical.rows == [])
  {
    var f, s := BoundFilters(filters, bindings), BoundSort(sort, bindings);
    BoundFiltersOn(filters, bindings);
    BoundSortsOn(sort, bindings);
    MatchedCommutes(table, f, s, bindings, source);
    var matched := Matched(table, Columns(bindings), PhysicalFilters(f, bindings), PhysicalSort(s, bindings), source);
    SliceCommutes(matched, offset, limit, Renaming(bindings));
    RowsRenamedBack(Slice(matched, offset, limit), bindings);
  }

  lemma RowsRenamedBack(rows: seq<Row>, bindings: seq<Binding>)
    requires DistinctNames(bindings)
    ensures var selected := MapRows(rows, Projecting(Columns(bindings)));
            var logical := MapRows(MapRows(rows, Renaming(bindings)), Projecting(ApiNames(bindings)));
            && (forall i :: 0 <= i < |selected| ==> Selected(selected[i], bindings))
            && (RenameAll(selected, bindings) == logical <==> Injective(bindings) || rows == [])
  {
    var selected := MapRows(rows, Projecting(Columns(bindings)));
    var logical := MapRows(MapRows(rows, Renaming(bindings)), Projecting(ApiNames(bindings)));
    forall i | 0 <= i < |rows|
      ensures Selected(selected[i], bindings)
      ensures Rename(selected[i], bindings) == logical[i] <==> Injective(bindings)
    {
      RenamesBack(rows[i], bindings);
      LogicalIsProjected(rows[i], bindings);
    }
    if rows != [] && !Injective(bindings) {
      assert RenameAll(selected, bindings)[0] != logical[0];
    }
  }

  lemma LogicalIsProjected(row: Row, bindings: seq<Binding>)
    ensures Project(Logical(row, bindings), ApiNames(bindings)) == Logical(row, bindings)
  {
    if bindings == [] {
      assert ApiNames(bindings) == [];
    } else {
      assert ApiNames(bindings)[0] == bindings[0].apiName;
    }
  }

  // ── Filters that are not pushed down ──

  /** `less` is a strict weak order. */
  ghost predicate WeakOrder(source: Source) {
    && (forall x, y :: source.less(x, y) ==> !source.less(y, x))
    && (forall x, y, z :: source.less(x, z) ==> source.less(x, y) || source.less(y, z))
  }

  lemma {:induction false} RowLessAsymmetric(a: Row, b: Row, sort: seq<Sort>, source: Source)
    requires WeakOrder(source)
    ensures RowLess(a, b, sort, source) ==> !RowLess(b, a, sort, source)
  {
    if sort == [] {
    } else {
      RowLessAsymmetric(a, b, sort[1..], source);
    }
  }

  lemma {:induction false} RowLessWeak(a: Row, b: Row, c: Row, sort: seq<Sort>, source: Source)
    requires WeakOrder(source)
    ensures RowLess(a, c, sort, source) ==> RowLess(a, b, sort, source) || RowLess(b, c, sort, source)
  {
    if sort == [] {
    } else {
      RowLessWeak(a, b, c, sort[1..], source);
      var x, y, z := Get(a, sort[0].field), Get(b, sort[0].field), Get(c, sort[0].field);
      assert source.less(x, z) ==> source.less(x, y) || source.less(y, z);
      assert source.less(z, x) ==> source.less(z, y) || source.less(y, x);
    }
  }

  ghost predicate Ordered(rows: seq<Row>, sort: seq<Sort>, source: Source) {
    forall i, j :: 0 <= i < j < |rows| ==> !RowLess(rows[j], rows[i], sort, source)
  }

  lemma {:induction false} InsertMembers(row: Row, rows: seq<Row>, sort: seq<Sort>, source: Source)
    ensures forall r :: r in Insert(row, rows, sort, source) <==> r == row || r in rows
  {
    if rows == [] {
    } else {
      InsertMembers(row, rows[1..], sort, source);
      assert rows == [rows[0]] + rows[1..];
    }
  }

  lemma {:induction false} InsertKeepsOrder(row: Row, rows: seq<Row>, sort: seq<Sort>, source: Source)
    requires WeakOrder(source) && Ordered(rows, sort, source)
    ensures Ordered(Insert(row, rows, sort, source), sort, source)
  {
    if rows == [] {
    } else {
      if RowLess(row, rows[0], sort, source) {
        forall j | 0 <= j < |rows| ensures !RowLess(rows[j], row, sort, source) {
          RowLessAsymmetric(row, rows[0], sort, source);
          RowLessWeak(rows[j], rows[0], row, sort, source);
        }
      } else {
        InsertKeepsOrder(row, rows[1..], sort, source);
        InsertMembers(row, rows[1..], sort, source);
        var r := Insert(row, rows[1..], sort, source);
        forall j | 0 <= j < |r| ensures !RowLess(r[j], rows[0], sort, source) {
          assert r[j] in r;
        }
      }
    }
  }

  lemma {:induction false} OrderIsOrdered(rows: seq<Row>, sort: seq<Sort>, source: Source)
    requires WeakOrder(source)
    ensures Ordered(OrderBy(rows, sort, source), sort, source)
  {
    if rows == [] {
    } else {
      OrderIsOrdered(rows[..|rows| - 1], sort, source);
      InsertKeepsOrder(rows[|rows| - 1], OrderBy(rows[..|rows| - 1], sort, source), sort, source);
    }
  }

  lemma {:induction false} WhereCons(row: Row, rows: seq<Row>, filters: seq<Filter>, source: Source)
    ensures Where([row] + rows, filters, source)
         == if Satisfies(row, filters, source) then [row] + Where(rows, filters, source)
            else Where(rows, filters, source)
  {
    if rows == [] {
      assert ([row] + rows)[..0] == [];
    } else {
      WhereCons(row, rows[..|rows| - 1], filters, source);
      assert ([row] + rows)[..|rows|] == [row] + rows[..|rows| - 1];
    }
  }

  lemma OrderAppend(rows: seq<Row>, row: Row, sort: seq<Sort>, source: Source)
    ensures OrderBy(rows + [row], sort, source) == Insert(row, OrderBy(rows, sort, source), sort, source)
  {
    assert (rows + [row])[..|rows|] == rows;
  }

  lemma InsertBehind(row: Row, first: Row, rest: seq<Row>, sort: seq<Sort>, source: Source)
    requires !RowLess(row, first, sort, source)
    ensures Insert(row, [first] + rest, sort, source) == [first] + Insert(row, rest, sort, source)
  {
    assert ([first] + rest)[1..] == rest;
  }

  /** A row less than all others goes first. */
  lemma InsertFirst(row: Row, rows: seq<Row>, sort: seq<Sort>, source: Source)
    requires forall r :: r in rows ==> RowLess(row, r, sort, source)
    ensures Insert(row, rows, sort, source) == [row] + rows
  {
  }

  lemma LessThanFirst(row: Row, rows: seq<Row>, sort: seq<Sort>, source: Source)
    requires WeakOrder(source) && Ordered(rows, sort, source) && rows != [] && RowLess(row, rows[0], sort, source)
    ensures forall r :: r in rows ==> RowLess(row, r, sort, source)
  {
    forall r | r in rows ensures RowLess(row, r, sort, source) {
      var j :| 0 <= j < |rows| && rows[j] == r;
      RowLessWeak(row, r, rows[0], sort, source);
    }
  }

  /** Filtering after an insertion is inserting into the filtered rows, if at all. */
  lemma {:induction false} WhereAfterInsert(row: Row, rows: seq<Row>, filters: seq<Filter>, sort: seq<Sort>,
                                            source: Source)
    requires WeakOrder(source) && Ordered(rows, sort, source)
    ensures Where(Insert(row, rows, sort, source), filters, source)
         == if Satisfies(row, filters, source) then Insert(row, Where(rows, filters, source), sort, source)
            else Where(rows, filters, source)
  {
    var kept := Where(rows, filters, source);
    if rows == [] {
      WhereCons(row, [], filters, source);
    } else if RowLess(row, rows[0], sort, source) {
      WhereCons(row, rows, filters, source);
      KeepMembers(rows, Passing(filters, source));
      LessThanFirst(row, rows, sort, source);
      InsertFirst(row, kept, sort, source);
    } else {
      var first, rest := rows[0], rows[1..];
      assert rows == [first] + rest;
      WhereAfterInsert(row, rest, filters, sort, source);
      WhereCons(first, rest, filters, source);
      WhereCons(first, Insert(row, rest, sort, source), filters, source);
      InsertBehind(row, first, rest, sort, source);
      InsertBehind(row, first, Where(rest, filters, source), sort, source);
    }
  }

  /** A stable sort and a filter commute. */
  lemma {:induction false} WhereAfterOrder(rows: seq<Row>, filters: seq<Filter>, sort: seq<Sort>, source: Source)
    requires WeakOrder(source)
    ensures Where(OrderBy(rows, sort, source), filters, source) == OrderBy(Where(rows, filters, source), sort, source)
  {
    if rows == [] {
    } else {
      var front, last := rows[..|rows| - 1], rows[|rows| - 1];
      WhereAfterOrder(front, filters, sort, source);
      OrderIsOrdered(front, sort, source);
      WhereAfterInsert(last, OrderBy(front, sort, source), filters, sort, source);
      assert rows == front + [last];
      OrderAppend(front, last, sort, source);
      KeepAppend(front, last, Passing(filters, source));
      OrderAppend(Where(front, filters, source), last, sort, source);
    }
  }

  /** Adds virtual fields and leaves the named ones alone. */
  ghost predicate Enriches(enrich: Row -> Row, names: seq<string>) {
    forall row, n :: n in names ==> Get(enrich(row), n) == Get(row, n)
  }

  lemma {:induction false} EnrichedOrder(a: Row, b: Row, enrich: Row -> Row, names: seq<string>, sort: seq<Sort>,
                                         source: Source)
    requires Enriches(enrich, names) && SortsOn(sort, names)
    ensures RowLess(a, b, sort, source) <==> RowLess(enrich(a), enrich(b), sort, source)
  {
    if sort == [] {
    } else {
      assert sort[0].field in names;
      EnrichedOrder(a, b, enrich, names, sort[1..], source);
    }
  }

  lemma BoundAreFilters(filters: seq<Filter>, bindings: seq<Binding>)
    ensures forall f :: f in BoundFilters(filters, bindings) ==> f in filters && f.field in ApiNames(bindings)
  {
    KeepMembers(filters, FilterIsBound(bindings));
    forall f | f in BoundFilters(filters, bindings) ensures f.field in ApiNames(bindings) {
      LookupFacts(bindings, f.field);
    }
  }

  /** A row that passes every filter after enrichment passed the pushed-down ones before. */
  lemma StrictPassesLoose(row: Row, filters: seq<Filter>, bindings: seq<Binding>, enrich: Row -> Row, source: Source)
    requires Enriches(enrich, ApiNames(bindings)) && Satisfies(enrich(row), filters, source)
    ensures Satisfies(row, BoundFilters(filters, bindings), source)
  {
    var bound := BoundFilters(filters, bindings);
    BoundAreFilters(filters, bindings);
    forall i | 0 <= i < |bound| ensures source.matches(bound[i].operator, Get(row, bound[i].field), bound[i].value) {
      assert bound[i] in bound;
      var k :| 0 <= k < |filters| && filters[k] == bound[i];
      assert Get(enrich(row), bound[i].field) == Get(row, bound[i].field);
    }
  }

  lemma {:induction false} WhereAfterLoose(rows: seq<Row>, filters: seq<Filter>, bindings: seq<Binding>,
                                           enrich: Row -> Row,
                                           source: Source)
    requires Enriches(enrich, ApiNames(bindings))
    ensures Where(MapRows(Where(rows, BoundFilters(filters, bindings), source), enrich), filters, source)
         == Where(MapRows(rows, enrich), filters, source)
  {
    if rows == [] {
    } else {
      var front, last := rows[..|rows| - 1], rows[|rows| - 1];
      WhereAfterLoose(front, filters, bindings, enrich, source);
      var loose := Where(front, BoundFilters(filters, bindings), source);
      assert rows == front + [last];
      KeepAppend(front, last, Passing(BoundFilters(filters, bindings), source));
      MapRowsAppend(loose, last, enrich);
      MapRowsAppend(front, last, enrich);
      KeepAppend(MapRows(loose, enrich), enrich(last), Passing(filters, source));
      KeepAppend(MapRows(front, enrich), enrich(last), Passing(filters, source));
      if Satisfies(enrich(last), filters, source) { StrictPassesLoose(last, filters, bindings, enrich, source); }
    }
  }

  /**
   Filters on virtual fields are dropped: the unsliced answer, enriched and filtered again,
   is the answer of the strict query on the enriched table, in the same order.
   */
  lemma RefilteringIsStrict(table: seq<Row>, filters: seq<Filter>, sort: seq<Sort>, bindings: seq<Binding>,
                            enrich: Row -> Row, source: Source)
    requires DistinctNames(bindings) && SortsOn(sort, ApiNames(bindings))
    requires Enriches(enrich, ApiNames(bindings)) && WeakOrder(source)
    ensures var names, logical := ApiNames(bindings), MapRows(table, Renaming(bindings));
            Where(MapRows(Matched(logical, names, BoundFilters(filters, bindings), sort, source), enrich), filters,
                  source)
            == Matched(MapRows(logical, enrich), names, filters, sort, source)
  {
    var names, logical := ApiNames(bindings), MapRows(table, Renaming(bindings));
    var effective := Effective(sort, names);
    var loose := Where(logical, BoundFilters(filters, bindings), source);
    EffectiveCommutes(sort, bindings);
    forall a, b ensures RowLess(a, b, effective, source) <==> RowLess(enrich(a), enrich(b), effective, source) {
      EnrichedOrder(a, b, enrich, names, effective, source);
    }
    OrderCommutes(loose, enrich, effective, effective, source);
    WhereAfterOrder(MapRows(loose, enrich), filters, effective, source);
    WhereAfterLoose(logical, filters, bindings, enrich, source);
  }
}
