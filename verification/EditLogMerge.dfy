/** Replaying edit-log entries over base rows. */
module EditLogMerge {
  import opened Ordering
  import opened Values
  import opened EditLogStores

  /** A storage back end, as the answers of its reads. */
  type Reads = Query -> seq<Entry>

  // ── One row ──

  function Step(row: Option<Row>, e: Entry): Option<Row> {
    match e.operation
    case Create => Some(e.fields)
    case Update => if row.Some? then Some(row.value + e.fields) else Some(e.fields)
    case Delete => None
  }

  /** The row after the entries, oldest first. */
  function Replay(base: Option<Row>, entries: seq<Entry>): Option<Row> {
    if entries == [] then base else Step(Replay(base, entries[..|entries| - 1]), entries[|entries| - 1])
  }

  method MergeRow(base: Option<Row>, q: Query, read: Reads) returns (row: Option<Row>)
    ensures row == Replay(base, read(q))
  {
    var entries := read(q);
    if entries == [] {
      return base;
    }
    row := base;
    for i := 0 to |entries|
      invariant row == Replay(base, entries[..i])
    {
      var e := entries[i];
      assert entries[..i + 1][..i] == entries[..i];
      if e.operation == Create {
        row := Some(e.fields);
      } else if e.operation == Update {
        if row.None? {
          row := Some(e.fields);
        } else {
          row := Some(row.value + e.fields);
        }
      } else if e.operation == Delete {
        row := None;
      }
    }
    assert entries[..|entries|] == entries;
  }

  // ── The closed form ──

  predicate IsReset(e: Entry) {
    e.operation != Update
  }

  /** `k` is the last create or delete; -1 when there is none. */
  ghost predicate LastReset(entries: seq<Entry>, k: int) {
    && -1 <= k < |entries|
    && (k >= 0 ==> IsReset(entries[k]))
    && forall i :: k < i < |entries| ==> !IsReset(entries[i])
  }

  /** The row that the updates after the last reset start from. */
  function Start(base: Option<Row>, entries: seq<Entry>, k: int): Option<Row>
    requires -1 <= k < |entries|
  {
    if k < 0 then base else if entries[k].operation == Create then Some(entries[k].fields) else None
  }

  ghost predicate Mentioned(entries: seq<Entry>, k: int, field: string) {
    exists i :: 0 <= i && k < i < |entries| && field in entries[i].fields
  }

  /** `i` is the last update after `k` that mentions the field. */
  ghost predicate LastMention(entries: seq<Entry>, k: int, field: string, i: int) {
    && 0 <= i && k < i < |entries| && field in entries[i].fields
    && forall j :: i < j < |entries| ==> field !in entries[j].fields
  }

  ghost predicate ClosedForm(base: Option<Row>, entries: seq<Entry>, k: int, row: Option<Row>)
    requires -1 <= k < |entries|
  {
    var start := Start(base, entries, k);
    && (row.None? <==> start.None? && k == |entries| - 1)
    && (row.Some? ==> forall f ::
          && (f in row.value <==> Mentioned(entries, k, f) || (start.Some? && f in start.value))
          && (f in row.value && !Mentioned(entries, k, f) ==> row.value[f] == start.value[f])
          && forall i :: LastMention(entries, k, f, i) ==> row.value[f] == entries[i].fields[f])
  }

  /**
   Field by field: the last update after the last create or delete, else that create or the base;
   no row exactly when the last reset left none and no update follows.
   */
  lemma {:induction false} ReplayIsClosedForm(base: Option<Row>, entries: seq<Entry>, k: int)
    requires LastReset(entries, k)
    ensures ClosedForm(base, entries, k, Replay(base, entries))
  {
    var n := |entries| - 1;
    if k < n {
      var front := entries[..n];
      assert LastReset(front, k);
      ReplayIsClosedForm(base, front, k);
      UpdateKeepsClosedForm(base, front, entries[n], k, Replay(base, front));
      assert entries == front + [entries[n]];
    }
  }

  /** Every log has exactly one last reset, or position -1 for none. */
  lemma {:induction false} HasLastReset(entries: seq<Entry>) returns (k: int)
    ensures LastReset(entries, k) && forall j :: LastReset(entries, j) ==> j == k
  {
    if entries == [] {
      k := -1;
    } else if IsReset(entries[|entries| - 1]) {
      k := |entries| - 1;
    } else {
      var front := entries[..|entries| - 1];
      k := HasLastReset(front);
      assert forall i :: 0 <= i < |front| ==> front[i] == entries[i];
      forall j | LastReset(entries, j) ensures j == k { assert LastReset(front, j); }
    }
  }

  /** A field that is mentioned is mentioned last somewhere. */
  lemma {:induction false} HasLastMention(entries: seq<Entry>, k: int, field: string) returns (i: int)
    requires Mentioned(entries, k, field)
    ensures LastMention(entries, k, field, i)
  {
    var n := |entries| - 1;
    if field in entries[n].fields && k < n {
      i := n;
    } else {
      var front := entries[..n];
      var m :| 0 <= m && k < m < |entries| && field in entries[m].fields;
      assert field in front[m].fields;
      i := HasLastMention(front, k, field);
    }
  }

  /** The closed form of any log, without reference to how it is found. */
  lemma EveryReplayHasClosedForm(base: Option<Row>, entries: seq<Entry>)
    ensures exists k :: LastReset(entries, k) && ClosedForm(base, entries, k, Replay(base, entries))
  {
    var k := HasLastReset(entries);
    ReplayIsClosedForm(base, entries, k);
  }

  lemma MentionedAppend(entries: seq<Entry>, e: Entry, k: int, f: string)
    requires k < |entries|
    ensures Mentioned(entries + [e], k, f) <==> Mentioned(entries, k, f) || f in e.fields
    ensures forall i :: LastMention(entries + [e], k, f, i)
              <==> if f in e.fields then i == |entries| else LastMention(entries, k, f, i)
  {
    var all := entries + [e];
    assert all[|entries|] == e;
    forall i | 0 <= i < |entries| ensures all[i] == entries[i] {}
    if Mentioned(entries, k, f) {
      var i :| 0 <= i && k < i < |entries| && f in entries[i].fields;
      assert f in all[i].fields;
    }
  }

  lemma {:induction false} UpdateKeepsClosedForm(base: Option<Row>, entries: seq<Entry>, e: Entry, k: int,
                                                 row: Option<Row>)
    requires -1 <= k < |entries| && e.operation == Update && ClosedForm(base, entries, k, row)
    ensures ClosedForm(base, entries + [e], k, Step(row, e))
  {
    var all, after := entries + [e], Step(row, e).value;
    var start := Start(base, entries, k);
    assert Start(base, all, k) == start;
    forall f
      ensures f in after <==> Mentioned(all, k, f) || (start.Some? && f in start.value)
      ensures f in after && !Mentioned(all, k, f) ==> after[f] == start.value[f]
      ensures forall i :: LastMention(all, k, f, i) ==> after[f] == all[i].fields[f]
    {
      MentionedAppend(entries, e, k, f);
    }
  }

  // ── Logs compose ──

  lemma {:induction false} ReplayComposes(base: Option<Row>, a: seq<Entry>, b: seq<Entry>)
    ensures Replay(base, a + b) == Replay(Replay(base, a), b)
  {
    if b == [] {
      assert a + b == a;
    } else {
      ReplayComposes(base, a, b[..|b| - 1]);
      assert (a + b)[..|a + b| - 1] == a + b[..|b| - 1];
    }
  }

  /** Everything before a create or delete, the base included, can be dropped. */
  lemma ResetForgets(base: Option<Row>, other: Option<Row>, entries: seq<Entry>, k: nat)
    requires k < |entries| && IsReset(entries[k])
    ensures Replay(base, entries) == Replay(other, entries[k..])
  {
    var rest := entries[k + 1..];
    assert entries == entries[..k + 1] + rest && entries[k..] == [entries[k]] + rest;
    assert entries[..k + 1][..k] == entries[..k] && [entries[k]][..0] == [];
    ReplayComposes(base, entries[..k + 1], rest);
    ReplayComposes(other, [entries[k]], rest);
  }

  // ── Lists of rows ──

  /** A base row after its edits; a row without a key passes through. */
  function Merged(row: Row, tenant: string, typeRid: string, field: string, branch: string, read: Reads): Option<Row> {
    if Get(row, field) == Null then Some(row)
    else Replay(Some(row), read(Query(tenant, typeRid, map[field := Get(row, field)], branch)))
  }

  type Merge = Row -> Option<Row>

  function Merging(tenant: string, typeRid: string, field: string, branch: string, read: Reads): Merge {
    (row: Row) => Merged(row, tenant, typeRid, field, branch, read)
  }

  /** The positions of the rows that survive, in order. */
  function Survivors(rows: seq<Row>, merge: Merge): seq<nat> {
    if rows == [] then []
    else
      Survivors(rows[..|rows| - 1], merge) + if merge(rows[|rows| - 1]).Some? then [|rows| - 1] else []
  }

  /** The list holds, in order and once each, the merged form of exactly the surviving rows. */
  ghost predicate FilterMap(rows: seq<Row>, merge: Merge, result: seq<Row>) {
    var s := Survivors(rows, merge);
    && |result| == |s|
    && forall i :: 0 <= i < |s| ==> s[i] < |rows| && merge(rows[s[i]]) == Some(result[i])
  }

  lemma {:induction false} SurvivorsAscend(rows: seq<Row>, merge: Merge)
    ensures var s := Survivors(rows, merge);
            && (forall i, j :: 0 <= i < j < |s| ==> s[i] < s[j])
            && forall k: nat :: k in s <==> k < |rows| && merge(rows[k]).Some?
  {
    if rows == [] {
    } else {
      var front, last := rows[..|rows| - 1], rows[|rows| - 1];
      SurvivorsAscend(front, merge);
      var s := Survivors(front, merge);
      forall i | 0 <= i < |s| ensures s[i] < |front| { assert s[i] in s; }
      forall k: nat ensures k in Survivors(rows, merge) <==> k < |rows| && merge(rows[k]).Some? {
        assert k < |front| ==> rows[k] == front[k];
      }
    }
  }

  lemma FilterMapAppend(rows: seq<Row>, row: Row, merge: Merge, result: seq<Row>)
    requires FilterMap(rows, merge, result)
    ensures FilterMap(rows + [row], merge, result + if merge(row).Some? then [merge(row).value] else [])
  {
    assert (rows + [row])[..|rows|] == rows;
  }

  method MergeRows(rows: seq<Row>, tenant: string, typeRid: string, field: string, branch: string, read: Reads)
    returns (merged: seq<Row>)
    ensures FilterMap(rows, Merging(tenant, typeRid, field, branch, read), merged)
  {
    merged := [];
    ghost var merge := Merging(tenant, typeRid, field, branch, read);
    for i := 0 to |rows|
      invariant FilterMap(rows[..i], merge, merged)
    {
      assert rows[..i + 1] == rows[..i] + [rows[i]];
      FilterMapAppend(rows[..i], rows[i], merge, merged);
      var value := Get(rows[i], field);
      if value == Null {
        merged := merged + [rows[i]];
        continue;
      }
      var result := MergeRow(Some(rows[i]), Query(tenant, typeRid, map[field := value], branch), read);
      if result.Some? {
        merged := merged + [result.value];
      }
    }
    assert rows[..|rows|] == rows;
  }

  // ── Independence of the back end ──

  function FromTable(entries: seq<Entry>): Reads {
    (q: Query) => TableRead(entries, q)
  }

  function FromStore(entries: seq<Entry>, hash: Hash): Reads {
    (q: Query) => StoreRead(Written(entries, hash), q, hash)
  }

  /** With distinct times, merging gives the same rows whichever back end holds the log. */
  lemma MergeIgnoresBackEnd(entries: seq<Entry>, keys: set<Row>, hash: Hash, row: Row, tenant: string, typeRid: string,
                            field: string, branch: string)
    requires WellWritten(entries, keys, hash) && DistinctTimes(entries)
    requires Get(row, field) != Null ==> map[field := Get(row, field)] in keys
    ensures Merged(row, tenant, typeRid, field, branch, FromTable(entries))
         == Merged(row, tenant, typeRid, field, branch, FromStore(entries, hash))
  {
    if Get(row, field) != Null {
      StoreRefinesTable(entries, Query(tenant, typeRid, map[field := Get(row, field)], branch), keys, hash);
    }
  }
}
