/** The two edit-log back ends: a table with filtered, sorted reads, and an ordered key-value store. */
module EditLogStores {
  import opened Ordering
  import opened Values
  import opened Sequences
  import opened Text
  import opened StoreKeys

  datatype Operation = Create | Update | Delete

  datatype Entry = Entry(id: string, tenant: string, typeRid: string, key: Row, operation: Operation, fields: Row,
                         user: string, action: Option<string>, branch: string, at: Instant)

  /** What a read asks for. */
  datatype Query = Query(tenant: string, typeRid: string, key: Row, branch: string)

  predicate Answers(e: Entry, q: Query) {
    e.tenant == q.tenant && e.typeRid == q.typeRid && e.key == q.key && e.branch == q.branch
  }

  // ── The table ──

  function Answering(q: Query): Entry -> bool {
    (e: Entry) => Answers(e, q)
  }

  function Select(rows: seq<Entry>, q: Query): seq<Entry> {
    Keep(rows, Answering(q))
  }

  function InsertByTime(e: Entry, sorted: seq<Entry>): seq<Entry> {
    if sorted == [] || Before(e.at, sorted[0].at) then [e] + sorted
    else [sorted[0]] + InsertByTime(e, sorted[1..])
  }

  function OrderByTime(rows: seq<Entry>): seq<Entry> {
    if rows == [] then [] else InsertByTime(rows[|rows| - 1], OrderByTime(rows[..|rows| - 1]))
  }

  function TableRead(rows: seq<Entry>, q: Query): seq<Entry> {
    OrderByTime(Select(rows, q))
  }

  class EditLogStore {
    var rows: seq<Entry>

    constructor ()
      ensures rows == []
    {
      rows := [];
    }

    method Write(e: Entry) returns (id: string)
      modifies this
      ensures rows == old(rows) + [e] && id == e.id
    {
      rows := rows + [e];
      id := e.id;
    }

    method ReadByKey(q: Query) returns (entries: seq<Entry>)
      ensures entries == TableRead(rows, q)
      ensures forall i, j :: 0 <= i < j < |entries| ==> !Before(entries[j].at, entries[i].at)
      ensures forall e :: multiset(entries)[e] == if Answers(e, q) then multiset(rows)[e] else 0
    {
      KeepCounts(rows, Answering(q));
      OrderCounts(Select(rows, q));
      OrderIsTimely(Select(rows, q));
      entries := OrderByTime(Select(rows, q));
    }
  }

  lemma {:induction false} InsertCounts(e: Entry, s: seq<Entry>)
    ensures multiset(InsertByTime(e, s)) == multiset{e} + multiset(s)
  {
    if s == [] || Before(e.at, s[0].at) {
    } else {
      InsertCounts(e, s[1..]);
      assert s == [s[0]] + s[1..];
    }
  }

  lemma {:induction false} OrderCounts(rows: seq<Entry>)
    ensures multiset(OrderByTime(rows)) == multiset(rows)
  {
    if rows == [] {
    } else {
      var front, last := rows[..|rows| - 1], rows[|rows| - 1];
      OrderCounts(front);
      InsertCounts(last, OrderByTime(front));
      assert rows == front + [last];
    }
  }

  /** No entry is earlier than one in front of it. */
  ghost predicate Timely(entries: seq<Entry>) {
    forall i, j :: 0 <= i < j < |entries| ==> !Before(entries[j].at, entries[i].at)
  }

  lemma {:induction false} InsertIsTimely(e: Entry, s: seq<Entry>)
    requires Timely(s)
    ensures Timely(InsertByTime(e, s))
  {
    if s == [] {
    } else if Before(e.at, s[0].at) {
      forall j | 0 <= j < |s| ensures !Before(s[j].at, e.at) {
        if Before(s[j].at, e.at) {
          BeforeTransitive(s[j].at, e.at, s[0].at);
          if j == 0 { BeforeAsymmetric(e.at, s[0].at); }
        }
      }
    } else {
      InsertIsTimely(e, s[1..]);
      InsertCounts(e, s[1..]);
      var r := InsertByTime(e, s[1..]);
      forall j | 0 <= j < |r| ensures !Before(r[j].at, s[0].at) {
        assert r[j] in multiset(r);
        assert r[j] == e || r[j] in s[1..];
      }
    }
  }

  lemma {:induction false} OrderIsTimely(rows: seq<Entry>)
    ensures Timely(OrderByTime(rows))
  {
    if rows == [] {
    } else {
      OrderIsTimely(rows[..|rows| - 1]);
      InsertIsTimely(rows[|rows| - 1], OrderByTime(rows[..|rows| - 1]));
    }
  }

  // ── The ordered store ──

  datatype Pair = Pair(key: string, entry: Entry)

  type Hash = Row -> string

  function Leading(tenant: string, typeRid: string, key: Row, hash: Hash): seq<string> {
    ["edit", tenant, typeRid, hash(key)]
  }

  function KeyOf(e: Entry, hash: Hash): string {
    Pack(Leading(e.tenant, e.typeRid, e.key, hash) + [Iso(e.at)])
  }

  function Prefix(q: Query, hash: Hash): string {
    Pack(Leading(q.tenant, q.typeRid, q.key, hash))
  }

  ghost predicate Sorted(pairs: seq<Pair>) {
    forall i, j :: 0 <= i < j < |pairs| ==> StrLess(pairs[i].key, pairs[j].key)
  }

  /** Sets a key, in key order. */
  function Put(pairs: seq<Pair>, p: Pair): seq<Pair> {
    if pairs == [] || StrLess(p.key, pairs[0].key) then [p] + pairs
    else if p.key == pairs[0].key then [p] + pairs[1..]
    else [pairs[0]] + Put(pairs[1..], p)
  }

  function WithPrefix(prefix: string): Pair -> bool {
    (x: Pair) => StartsWith(x.key, prefix)
  }

  /** The pairs whose keys start with the prefix, in key order. */
  function Scan(pairs: seq<Pair>, prefix: string): seq<Pair> {
    Keep(pairs, WithPrefix(prefix))
  }

  function OnBranch(branch: string): Pair -> bool {
    (x: Pair) => x.entry.branch == branch
  }

  function EntriesOf(pairs: seq<Pair>): seq<Entry> {
    seq(|pairs|, i requires 0 <= i < |pairs| => pairs[i].entry)
  }

  function StoreRead(pairs: seq<Pair>, q: Query, hash: Hash): seq<Entry> {
    EntriesOf(Keep(Scan(pairs, Prefix(q, hash)), OnBranch(q.branch)))
  }

  class FdbEditLogStore {
    const hash: Hash
    var pairs: seq<Pair>

    ghost predicate Valid()
      reads this
    {
      Sorted(pairs)
    }

    constructor (hash: Hash)
      ensures Valid() && pairs == [] && this.hash == hash
    {
      this.hash := hash;
      pairs := [];
    }

    method Write(e: Entry) returns (id: string)
      requires Valid()
      modifies this`pairs
      ensures Valid() && pairs == Put(old(pairs), Pair(KeyOf(e, hash), e)) && id == e.id
    {
      PutFacts(pairs, Pair(KeyOf(e, hash), e));
      pairs := Put(pairs, Pair(KeyOf(e, hash), e));
      id := e.id;
    }

    method ReadByKey(q: Query) returns (entries: seq<Entry>)
      requires Valid()
      ensures entries == StoreRead(pairs, q, hash)
    {
      var found := Scan(pairs, Prefix(q, hash));
      entries := [];
      for i := 0 to |found|
        invariant entries == EntriesOf(Keep(found[..i], OnBranch(q.branch)))
      {
        assert found[..i + 1] == found[..i] + [found[i]];
        KeepAppend(found[..i], found[i], OnBranch(q.branch));
        if found[i].entry.branch == q.branch {
          entries := entries + [found[i].entry];
        }
      }
      assert found[..|found|] == found;
    }
  }

  /** The store after a sequence of writes. */
  function Written(entries: seq<Entry>, hash: Hash): seq<Pair> {
    if entries == [] then []
    else
      var last := entries[|entries| - 1];
      Put(Written(entries[..|entries| - 1], hash), Pair(KeyOf(last, hash), last))
  }

  lemma {:induction false} PutFacts(pairs: seq<Pair>, p: Pair)
    requires Sorted(pairs)
    ensures Sorted(Put(pairs, p))
    ensures forall x :: x in Put(pairs, p) <==> x == p || (x in pairs && x.key != p.key)
  {
    if pairs == [] {
    } else {
      var first, rest := pairs[0], pairs[1..];
      assert pairs == [first] + rest;
      StrLessTrichotomy(p.key, first.key);
      if StrLess(p.key, first.key) {
        forall i | 0 <= i < |pairs| ensures StrLess(p.key, pairs[i].key) && p.key != pairs[i].key {
          if i > 0 { StrLessTransitive(p.key, first.key, pairs[i].key); }
          StrLessTrichotomy(p.key, pairs[i].key);
        }
      } else if p.key == first.key {
        forall i | 0 <= i < |rest| ensures p.key != rest[i].key {
          StrLessTrichotomy(p.key, pairs[i + 1].key);
        }
      } else {
        PutFacts(rest, p);
        var r := Put(rest, p);
        forall i | 0 <= i < |r| ensures StrLess(first.key, r[i].key) {
          assert r[i] in r;
        }
      }
    }
  }

  /** No later write has the same key. */
  ghost predicate LastWrite(entries: seq<Entry>, i: int, hash: Hash) {
    0 <= i < |entries| && forall j :: i < j < |entries| ==> KeyOf(entries[j], hash) != KeyOf(entries[i], hash)
  }

  ghost predicate Kept(entries: seq<Entry>, x: Pair, hash: Hash) {
    exists i :: LastWrite(entries, i, hash) && x == Pair(KeyOf(entries[i], hash), entries[i])
  }

  lemma KeptAppend(entries: seq<Entry>, e: Entry, x: Pair, hash: Hash)
    ensures Kept(entries + [e], x, hash)
       <==> x == Pair(KeyOf(e, hash), e) || (Kept(entries, x, hash) && x.key != KeyOf(e, hash))
  {
    var all := entries + [e];
    assert LastWrite(all, |entries|, hash);
    forall i | 0 <= i < |entries|
      ensures LastWrite(all, i, hash) <==> LastWrite(entries, i, hash) && KeyOf(entries[i], hash) != KeyOf(e, hash)
    {
      assert all[i] == entries[i] && all[|entries|] == e;
      assert forall j :: i < j < |entries| ==> all[j] == entries[j];
    }
    if Kept(entries, x, hash) && x.key != KeyOf(e, hash) {
      var i :| LastWrite(entries, i, hash) && x == Pair(KeyOf(entries[i], hash), entries[i]);
      assert LastWrite(all, i, hash);
    }
  }

  /** The store holds, per key, the last write. */
  lemma {:induction false} WrittenFacts(entries: seq<Entry>, hash: Hash)
    ensures Sorted(Written(entries, hash))
    ensures forall x :: x in Written(entries, hash) <==> Kept(entries, x, hash)
  {
    if entries == [] {
    } else {
      var front, last := entries[..|entries| - 1], entries[|entries| - 1];
      WrittenFacts(front, hash);
      PutFacts(Written(front, hash), Pair(KeyOf(last, hash), last));
      assert entries == front + [last];
      forall x ensures x in Written(entries, hash) <==> Kept(entries, x, hash) {
        KeptAppend(front, last, x, hash);
      }
    }
  }

  // ── When both back ends answer alike ──

  /** The writes have ids of their own, real dates, and keys that the hash tells apart without NULs. */
  ghost predicate WellWritten(entries: seq<Entry>, keys: set<Row>, hash: Hash) {
    && (forall i, j :: 0 <= i < j < |entries| ==> entries[i].id != entries[j].id)
    && (forall e :: e in entries ==> InRange(e.at) && e.key in keys)
    && (forall k :: k in keys ==> '\0' !in hash(k))
    && (forall k, l :: k in keys && l in keys && hash(k) == hash(l) ==> k == l)
  }

  predicate SameSlot(e: Entry, f: Entry) {
    e.tenant == f.tenant && e.typeRid == f.typeRid && e.key == f.key && e.at == f.at
  }

  /** No two writes of one entity carry the same time, on any branches. */
  ghost predicate DistinctTimes(entries: seq<Entry>) {
    forall i, j :: 0 <= i < j < |entries| ==> !SameSlot(entries[i], entries[j])
  }

  lemma LeadingInjective(e: Entry, tenant: string, typeRid: string, key: Row, keys: set<Row>, hash: Hash)
    requires e.key in keys && key in keys
    requires forall k, l :: k in keys && l in keys && hash(k) == hash(l) ==> k == l
    ensures Leading(e.tenant, e.typeRid, e.key, hash) == Leading(tenant, typeRid, key, hash)
       <==> e.tenant == tenant && e.typeRid == typeRid && e.key == key
  {
    var a, b := Leading(e.tenant, e.typeRid, e.key, hash), Leading(tenant, typeRid, key, hash);
    assert a[1] == e.tenant && a[2] == e.typeRid && a[3] == hash(e.key);
    assert b[1] == tenant && b[2] == typeRid && b[3] == hash(key);
  }

  /** The prefix scan finds exactly the entity's entries. */
  lemma ScanIsFilter(e: Entry, q: Query, keys: set<Row>, hash: Hash)
    requires e.key in keys && q.key in keys && '\0' !in hash(e.key)
    requires forall k, l :: k in keys && l in keys && hash(k) == hash(l) ==> k == l
    ensures StartsWith(KeyOf(e, hash), Prefix(q, hash))
       <==> e.tenant == q.tenant && e.typeRid == q.typeRid && e.key == q.key
  {
    var parts := Leading(e.tenant, e.typeRid, e.key, hash) + [Iso(e.at)];
    PrefixIsFilter(parts, Leading(q.tenant, q.typeRid, q.key, hash));
    assert parts[..4] == Leading(e.tenant, e.typeRid, e.key, hash);
    LeadingInjective(e, q.tenant, q.typeRid, q.key, keys, hash);
  }

  /** Keys tell entities and times apart. */
  lemma KeysAreSlots(e: Entry, f: Entry, keys: set<Row>, hash: Hash)
    requires e.key in keys && f.key in keys && '\0' !in hash(e.key) && InRange(e.at) && InRange(f.at)
    requires forall k, l :: k in keys && l in keys && hash(k) == hash(l) ==> k == l
    ensures KeyOf(e, hash) == KeyOf(f, hash) <==> SameSlot(e, f)
  {
    if KeyOf(e, hash) == KeyOf(f, hash) {
      var lead, lead' := Leading(e.tenant, e.typeRid, e.key, hash), Leading(f.tenant, f.typeRid, f.key, hash);
      var q := Query(f.tenant, f.typeRid, f.key, "");
      PackAppend(lead', Iso(f.at));
      assert StartsWith(KeyOf(f, hash), Prefix(q, hash));
      ScanIsFilter(e, q, keys, hash);
      IsoHasNoNul(e.at);
      IsoHasNoNul(f.at);
      OrderOfKeys(lead, Iso(e.at), Iso(f.at));
      OrderOfKeys(lead, Iso(f.at), Iso(e.at));
      StrLessTrichotomy(KeyOf(e, hash), KeyOf(f, hash));
      StrLessTrichotomy(Iso(e.at), Iso(f.at));
      IsoInjective(e.at, f.at);
    }
  }

  function TimeText(): Entry -> string {
    (e: Entry) => Iso(e.at)
  }

  ghost predicate Chronological(entries: seq<Entry>) {
    forall i, j :: 0 <= i < j < |entries| ==> StrLess(Iso(entries[i].at), Iso(entries[j].at))
  }

  // The table's answer

  ghost predicate TimesDiffer(entries: seq<Entry>) {
    forall i, j :: 0 <= i < j < |entries| ==> entries[i].at != entries[j].at
  }

  lemma {:induction false} SelectTimesDiffer(rows: seq<Entry>, q: Query)
    requires DistinctTimes(rows)
    ensures TimesDiffer(Select(rows, q))
  {
    if rows == [] {
    } else {
      var front, last := rows[..|rows| - 1], rows[|rows| - 1];
      assert rows == front + [last];
      SelectTimesDiffer(front, q);
      KeepMembers(front, Answering(q));
      var s := Select(front, q);
      if Answers(last, q) {
        forall i | 0 <= i < |s| ensures s[i].at != last.at {
          assert s[i] in s;
          var k :| 0 <= k < |front| && front[k] == s[i];
          assert !SameSlot(rows[k], rows[|rows| - 1]);
        }
      }
    }
  }

  lemma ChronologicalCons(e: Entry, s: seq<Entry>)
    requires Chronological(s) && forall f :: f in s ==> StrLess(Iso(e.at), Iso(f.at))
    ensures Chronological([e] + s)
  {
    var r := [e] + s;
    forall i, j | 0 <= i < j < |r| ensures StrLess(Iso(r[i].at), Iso(r[j].at)) {
      assert r[j] == s[j - 1] && s[j - 1] in s;
    }
  }

  lemma {:induction false} InsertFacts(e: Entry, s: seq<Entry>)
    requires Chronological(s) && InRange(e.at)
    requires forall f :: f in s ==> f.at != e.at && InRange(f.at)
    ensures Chronological(InsertByTime(e, s))
  {
    if s == [] {
      ChronologicalCons(e, s);
    } else {
      assert s[0] in s;
      IsoOrderIsTimeOrder(e.at, s[0].at);
      if Before(e.at, s[0].at) {
        forall j | 0 <= j < |s| ensures StrLess(Iso(e.at), Iso(s[j].at)) {
          if j > 0 { StrLessTransitive(Iso(e.at), Iso(s[0].at), Iso(s[j].at)); }
        }
        ChronologicalCons(e, s);
      } else {
        BeforeTotal(e.at, s[0].at);
        IsoOrderIsTimeOrder(s[0].at, e.at);
        InsertFacts(e, s[1..]);
        InsertKeepsMembers(e, s[1..]);
        ChronologicalCons(s[0], InsertByTime(e, s[1..]));
      }
    }
  }

  lemma {:induction false} OrderFacts(rows: seq<Entry>)
    requires TimesDiffer(rows) && forall e :: e in rows ==> InRange(e.at)
    ensures Chronological(OrderByTime(rows))
  {
    if rows == [] {
    } else {
      var front, last := rows[..|rows| - 1], rows[|rows| - 1];
      assert rows == front + [last];
      OrderFacts(front);
      assert last in rows;
      OrderKeepsMembers(front);
      InsertFacts(last, OrderByTime(front));
    }
  }

  lemma {:induction false} OrderKeepsMembers(rows: seq<Entry>)
    ensures forall e :: e in OrderByTime(rows) <==> e in rows
  {
    if rows == [] {
    } else {
      var front, last := rows[..|rows| - 1], rows[|rows| - 1];
      assert rows == front + [last];
      OrderKeepsMembers(front);
      InsertKeepsMembers(last, OrderByTime(front));
    }
  }

  lemma {:induction false} InsertKeepsMembers(e: Entry, s: seq<Entry>)
    ensures forall x :: x in InsertByTime(e, s) <==> x == e || x in s
  {
    if s != [] && !Before(e.at, s[0].at) {
      InsertKeepsMembers(e, s[1..]);
      assert s == [s[0]] + s[1..];
    }
  }

  lemma TableAnswers(rows: seq<Entry>, q: Query)
    requires DistinctTimes(rows) && forall e :: e in rows ==> InRange(e.at)
    ensures Chronological(TableRead(rows, q))
    ensures forall e :: e in TableRead(rows, q) <==> e in rows && Answers(e, q)
  {
    KeepMembers(rows, Answering(q));
    SelectTimesDiffer(rows, q);
    OrderFacts(Select(rows, q));
    OrderKeepsMembers(Select(rows, q));
  }

  // The store's answer

  lemma ScanFacts(pairs: seq<Pair>, prefix: string)
    requires Sorted(pairs)
    ensures Sorted(Scan(pairs, prefix))
    ensures forall x :: x in Scan(pairs, prefix) <==> x in pairs && StartsWith(x.key, prefix)
  {
    var s := Scan(pairs, prefix);
    KeepMembers(pairs, WithPrefix(prefix));
    KeepInOrder(pairs, WithPrefix(prefix));
    forall i, j | 0 <= i < j < |s| ensures StrLess(s[i].key, s[j].key) {
      assert Precedes(pairs, s[i], s[j]);
    }
  }

  /** The entries of the pairs on the branch. */
  lemma OnBranchFacts(pairs: seq<Pair>, branch: string)
    ensures forall e :: e in EntriesOf(Keep(pairs, OnBranch(branch)))
              <==> e.branch == branch && exists x :: x in pairs && x.entry == e
  {
    var kept := Keep(pairs, OnBranch(branch));
    KeepMembers(pairs, OnBranch(branch));
    forall e ensures e in EntriesOf(kept) <==> e.branch == branch && exists x :: x in pairs && x.entry == e {
      if e in EntriesOf(kept) {
        var i :| 0 <= i < |kept| && EntriesOf(kept)[i] == e;
        assert kept[i] in kept;
      }
      if x :| x in pairs && x.entry == e && e.branch == branch {
        var i :| 0 <= i < |kept| && kept[i] == x;
        assert EntriesOf(kept)[i] == e;
      }
    }
  }

  /** The pairs follow each other in time. */
  ghost predicate InTime(pairs: seq<Pair>) {
    forall i, j :: 0 <= i < j < |pairs| ==> StrLess(Iso(pairs[i].entry.at), Iso(pairs[j].entry.at))
  }

  lemma OnBranchInTime(pairs: seq<Pair>, branch: string)
    requires InTime(pairs)
    ensures Chronological(EntriesOf(Keep(pairs, OnBranch(branch))))
  {
    var kept := Keep(pairs, OnBranch(branch));
    KeepInOrder(pairs, OnBranch(branch));
    forall i, j | 0 <= i < j < |kept| ensures StrLess(Iso(kept[i].entry.at), Iso(kept[j].entry.at)) {
      assert Precedes(pairs, kept[i], kept[j]);
    }
  }

  lemma KeptIsWritten(entries: seq<Entry>, x: Pair, hash: Hash)
    requires Kept(entries, x, hash)
    ensures x.entry in entries && x.key == KeyOf(x.entry, hash)
  {
  }

  lemma ScanInTime(entries: seq<Entry>, q: Query, keys: set<Row>, hash: Hash)
    requires WellWritten(entries, keys, hash) && q.key in keys
    ensures InTime(Scan(Written(entries, hash), Prefix(q, hash)))
  {
    var s := Scan(Written(entries, hash), Prefix(q, hash));
    WrittenFacts(entries, hash);
    ScanFacts(Written(entries, hash), Prefix(q, hash));
    forall i, j | 0 <= i < j < |s| ensures StrLess(Iso(s[i].entry.at), Iso(s[j].entry.at)) {
      var e, f := s[i].entry, s[j].entry;
      assert s[i] in s && s[j] in s;
      KeptIsWritten(entries, s[i], hash);
      KeptIsWritten(entries, s[j], hash);
      ScanIsFilter(e, q, keys, hash);
      ScanIsFilter(f, q, keys, hash);
      IsoHasNoNul(e.at);
      IsoHasNoNul(f.at);
      OrderOfKeys(Leading(e.tenant, e.typeRid, e.key, hash), Iso(e.at), Iso(f.at));
    }
  }

  /** The store answers with the surviving writes of the entity, in order of time. */
  lemma StoreAnswers(entries: seq<Entry>, q: Query, keys: set<Row>, hash: Hash)
    requires WellWritten(entries, keys, hash) && q.key in keys
    ensures var r := StoreRead(Written(entries, hash), q, hash);
            Chronological(r)
            && forall e :: e in r <==> Answers(e, q) && Kept(entries, Pair(KeyOf(e, hash), e), hash)
  {
    var pairs, prefix := Written(entries, hash), Prefix(q, hash);
    var r := StoreRead(pairs, q, hash);
    WrittenFacts(entries, hash);
    ScanFacts(pairs, prefix);
    ScanInTime(entries, q, keys, hash);
    OnBranchInTime(Scan(pairs, prefix), q.branch);
    OnBranchFacts(Scan(pairs, prefix), q.branch);
    forall e ensures e in r <==> Answers(e, q) && Kept(entries, Pair(KeyOf(e, hash), e), hash) {
      if e in r {
        var x :| x in Scan(pairs, prefix) && x.entry == e;
        KeptIsWritten(entries, x, hash);
        ScanIsFilter(e, q, keys, hash);
      }
      if Answers(e, q) && Kept(entries, Pair(KeyOf(e, hash), e), hash) {
        KeptIsWritten(entries, Pair(KeyOf(e, hash), e), hash);
        ScanIsFilter(e, q, keys, hash);
        assert Pair(KeyOf(e, hash), e) in Scan(pairs, prefix);
      }
    }
  }

  /** With distinct times nothing is overwritten. */
  lemma DistinctTimesKeepAll(entries: seq<Entry>, e: Entry, keys: set<Row>, hash: Hash)
    requires WellWritten(entries, keys, hash) && DistinctTimes(entries)
    ensures Kept(entries, Pair(KeyOf(e, hash), e), hash) <==> e in entries
  {
    if e in entries {
      var i :| 0 <= i < |entries| && entries[i] == e;
      forall j | i < j < |entries| ensures KeyOf(entries[j], hash) != KeyOf(entries[i], hash) {
        assert entries[j] in entries;
        KeysAreSlots(entries[j], entries[i], keys, hash);
      }
      assert LastWrite(entries, i, hash);
    }
  }

  /** With distinct times, every read returns the same list from both back ends. */
  lemma StoreRefinesTable(entries: seq<Entry>, q: Query, keys: set<Row>, hash: Hash)
    requires WellWritten(entries, keys, hash) && DistinctTimes(entries) && q.key in keys
    ensures StoreRead(Written(entries, hash), q, hash) == TableRead(entries, q)
  {
    var r, s := StoreRead(Written(entries, hash), q, hash), TableRead(entries, q);
    StoreAnswers(entries, q, keys, hash);
    TableAnswers(entries, q);
    forall e ensures e in r <==> e in s {
      DistinctTimesKeepAll(entries, e, keys, hash);
    }
    SortedByKeyUnique(TimeText(), r, s);
  }

  /** Two writes in one slot: the table still returns the earlier one, the store does not. */
  lemma {:induction false} SharedTimeIsLost(entries: seq<Entry>, i: nat, j: nat, keys: set<Row>, hash: Hash)
    requires WellWritten(entries, keys, hash) && i < j < |entries| && SameSlot(entries[i], entries[j])
    ensures var e := entries[i];
            var q := Query(e.tenant, e.typeRid, e.key, e.branch);
            e in TableRead(entries, q) && e !in StoreRead(Written(entries, hash), q, hash)
  {
    var e := entries[i];
    var q := Query(e.tenant, e.typeRid, e.key, e.branch);
    KeepMembers(entries, Answering(q));
    OrderKeepsMembers(Select(entries, q));
    assert e in entries && entries[j] in entries;
    StoreAnswers(entries, q, keys, hash);
    KeysAreSlots(e, entries[j], keys, hash);
    assert !LastWrite(entries, i, hash);
    forall k | LastWrite(entries, k, hash) ensures entries[k] != e {
      assert entries[k].id != entries[i].id;
    }
  }

  ghost predicate Agree(entries: seq<Entry>, keys: set<Row>, hash: Hash) {
    forall q: Query :: q.key in keys ==> StoreRead(Written(entries, hash), q, hash) == TableRead(entries, q)
  }

  /** The ordered store refines the table exactly when no entity has two writes at one time. */
  lemma StoresAgreeExactly(entries: seq<Entry>, keys: set<Row>, hash: Hash)
    requires WellWritten(entries, keys, hash)
    ensures Agree(entries, keys, hash) <==> DistinctTimes(entries)
  {
    if DistinctTimes(entries) {
      forall q: Query | q.key in keys
        ensures StoreRead(Written(entries, hash), q, hash) == TableRead(entries, q)
      {
        StoreRefinesTable(entries, q, keys, hash);
      }
    } else {
      var i, j :| 0 <= i < j < |entries| && SameSlot(entries[i], entries[j]);
      var e := entries[i];
      SharedTimeIsLost(entries, i, j, keys, hash);
      assert e in entries;
      var q := Query(e.tenant, e.typeRid, e.key, e.branch);
      assert StoreRead(Written(entries, hash), q, hash) != TableRead(entries, q);
      assert !Agree(entries, keys, hash);
    }
  }
}
