/** `createInMemoryDb` in server/src/db/index.ts: named tables held as
    arrays of plain objects, with a raw `query`, `select`, `insert`, `update`
    and `delete` that filter on a plain-object condition (every key of the
    condition must be `===` to the row's value).

    A table is addressed by its name. Clock readings are a parameter
    `now`, the ISO text of the current time; generated ids are a parameter
    `freshId`. */
module InMemoryDb {
  import opened Js

  type Table = seq<Record>

  const UsersTable := "users"

  /** The row satisfies the condition: every key the condition has reads the
      same value from the row (a key the row lacks reads as `undefined`). */
  predicate Matches(row: Record, condition: Record) {
    forall key | key in condition :: Get(row, key) == condition[key]
  }

  /** `t.filter(keepRow)`: the rows the callback keeps, in table order. */
  function Filter(t: Table, keepRow: Record -> bool): (rows: Table)
    ensures |rows| <= |t|
  {
    if t == [] then [] else (if keepRow(t[0]) then [t[0]] else []) + Filter(t[1..], keepRow)
  }

  /** The filter keeps table order: it distributes over concatenation. */
  lemma {:induction false} FilterAppend(a: Table, b: Table, keepRow: Record -> bool)
    ensures Filter(a + b, keepRow) == Filter(a, keepRow) + Filter(b, keepRow)
  {
    if a == [] {
      assert a + b == b;
    } else {
      var row, rest := a[0], a[1..];
      assert a == [row] + rest && a + b == [row] + (rest + b);
      FilterCons(row, rest + b, keepRow);
      FilterCons(row, rest, keepRow);
      FilterAppend(rest, b, keepRow);
    }
  }

  /** One row in front is kept or dropped on its own. */
  lemma FilterCons(row: Record, t: Table, keepRow: Record -> bool)
    ensures Filter([row] + t, keepRow) == (if keepRow(row) then [row] else []) + Filter(t, keepRow)
  {
    assert ([row] + t)[1..] == t;
  }

  /** The callback that keeps the matching (`keep`) or the non-matching
      (`!keep`) rows. */
  function Side(condition: Record, keep: bool): (keepRow: Record -> bool)
    ensures forall r :: keepRow(r) == (Matches(r, condition) == keep)
  {
    r => Matches(r, condition) == keep
  }

  /** The rows of `t` that match (`keep`) or do not match (`!keep`) the
      condition, in table order. */
  function Partition(t: Table, condition: Record, keep: bool): (rows: Table)
    ensures |rows| <= |t|
  {
    Filter(t, Side(condition, keep))
  }

  /** A row is in the result exactly when it is in the table on that side. */
  lemma {:induction false} PartitionMembers(t: Table, condition: Record, keep: bool)
    ensures forall r :: r in Partition(t, condition, keep) <==> r in t && Matches(r, condition) == keep
  {
    if t != [] {
      PartitionMembers(t[1..], condition, keep);
      assert t == [t[0]] + t[1..];
    }
  }

  /** Partitioning keeps table order: it distributes over concatenation. */
  lemma PartitionAppend(a: Table, b: Table, condition: Record, keep: bool)
    ensures Partition(a + b, condition, keep) == Partition(a, condition, keep) + Partition(b, condition, keep)
  {
    FilterAppend(a, b, Side(condition, keep));
  }

  /** The empty condition `{}` is matched by every row. */
  lemma {:induction false} PartitionEmptyCondition(t: Table)
    ensures Partition(t, map[], true) == t
  {
    if t != [] {
      PartitionEmptyCondition(t[1..]);
      assert Matches(t[0], map[]);
    }
  }

  /** Every row is on exactly one side. */
  lemma {:induction false} PartitionSizes(t: Table, condition: Record)
    ensures |Partition(t, condition, true)| + |Partition(t, condition, false)| == |t|
  {
    if t != [] {
      PartitionSizes(t[1..], condition);
    }
  }

  /** The row an insert stores: every field of `data`, an `id` of
      `data.id || freshId`, and `createdAt`/`updatedAt` defaulting to `now`
      when falsy. */
  function NewItem(data: Record, freshId: string, now: string): (item: Record)
    ensures item.Keys == data.Keys + {"id", "createdAt", "updatedAt"}
    ensures forall k | k in data && k != "id" && k != "createdAt" && k != "updatedAt" :: item[k] == data[k]
    ensures item["id"] == Or(Get(data, "id"), Str(freshId))
    ensures item["createdAt"] == Or(Get(data, "createdAt"), Str(now))
    ensures item["updatedAt"] == Or(Get(data, "updatedAt"), Str(now))
  {
    data + map[
      "id" := Or(Get(data, "id"), Str(freshId)),
      "createdAt" := Or(Get(data, "createdAt"), Str(now)),
      "updatedAt" := Or(Get(data, "updatedAt"), Str(now))]
  }

  /** The object literal as the insert writes it: the defaulted `id` comes
      before `...data`, so an own `id` of `data` overrides it even when that
      own value is falsy. */
  function NewItemAsWritten(data: Record, freshId: string, now: string): (item: Record)
    ensures item.Keys == data.Keys + {"id", "createdAt", "updatedAt"}
    ensures "id" in data ==> item["id"] == data["id"]
  {
    map["id" := Or(Get(data, "id"), Str(freshId))] + data + map[
      "createdAt" := Or(Get(data, "createdAt"), Str(now)),
      "updatedAt" := Or(Get(data, "updatedAt"), Str(now))]
  }

  /** A row inserted with a non-empty fresh id never has a falsy id. */
  lemma NewItemHasId(data: Record, freshId: string, now: string)
    requires freshId != ""
    ensures !Falsy(NewItem(data, freshId, now)["id"])
    ensures !Falsy(Get(data, "id")) ==> NewItem(data, freshId, now)["id"] == data["id"]
  {
  }

  /** With `{ id: null }` as data, the row as written is stored with a null
      id although a fresh id was generated. */
  lemma AsWrittenLosesId(freshId: string, now: string)
    requires freshId != ""
    ensures NewItemAsWritten(map["id" := Null], freshId, now)["id"] == Null
    ensures NewItem(map["id" := Null], freshId, now)["id"] == Str(freshId)
  {
  }

  /** Both literals agree whenever `data` has no own `id` or a truthy one. */
  lemma {:induction false} AsWrittenAgreesOtherwise(data: Record, freshId: string, now: string)
    requires "id" !in data || !Falsy(data["id"])
    ensures NewItemAsWritten(data, freshId, now) == NewItem(data, freshId, now)
  {
    var w, c := NewItemAsWritten(data, freshId, now), NewItem(data, freshId, now);
    assert w.Keys == c.Keys;
    forall k | k in w.Keys ensures w[k] == c[k] {
    }
  }

  /** `{ ...row, ...data, updatedAt: now }`. */
  function Merge(row: Record, data: Record, now: string): (merged: Record)
    ensures merged.Keys == row.Keys + data.Keys + {"updatedAt"}
    ensures merged["updatedAt"] == Str(now)
    ensures forall k | k in data && k != "updatedAt" :: merged[k] == data[k]
    ensures forall k | k in row && k !in data && k != "updatedAt" :: merged[k] == row[k]
  {
    row + data + map["updatedAt" := Str(now)]
  }

  /** The table after the update: each matching row merged, the rest as
      they were. */
  function UpdatedRows(t: Table, data: Record, condition: Record, now: string): (rows: Table)
    ensures |rows| == |t|
    ensures forall i | 0 <= i < |t| ::
      rows[i] == if Matches(t[i], condition) then Merge(t[i], data, now) else t[i]
  {
    seq(|t|, i requires 0 <= i < |t| => if Matches(t[i], condition) then Merge(t[i], data, now) else t[i])
  }

  /** A non-matching row is not touched by an update. */
  lemma UpdateLeavesOthers(t: Table, data: Record, condition: Record, now: string, i: nat)
    requires i < |t| && !Matches(t[i], condition)
    ensures UpdatedRows(t, data, condition, now)[i] == t[i]
  {
  }

  /** A row matched by a condition about keys the update does not write
      still matches after the update. */
  lemma UpdateKeepsMatch(row: Record, data: Record, condition: Record, now: string)
    requires Matches(row, condition)
    requires forall k | k in condition :: k !in data && k != "updatedAt"
    ensures Matches(Merge(row, data, now), condition)
  {
    var merged := Merge(row, data, now);
    forall k | k in condition ensures Get(merged, k) == condition[k] {
      if k in row {
        assert merged[k] == row[k];
      } else {
        assert k !in merged;
      }
    }
  }

  /** The first row whose `email` is `===` to the given string. */
  function FindByEmail(t: Table, email: string): (found: Option<Record>)
    ensures found.None? <==> forall r | r in t :: Get(r, "email") != Str(email)
    ensures found.Some? ==> found.value in t && Get(found.value, "email") == Str(email)
  {
    if t == [] then None
    else if Get(t[0], "email") == Str(email) then Some(t[0])
    else FindByEmail(t[1..], email)
  }

  /** With several rows holding the email, the earliest one is found. */
  lemma {:induction false} FindByEmailIsEarliest(t: Table, email: string, i: nat)
    requires i < |t| && Get(t[i], "email") == Str(email)
    requires forall j | 0 <= j < i :: Get(t[j], "email") != Str(email)
    ensures FindByEmail(t, email) == Some(t[i])
  {
    if i > 0 {
      assert Get(t[0], "email") != Str(email);
      FindByEmailIsEarliest(t[1..], email, i - 1);
    }
  }

  // ---- the raw query: prefix test and the email capture ----

  function LowerChar(c: char): char {
    if 'A' <= c <= 'Z' then (c as int + 32) as char else c
  }

  /** `toLowerCase()` on the ASCII letters (enough for comparing against an
      ASCII-only lower-case prefix: no other character lowers to one of the
      prefix's letters). */
  function Lower(s: string): (l: string)
    ensures |l| == |s|
    ensures forall i | 0 <= i < |s| :: l[i] == LowerChar(s[i])
  {
    seq(|s|, i requires 0 <= i < |s| => LowerChar(s[i]))
  }

  const QueryPrefix := "select * from users where email"

  predicate StartsWith(s: string, prefix: string) {
    |prefix| <= |s| && s[..|prefix|] == prefix
  }

  /** First index at or after `j` that is not `\s` (or the length). */
  function SkipSpaces(q: string, j: nat): (k: nat)
    requires j <= |q|
    ensures j <= k <= |q|
    ensures forall m | j <= m < k :: IsSpace(q[m])
    ensures k < |q| ==> !IsSpace(q[k])
    decreases |q| - j
  {
    if j == |q| || !IsSpace(q[j]) then j else SkipSpaces(q, j + 1)
  }

  /** First index at or after `j` holding a quote (or the length). */
  function NextQuote(q: string, j: nat): (k: nat)
    requires j <= |q|
    ensures j <= k <= |q|
    ensures forall m | j <= m < k :: q[m] != '\''
    ensures k < |q| ==> q[k] == '\''
    decreases |q| - j
  {
    if j == |q| || q[j] == '\'' then j else NextQuote(q, j + 1)
  }

  predicate EmailAt(q: string, i: nat) {
    i + 5 <= |q| && q[i..i + 5] == "email"
  }

  /** `/email\s*=\s*'([^']+)'/` anchored at `i`. The greedy parts cannot
      backtrack usefully: `\s*` is followed by a non-space and `[^']+` by a
      quote, so the only candidate is the maximal run each time. */
  function CaptureAt(q: string, i: nat): (captured: Option<string>)
    ensures captured.Some? ==> EmailAt(q, i) && captured.value != [] && '\'' !in captured.value
  {
    if !EmailAt(q, i) then None
    else
      var j := SkipSpaces(q, i + 5);
      if j == |q| || q[j] != '=' then None
      else
        var k := SkipSpaces(q, j + 1);
        if k == |q| || q[k] != '\'' then None
        else
          var e := NextQuote(q, k + 1);
          if e == |q| || e == k + 1 then None else Some(q[k + 1..e])
  }

  /** The leftmost match at or after `i`, and its group 1. */
  function CaptureFrom(q: string, i: nat): (captured: Option<string>)
    ensures captured.Some? ==> captured.value != [] && '\'' !in captured.value
    decreases |q| - i
  {
    if i >= |q| then None
    else
      match CaptureAt(q, i)
      case Some(e) => Some(e)
      case None => CaptureFrom(q, i + 1)
  }

  /** Positions without the keyword are skipped by the leftmost search. */
  lemma {:induction false} CaptureSkips(q: string, i: nat, n: nat)
    requires i <= n <= |q|
    requires forall m | i <= m < n :: !EmailAt(q, m)
    ensures CaptureFrom(q, i) == CaptureFrom(q, n)
    decreases n - i
  {
    if i < n {
      CaptureSkips(q, i + 1, n);
    }
  }

  /** A run of white space from `j` up to a non-space at `n` is skipped
      wholly. */
  lemma {:induction false} AllSpaces(q: string, j: nat, n: nat)
    requires j <= n < |q| && !IsSpace(q[n])
    requires forall m | j <= m < n :: IsSpace(q[m])
    ensures SkipSpaces(q, j) == n
    decreases n - j
  {
    if j < n {
      AllSpaces(q, j + 1, n);
    }
  }

  /** A quote-free run from `j` ends at the quote at `n`. */
  lemma {:induction false} NoQuotes(q: string, j: nat, n: nat)
    requires j <= n < |q| && q[n] == '\''
    requires forall m | j <= m < n :: q[m] != '\''
    ensures NextQuote(q, j) == n
    decreases n - j
  {
    if j < n {
      NoQuotes(q, j + 1, n);
    }
  }

  /** At `i` the query reads `email`, then white space up to `j`, `=` at
      `j`, white space up to `k`, a quote at `k`, a non-empty quote-free
      text up to `end`, and a quote at `end`. */
  predicate LookupAt(q: string, i: nat, j: nat, k: nat, end: nat) {
    i + 5 <= j < k && k + 1 < end < |q| &&
    q[i..i + 5] == "email" &&
    (forall m | i + 5 <= m < j :: IsSpace(q[m])) && q[j] == '=' &&
    (forall m | j + 1 <= m < k :: IsSpace(q[m])) && q[k] == '\'' &&
    (forall m | k + 1 <= m < end :: q[m] != '\'') && q[end] == '\''
  }

  /** The anchored match at such a position captures exactly the quoted
      text. */
  lemma CaptureAtLookup(q: string, i: nat, j: nat, k: nat, end: nat)
    requires LookupAt(q, i, j, k, end)
    ensures CaptureAt(q, i) == Some(q[k + 1..end])
  {
    AllSpaces(q, i + 5, j);
    AllSpaces(q, j + 1, k);
    NoQuotes(q, k + 1, end);
  }

  /** With no earlier occurrence of `email`, the leftmost match is that
      one, so the captured email is exactly the quoted text. */
  lemma CaptureOfLookup(q: string, i: nat, j: nat, k: nat, end: nat)
    requires LookupAt(q, i, j, k, end)
    requires forall m | 0 <= m < i :: !EmailAt(q, m)
    ensures CaptureFrom(q, 0) == Some(q[k + 1..end])
  {
    CaptureSkips(q, 0, i);
    CaptureAtLookup(q, i, j, k, end);
  }

  /** The store: table name to rows. */
  class MemoryStore {
    var tables: map<string, Table>

    constructor ()
      ensures tables == map["users" := [], "projects" := [], "tasks" := [], "projectMembers" := [], "taskComments" := []]
    {
      tables := map["users" := [], "projects" := [], "tasks" := [], "projectMembers" := [], "taskComments" := []];
    }

    /** `inMemoryDb[name] || []` */
    function TableOf(name: string): (t: Table)
      reads this
      ensures name !in tables ==> t == []
      ensures name in tables ==> t == tables[name]
    {
      if name in tables then tables[name] else []
    }

    /** `query(text)`: answers only a users-by-email lookup, whose prefix is
        compared without regard to ASCII case; every other text, and a
        lookup without a capturable email, gets no rows. */
    function Query(q: string): (rows: Table)
      reads this
      ensures |rows| <= 1
      ensures !StartsWith(Lower(q), QueryPrefix) ==> rows == []
      ensures rows != [] ==> (rows[0] in TableOf(UsersTable) &&
        CaptureFrom(q, 0).Some? && Get(rows[0], "email") == Str(CaptureFrom(q, 0).value))
      ensures StartsWith(Lower(q), QueryPrefix) && CaptureFrom(q, 0).Some? ==>
        (rows == [] <==> forall r | r in TableOf(UsersTable) :: Get(r, "email") != Str(CaptureFrom(q, 0).value))
      ensures rows != [] ==> rows == [FindByEmail(TableOf(UsersTable), CaptureFrom(q, 0).value).value]
    {
      if !StartsWith(Lower(q), QueryPrefix) then []
      else
        match CaptureFrom(q, 0)
        case None => []
        case Some(email) =>
          match FindByEmail(TableOf(UsersTable), email)
          case None => []
          case Some(user) => [user]
    }

    /** `select().from(name).execute()`: the whole table, or none. */
    function SelectAll(name: string): (rows: Table)
      reads this
      ensures rows == TableOf(name)
      ensures rows == Partition(TableOf(name), map[], true)
    {
      PartitionEmptyCondition(TableOf(name));
      TableOf(name)
    }

    /** `select().from(name).where(condition).execute()`: with an object
        condition, exactly its matching rows in table order; with none, the
        whole table. */
    function SelectWhere(name: string, condition: Option<Record>): (rows: Table)
      reads this
      ensures condition.None? ==> rows == TableOf(name)
      ensures condition.Some? ==> rows == Partition(TableOf(name), condition.value, true)
      ensures condition.Some? ==> forall r :: r in rows <==> r in TableOf(name) && Matches(r, condition.value)
      ensures |rows| <= |TableOf(name)|
    {
      match condition
      case None => TableOf(name)
      case Some(c) => PartitionMembers(TableOf(name), c, true); Partition(TableOf(name), c, true)
    }

    /** `insert(name).values(data).returning()`: creates the table when
        absent and appends one row; nothing else changes. */
    method InsertReturning(name: string, data: Record, freshId: string, now: string) returns (inserted: Table)
      modifies this
      ensures tables == old(tables)[name := old(TableOf(name)) + [NewItem(data, freshId, now)]]
      ensures inserted == [NewItem(data, freshId, now)]
    {
      if name !in tables {
        tables := tables[name := []];
      }
      var item := NewItem(data, freshId, now);
      tables := tables[name := tables[name] + [item]];
      inserted := [item];
    }

    /** `insert(name).values(data).execute()`: the same, answering nothing. */
    method InsertExecute(name: string, data: Record, freshId: string, now: string)
      modifies this
      ensures tables == old(tables)[name := old(TableOf(name)) + [NewItem(data, freshId, now)]]
    {
      var _ := InsertReturning(name, data, freshId, now);
    }

    /** The `for...in` key loop of the update, with its early `break`. */
    static method RowMatches(row: Record, condition: Record) returns (matched: bool)
      ensures matched <==> Matches(row, condition)
    {
      matched := true;
      var remaining := condition.Keys;
      while remaining != {}
        invariant remaining <= condition.Keys
        invariant matched
        invariant forall key | key in condition.Keys - remaining :: Get(row, key) == condition[key]
        decreases remaining
      {
        var key :| key in remaining;
        if Get(row, key) != condition[key] {
          matched := false;
          break;
        }
        remaining := remaining - {key};
      }
    }

    /** `update(name).set(data).where(condition).execute()`: creates the
        table when absent and merges `data` and a fresh `updatedAt` into
        each matching row; no row is added, removed or moved. */
    method UpdateWhere(name: string, data: Record, condition: Record, now: string)
      modifies this
      ensures tables == old(tables)[name := UpdatedRows(old(TableOf(name)), data, condition, now)]
    {
      if name !in tables {
        tables := tables[name := []];
      }
      var original := tables[name];
      assert tables == old(tables)[name := original];
      var rows := original;
      var index := 0;
      while index < |rows|
        invariant 0 <= index <= |rows| == |original|
        invariant forall i | 0 <= i < index ::
          rows[i] == if Matches(original[i], condition) then Merge(original[i], data, now) else original[i]
        invariant forall i | index <= i < |rows| :: rows[i] == original[i]
        invariant tables == old(tables)[name := original]
      {
        var matched := RowMatches(rows[index], condition);
        if matched {
          rows := rows[index := Merge(rows[index], data, now)];
        }
        index := index + 1;
      }
      assert rows == UpdatedRows(original, data, condition, now);
      tables := tables[name := rows];
    }

    /** `delete(name).where(condition).execute()`: a missing table is left
        missing and answers nothing; otherwise the matching rows are removed,
        the rest keep their order, and `rowCount` is the number removed. */
    method DeleteWhere(name: string, condition: Record) returns (rowCount: Option<int>)
      modifies this
      ensures name !in old(tables) ==> tables == old(tables) && rowCount == None
      ensures name in old(tables) ==>
        tables == old(tables)[name := Partition(old(tables[name]), condition, false)] &&
        rowCount == Some(|old(tables[name])| - |tables[name]|)
    {
      if name !in tables {
        return None;
      }
      var initialLength := |tables[name]|;
      tables := tables[name := Partition(tables[name], condition, false)];
      rowCount := Some(initialLength - |tables[name]|);
    }
  }

  /** The `rowCount` of a delete is the number of rows a select with the
      same condition would have returned. */
  lemma DeleteCountsMatches(t: Table, condition: Record)
    ensures |t| - |Partition(t, condition, false)| == |Partition(t, condition, true)|
  {
    PartitionSizes(t, condition);
  }

  /** After a delete, a select with the same condition finds nothing. */
  lemma {:induction false} SelectAfterDeleteIsEmpty(t: Table, condition: Record)
    ensures Partition(Partition(t, condition, false), condition, true) == []
  {
    if t != [] {
      var head := if Matches(t[0], condition) then [] else [t[0]];
      assert Partition(t, condition, false) == head + Partition(t[1..], condition, false);
      PartitionAppend(head, Partition(t[1..], condition, false), condition, true);
      SelectAfterDeleteIsEmpty(t[1..], condition);
    }
  }

  /** A select after an insert sees the old matches followed by the new
      row, exactly when the new row matches. */
  lemma SelectAfterInsert(t: Table, item: Record, condition: Record)
    ensures Partition(t + [item], condition, true) ==
      Partition(t, condition, true) + (if Matches(item, condition) then [item] else [])
  {
    PartitionAppend(t, [item], condition, true);
  }
}
