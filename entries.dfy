/**
 * The entries query of getFilteredEntriesHandler (main.go) and
 * GetFilteredEntriesHandler (handlers/entries.go), which are the same
 * code: clamp the page, turn the query parameters into a conjunction of
 * conditions, and let the database order by id, filter, skip the offset
 * and return at most 100 devices. The table is an in-memory sequence.
 */
module Entries {
  import opened Wrappers
  import opened Models
  import opened Strconv

  /** limit: the page size. */
  const Limit := 100

  /** The query parameters; Query().Get gives "" for a missing one. */
  datatype Params = Params(page: string, deviceType: string, deviceName: string, os: string, brand: string, idRange: string)

  /**
   * page: Atoi's value with the error dropped, raised to 1. A missing,
   * malformed or non-positive page is page 1; a page too large for an
   * int, or whose leading digits overflow a uint64, is page MaxInt.
   */
  function Page(s: string): (p: int)
    ensures 1 <= p <= MaxInt
    ensures Overflows(s) ==> p == (if Negative(s) then 1 else MaxInt)
    ensures !IsDecimal(s) && !Overflows(s) ==> p == 1
    ensures IsDecimal(s) && DecimalValue(s) < 1 ==> p == 1
    ensures IsDecimal(s) && 1 <= DecimalValue(s) <= MaxInt ==> p == DecimalValue(s)
    ensures IsDecimal(s) && DecimalValue(s) > MaxInt ==> p == MaxInt
  {
    var page := Atoi(s).value;
    if page < 1 then 1 else page
  }

  /** Every positive page number written in decimal is read back as itself. */
  lemma PageItoa(n: int)
    requires 1 <= n <= MaxInt
    ensures Page(Itoa(n)) == n
  {
    AtoiItoa(n);
  }

  /**
   * offset as the handler means it: the pages before this one, 100 rows
   * each. It is never negative.
   */
  function Offset(page: int): (o: nat)
    requires page >= 1
    ensures o % Limit == 0 && o / Limit == page - 1
  {
    (page - 1) * Limit
  }

  /** Go's int arithmetic: the result reduced into the 64-bit two's-complement range. */
  function Wrap64(x: int): (r: int)
    ensures MinInt <= r <= MaxInt
    ensures MinInt <= x <= MaxInt ==> r == x
    ensures (r - x) % 0x1_0000_0000_0000_0000 == 0
  {
    (x - MinInt) % 0x1_0000_0000_0000_0000 + MinInt
  }

  /** offset := (page - 1) * limit as the handler writes it, in 64-bit int arithmetic. */
  function OffsetAsWritten(page: int): int {
    Wrap64((page - 1) * Limit)
  }

  /** For every page whose offset fits in an int the handler computes the intended offset. */
  lemma OffsetAgrees(page: int)
    requires 1 <= page && (page - 1) * Limit <= MaxInt
    ensures OffsetAsWritten(page) == Offset(page)
  {
  }

  /**
   * A page number that fits in an int (so Atoi accepts it, PageItoa) and
   * whose offset wraps around to a negative number.
   */
  lemma OffsetOverflows(page: int)
    requires page == 92233720368547760
    ensures 1 <= page <= MaxInt
    ensures OffsetAsWritten(page) < 0
  {
    var x := (page - 1) * Limit;
    assert x == 9223372036854775900;
    assert (x - MinInt) % 0x1_0000_0000_0000_0000 == 92;
  }

  /**
   * A page number that fits in an int and whose offset wraps around to
   * exactly 0, so the handler serves the rows of page 1 for it.
   */
  lemma OffsetWrapsToFirstPage(page: int, s: seq<Device>)
    requires page == 4611686018427387905
    ensures 1 <= page <= MaxInt
    ensures OffsetAsWritten(page) == 0
    ensures Window(s, OffsetAsWritten(page), Limit) == Window(s, Offset(1), Limit)
  {
    var x := (page - 1) * Limit;
    assert x == 461168601842738790400;
    assert (x - MinInt) % 0x1_0000_0000_0000_0000 == 0x8000_0000_0000_0000;
  }

  // strings.Split with a one-character separator.

  function Split(s: string, sep: char): (parts: seq<string>)
    ensures |parts| >= 1
    decreases |s|
  {
    if |s| == 0 then [""]
    else
      var rest := Split(s[1..], sep);
      if s[0] == sep then [""] + rest else [[s[0]] + rest[0]] + rest[1..]
  }

  /** strings.Join, the partner of Split. */
  function Join(parts: seq<string>, sep: char): string
    requires |parts| >= 1
    decreases |parts|
  {
    if |parts| == 1 then parts[0] else parts[0] + [sep] + Join(parts[1..], sep)
  }

  /** How often `c` occurs in `s`. */
  function Count(s: string, c: char): nat
    decreases |s|
  {
    if |s| == 0 then 0 else (if s[0] == c then 1 else 0) + Count(s[1..], c)
  }

  /** Joining the parts with the separator gives back the string. */
  lemma {:induction false} SplitJoin(s: string, sep: char)
    ensures Join(Split(s, sep), sep) == s
    decreases |s|
  {
    if |s| > 0 {
      SplitJoin(s[1..], sep);
      var rest := Split(s[1..], sep);
      var parts := Split(s, sep);
      if s[0] == sep {
        assert parts[1..] == rest;
        assert s == [sep] + s[1..];
      } else if |rest| == 1 {
        assert s == [s[0]] + s[1..];
      } else {
        assert parts[1..] == rest[1..];
        assert Join(rest, sep) == rest[0] + [sep] + Join(rest[1..], sep);
        assert s == [s[0]] + s[1..];
      }
    }
  }

  /** There is one part more than there are separators, and no part holds a separator. */
  lemma {:induction false} SplitCount(s: string, sep: char)
    ensures |Split(s, sep)| == Count(s, sep) + 1
    ensures forall i :: 0 <= i < |Split(s, sep)| ==> sep !in Split(s, sep)[i]
    decreases |s|
  {
    if |s| > 0 {
      SplitCount(s[1..], sep);
      var rest := Split(s[1..], sep);
      var parts := Split(s, sep);
      if s[0] != sep {
        forall i | 0 <= i < |parts|
          ensures sep !in parts[i]
        {
          if i == 0 {
            assert sep !in rest[0];
            assert parts[0] == [s[0]] + rest[0];
          } else {
            assert parts[i] == rest[i];
          }
        }
      } else {
        forall i | 0 <= i < |parts|
          ensures sep !in parts[i]
        {
          if i > 0 {
            assert parts[i] == rest[i - 1];
          }
        }
      }
    }
  }

  /** A string without the separator is a single part. */
  lemma {:induction false} SplitNone(s: string, sep: char)
    requires sep !in s
    ensures Split(s, sep) == [s]
    decreases |s|
  {
    if |s| > 0 {
      assert s[0] in s;
      assert forall c :: c in s[1..] ==> c in s;
      SplitNone(s[1..], sep);
      assert s == [s[0]] + s[1..];
    }
  }

  /** A part without the separator, then the separator, then the rest. */
  lemma {:induction false} SplitFirst(x: string, sep: char, y: string)
    requires sep !in x
    ensures Split(x + [sep] + y, sep) == [x] + Split(y, sep)
    decreases |x|
  {
    var s := x + [sep] + y;
    if |x| == 0 {
      assert s[1..] == y;
    } else {
      assert x[0] in x;
      assert forall c :: c in x[1..] ==> c in x;
      SplitFirst(x[1..], sep, y);
      assert s[1..] == x[1..] + [sep] + y;
      assert x == [x[0]] + x[1..];
    }
  }

  lemma {:induction false} CountAppend(x: string, y: string, c: char)
    ensures Count(x + y, c) == Count(x, c) + Count(y, c)
    decreases |x|
  {
    if |x| == 0 {
      assert x + y == y;
    } else {
      CountAppend(x[1..], y, c);
      assert (x + y)[1..] == x[1..] + y;
    }
  }

  // idRange.

  /** The inclusive bounds of an id range. */
  datatype Range = Range(lo: int, hi: int)

  /**
   * The idRange parameter: used only when it is non-empty and splits on
   * '-' into exactly two parts; each bound is Atoi's value with the error
   * dropped.
   */
  function IdRange(s: string): (r: Option<Range>)
    ensures r.Some? ==> MinInt <= r.value.lo <= MaxInt && MinInt <= r.value.hi <= MaxInt
  {
    if s == "" then None
    else
      var ids := Split(s, '-');
      if |ids| == 2 then Some(Range(Atoi(ids[0]).value, Atoi(ids[1]).value)) else None
  }

  /** The range applies exactly when the parameter holds a single '-'. */
  lemma IdRangeApplies(s: string)
    ensures IdRange(s).Some? <==> Count(s, '-') == 1
  {
    SplitCount(s, '-');
  }

  lemma NoDash(n: nat)
    ensures '-' !in NatDigits(n) && |NatDigits(n)| > 0
  {
    NatDigitsValue(n);
    forall i | 0 <= i < |NatDigits(n)|
      ensures NatDigits(n)[i] != '-'
    {
      assert IsDigit(NatDigits(n)[i]);
    }
  }

  /** Two non-negative ids written as "start-end" give that range. */
  lemma IdRangeItoa(a: int, b: int)
    requires 0 <= a <= MaxInt && 0 <= b <= MaxInt
    ensures IdRange(Itoa(a) + "-" + Itoa(b)) == Some(Range(a, b))
  {
    NoDash(a);
    NoDash(b);
    SplitFirst(Itoa(a), '-', Itoa(b));
    SplitNone(Itoa(b), '-');
    AtoiItoa(a);
    AtoiItoa(b);
  }

  /** A negative start id makes three parts, so the range is ignored. */
  lemma IdRangeNegative(a: int, b: int)
    requires MinInt <= a < 0 && 0 <= b <= MaxInt
    ensures IdRange(Itoa(a) + "-" + Itoa(b)) == None
  {
    NoDash(-a);
    NoDash(b);
    IdRangeApplies(Itoa(a) + "-" + Itoa(b));
    assert Itoa(a) == "-" + NatDigits(-a);
    CountAppend("-", NatDigits(-a), '-');
    CountAppend(Itoa(a), "-", '-');
    CountAppend(Itoa(a) + "-", Itoa(b), '-');
    CountNone(NatDigits(-a), '-');
    CountNone(Itoa(b), '-');
  }

  lemma {:induction false} CountNone(s: string, c: char)
    requires c !in s
    ensures Count(s, c) == 0
    decreases |s|
  {
    if |s| > 0 {
      assert s[0] in s;
      assert forall x :: x in s[1..] ==> x in s;
      CountNone(s[1..], c);
    }
  }

  // The query.

  datatype Column = DeviceTypeColumn | DeviceNameColumn | OsColumn | BrandColumn

  /** One Where clause: `column = ?` or `id BETWEEN ? AND ?`. */
  datatype Condition = Equals(column: Column, value: string) | Between(lo: int, hi: int)

  /** db.Order("id ASC").Limit(limit).Offset(offset) with its Where clauses. */
  datatype Query = Query(limit: nat, offset: int, conditions: seq<Condition>)

  function ColumnValue(d: Device, c: Column): string {
    match c
    case DeviceTypeColumn => d.deviceType
    case DeviceNameColumn => d.deviceName
    case OsColumn => d.os
    case BrandColumn => d.brand
  }

  predicate Satisfies(d: Device, c: Condition) {
    match c
    case Equals(column, value) => ColumnValue(d, column) == value
    case Between(lo, hi) => lo <= d.id <= hi
  }

  /** Where clauses are conjunctive. */
  predicate Matches(d: Device, conditions: seq<Condition>) {
    forall i :: 0 <= i < |conditions| ==> Satisfies(d, conditions[i])
  }

  /**
   * The devices the request asks for: an empty parameter constrains
   * nothing, a non-empty one its column, and a usable idRange the id.
   */
  predicate Wanted(p: Params, d: Device) {
    && (p.deviceType != "" ==> d.deviceType == p.deviceType)
    && (p.deviceName != "" ==> d.deviceName == p.deviceName)
    && (p.os != "" ==> d.os == p.os)
    && (p.brand != "" ==> d.brand == p.brand)
    && (IdRange(p.idRange).Some? ==> IdRange(p.idRange).value.lo <= d.id <= IdRange(p.idRange).value.hi)
  }

  /** `[c]` when the parameter is used, nothing when it is not. */
  function When(used: bool, c: Condition): seq<Condition> {
    if used then [c] else []
  }

  /** The Where clauses a request gives rise to, in the handler's order. */
  function Conditions(p: Params): seq<Condition> {
    When(p.deviceType != "", Equals(DeviceTypeColumn, p.deviceType))
    + When(p.deviceName != "", Equals(DeviceNameColumn, p.deviceName))
    + When(p.os != "", Equals(OsColumn, p.os))
    + When(p.brand != "", Equals(BrandColumn, p.brand))
    + RangeCondition(p.idRange)
  }

  /** `id BETWEEN lo AND hi` when the idRange parameter is usable. */
  function RangeCondition(idRange: string): seq<Condition> {
    match IdRange(idRange)
    case None => []
    case Some(r) => [Between(r.lo, r.hi)]
  }

  lemma MatchesAppend(d: Device, a: seq<Condition>, b: seq<Condition>)
    ensures Matches(d, a + b) <==> Matches(d, a) && Matches(d, b)
  {
    if Matches(d, a + b) {
      forall i | 0 <= i < |a|
        ensures Satisfies(d, a[i])
      {
        assert (a + b)[i] == a[i];
      }
      forall i | 0 <= i < |b|
        ensures Satisfies(d, b[i])
      {
        assert (a + b)[|a| + i] == b[i];
      }
    }
  }

  lemma MatchesWhen(d: Device, used: bool, c: Condition)
    ensures Matches(d, When(used, c)) <==> (used ==> Satisfies(d, c))
  {
    if used {
      assert When(used, c)[0] == c;
    }
  }

  /** The conditions select exactly the wanted devices. */
  lemma ConditionsWanted(p: Params, d: Device)
    ensures Matches(d, Conditions(p)) <==> Wanted(p, d)
  {
    var c1 := When(p.deviceType != "", Equals(DeviceTypeColumn, p.deviceType));
    var c2 := When(p.deviceName != "", Equals(DeviceNameColumn, p.deviceName));
    var c3 := When(p.os != "", Equals(OsColumn, p.os));
    var c4 := When(p.brand != "", Equals(BrandColumn, p.brand));
    var c5 := RangeCondition(p.idRange);
    MatchesAppend(d, c1 + c2 + c3 + c4, c5);
    MatchesAppend(d, c1 + c2 + c3, c4);
    MatchesAppend(d, c1 + c2, c3);
    MatchesAppend(d, c1, c2);
    MatchesWhen(d, p.deviceType != "", Equals(DeviceTypeColumn, p.deviceType));
    MatchesWhen(d, p.deviceName != "", Equals(DeviceNameColumn, p.deviceName));
    MatchesWhen(d, p.os != "", Equals(OsColumn, p.os));
    MatchesWhen(d, p.brand != "", Equals(BrandColumn, p.brand));
    if IdRange(p.idRange).Some? {
      MatchesWhen(d, true, Between(IdRange(p.idRange).value.lo, IdRange(p.idRange).value.hi));
    }
  }

  /**
   * The query the handler builds, one step after another: 100 devices per
   * page, the offset (page - 1) * 100 in int arithmetic, which is the
   * number of rows on the pages before this one whenever that fits in an
   * int, and a conjunction of conditions that holds of exactly the wanted
   * devices.
   */
  method BuildQuery(p: Params) returns (q: Query)
    ensures q.limit == Limit && q.offset == OffsetAsWritten(Page(p.page))
    ensures (Page(p.page) - 1) * Limit <= MaxInt ==> q.offset == Offset(Page(p.page))
    ensures q.conditions == Conditions(p)
    ensures forall d :: Matches(d, q.conditions) <==> Wanted(p, d)
  {
    var page := Atoi(p.page).value;
    if page < 1 {
      page := 1;
    }
    var limit := Limit;
    var offset := OffsetAsWritten(page);
    if (page - 1) * Limit <= MaxInt {
      OffsetAgrees(page);
    }
    var conditions: seq<Condition> := [];
    if p.deviceType != "" {
      conditions := conditions + [Equals(DeviceTypeColumn, p.deviceType)];
    }
    assert conditions == When(p.deviceType != "", Equals(DeviceTypeColumn, p.deviceType));
    ghost var before := conditions;
    if p.deviceName != "" {
      conditions := conditions + [Equals(DeviceNameColumn, p.deviceName)];
    }
    assert conditions == before + When(p.deviceName != "", Equals(DeviceNameColumn, p.deviceName));
    before := conditions;
    if p.os != "" {
      conditions := conditions + [Equals(OsColumn, p.os)];
    }
    assert conditions == before + When(p.os != "", Equals(OsColumn, p.os));
    before := conditions;
    if p.brand != "" {
      conditions := conditions + [Equals(BrandColumn, p.brand)];
    }
    assert conditions == before + When(p.brand != "", Equals(BrandColumn, p.brand));
    before := conditions;
    if p.idRange != "" {
      var ids := Split(p.idRange, '-');
      if |ids| == 2 {
        var startID := Atoi(ids[0]).value;
        var endID := Atoi(ids[1]).value;
        conditions := conditions + [Between(startID, endID)];
      }
    }
    assert conditions == before + RangeCondition(p.idRange);
    q := Query(limit, offset, conditions);
    forall d
      ensures Matches(d, q.conditions) <==> Wanted(p, d)
    {
      ConditionsWanted(p, d);
    }
  }

  // What the database does with the query.

  /** The rows of the table that satisfy every condition, in table order. */
  function Filter(table: seq<Device>, conditions: seq<Condition>): (r: seq<Device>)
    ensures |r| <= |table|
    ensures forall d :: d in r <==> d in table && Matches(d, conditions)
    decreases |table|
  {
    if |table| == 0 then []
    else
      assert forall d :: d in table <==> d == table[0] || d in table[1..];
      (if Matches(table[0], conditions) then [table[0]] else []) + Filter(table[1..], conditions)
  }

  /** Rows in ascending id order. */
  predicate SortedById(s: seq<Device>) {
    forall i, j :: 0 <= i < j < |s| ==> s[i].id <= s[j].id
  }

  /** Puts a device in front of the first row with a larger id. */
  function Insert(x: Device, s: seq<Device>): (r: seq<Device>)
    ensures |r| == |s| + 1
    decreases |s|
  {
    if |s| == 0 then [x]
    else if x.id <= s[0].id then [x] + s
    else [s[0]] + Insert(x, s[1..])
  }

  /** Order("id ASC"). */
  function SortById(s: seq<Device>): (r: seq<Device>)
    ensures |r| == |s|
    decreases |s|
  {
    if |s| == 0 then [] else Insert(s[0], SortById(s[1..]))
  }

  /** Inserting a device no smaller than a bound into rows no smaller than it keeps them so. */
  lemma {:induction false} InsertBound(x: Device, s: seq<Device>, lo: int)
    requires lo <= x.id && forall k :: 0 <= k < |s| ==> lo <= s[k].id
    ensures forall k :: 0 <= k < |Insert(x, s)| ==> lo <= Insert(x, s)[k].id
    decreases |s|
  {
    if |s| > 0 && x.id > s[0].id {
      InsertBound(x, s[1..], lo);
    }
  }

  /** A device no larger than every row of an ordered sequence can go in front of it. */
  lemma ConsSorted(a: Device, t: seq<Device>)
    requires SortedById(t) && forall k :: 0 <= k < |t| ==> a.id <= t[k].id
    ensures SortedById([a] + t)
  {
    var r := [a] + t;
    forall i, j | 0 <= i < j < |r|
      ensures r[i].id <= r[j].id
    {
      assert r[j] == t[j - 1];
      if i > 0 {
        assert r[i] == t[i - 1];
      }
    }
  }

  /** Inserting adds exactly the one device. */
  lemma {:induction false} InsertPerm(x: Device, s: seq<Device>)
    ensures multiset(Insert(x, s)) == multiset(s) + multiset{x}
    decreases |s|
  {
    if |s| > 0 && x.id > s[0].id {
      InsertPerm(x, s[1..]);
      assert s == [s[0]] + s[1..];
    }
  }

  /** Inserting into an ordered sequence keeps it ordered. */
  lemma {:induction false} InsertSorted(x: Device, s: seq<Device>)
    requires SortedById(s)
    ensures SortedById(Insert(x, s))
    decreases |s|
  {
    if |s| == 0 {
    } else if x.id <= s[0].id {
      ConsSorted(x, s);
    } else {
      assert SortedById(s[1..]);
      InsertSorted(x, s[1..]);
      InsertBound(x, s[1..], s[0].id);
      ConsSorted(s[0], Insert(x, s[1..]));
    }
  }

  /** Sorting orders the rows by id. */
  lemma {:induction false} SortByIdSorted(s: seq<Device>)
    ensures SortedById(SortById(s))
    decreases |s|
  {
    if |s| > 0 {
      SortByIdSorted(s[1..]);
      InsertSorted(s[0], SortById(s[1..]));
    }
  }

  /** Sorting neither loses nor adds a row. */
  lemma {:induction false} SortByIdPerm(s: seq<Device>)
    ensures multiset(SortById(s)) == multiset(s)
    decreases |s|
  {
    if |s| > 0 {
      SortByIdPerm(s[1..]);
      InsertPerm(s[0], SortById(s[1..]));
      assert s == [s[0]] + s[1..];
    }
  }

  /** Order("id ASC") returns the same rows, ordered by id. */
  lemma SortByIdSpec(s: seq<Device>)
    ensures SortedById(SortById(s))
    ensures multiset(SortById(s)) == multiset(s)
  {
    SortByIdSorted(s);
    SortByIdPerm(s);
  }

  function Min(a: int, b: int): int {
    if a <= b then a else b
  }

  /**
   * Offset(offset).Limit(limit) on the ordered rows. A positive offset
   * skips that many rows; the query builder writes no OFFSET clause for an
   * offset of 0 or less, so nothing is skipped then.
   */
  function Window(s: seq<Device>, offset: int, limit: nat): (r: seq<Device>)
    ensures |r| <= limit
    ensures offset >= 0 ==> |r| == if offset >= |s| then 0 else Min(limit, |s| - offset)
    ensures offset >= 0 ==> forall k :: 0 <= k < |r| ==> r[k] == s[offset + k]
    ensures offset <= 0 ==> r == s[..Min(limit, |s|)]
  {
    var lo := if offset <= 0 then 0 else Min(offset, |s|);
    s[lo..Min(lo + limit, |s|)]
  }

  /** What the database returns for a query over the table. */
  function Find(q: Query, table: seq<Device>): seq<Device> {
    Window(SortById(Filter(table, q.conditions)), q.offset, q.limit)
  }

  /** A slice of an ordered sequence is ordered and draws on it only. */
  lemma WindowSorted(s: seq<Device>, offset: int, limit: nat)
    requires SortedById(s)
    ensures SortedById(Window(s, offset, limit))
    ensures forall d :: d in Window(s, offset, limit) ==> d in s
  {
    var lo := if offset <= 0 then 0 else Min(offset, |s|);
    var r := Window(s, offset, limit);
    assert r == s[lo..Min(lo + limit, |s|)];
    forall d | d in r
      ensures d in s
    {
      var k :| 0 <= k < |r| && r[k] == d;
      assert s[lo + k] == d;
    }
  }

  /** The database answers with at most `limit` matching rows of the table, in id order. */
  lemma FindSound(q: Query, table: seq<Device>)
    ensures |Find(q, table)| <= q.limit
    ensures SortedById(Find(q, table))
    ensures forall d :: d in Find(q, table) ==> d in table && Matches(d, q.conditions)
  {
    var f := Filter(table, q.conditions);
    SortByIdSpec(f);
    WindowSorted(SortById(f), q.offset, q.limit);
    forall d | d in Find(q, table)
      ensures d in table && Matches(d, q.conditions)
    {
      assert d in multiset(SortById(f));
      assert d in f;
    }
  }

  /** The wanted devices of the table, in table order. */
  function Selected(p: Params, table: seq<Device>): (r: seq<Device>)
    ensures forall d :: d in r <==> d in table && Wanted(p, d)
  {
    var r := Filter(table, Conditions(p));
    assert forall d :: d in r <==> d in table && Wanted(p, d) by {
      forall d
        ensures d in r <==> d in table && Wanted(p, d)
      {
        ConditionsWanted(p, d);
      }
    }
    r
  }

  /**
   * The pages 1 .. k of an ordered result, one after another, are its
   * first k * 100 rows: no row is skipped or shown twice.
   */
  function Pages(s: seq<Device>, k: nat): seq<Device>
    decreases k
  {
    if k == 0 then [] else Pages(s, k - 1) + Window(s, Offset(k), Limit)
  }

  lemma {:induction false} PagesTile(s: seq<Device>, k: nat)
    ensures Pages(s, k) == s[..Min(k * Limit, |s|)]
    decreases k
  {
    if k > 0 {
      PagesTile(s, k - 1);
      var w := Window(s, Offset(k), Limit);
      var a := Min((k - 1) * Limit, |s|);
      var b := Min(k * Limit, |s|);
      assert Offset(k) == (k - 1) * Limit;
      if (k - 1) * Limit >= |s| {
        assert |w| == 0;
        assert a == b;
      } else {
        assert w == s[a..b];
        assert s[..a] + s[a..b] == s[..b];
      }
    }
  }

  /** Row i of an ordered result is row i % 100 of page i / 100 + 1. */
  lemma PageOf(s: seq<Device>, i: nat)
    requires i < |s|
    ensures i % Limit < |Window(s, Offset(i / Limit + 1), Limit)|
    ensures Window(s, Offset(i / Limit + 1), Limit)[i % Limit] == s[i]
  {
    assert Offset(i / Limit + 1) + i % Limit == i;
  }

  /** When at most 100 devices are wanted, page 1 shows them all. */
  lemma FirstPageComplete(p: Params, table: seq<Device>)
    requires Page(p.page) == 1 && |Selected(p, table)| <= Limit
    ensures multiset(Window(SortById(Selected(p, table)), Offset(Page(p.page)), Limit)) == multiset(Selected(p, table))
  {
    var s := SortById(Selected(p, table));
    SortByIdSpec(Selected(p, table));
    assert Window(s, 0, Limit) == s[..|s|];
    assert s[..|s|] == s;
  }

  /**
   * The handler: status 500 and no devices when the fetch fails, otherwise
   * status 200 and the wanted devices ordered by id, from the offset the
   * handler computes; that is page Page(page) whenever its offset fits in
   * an int.
   */
  method GetFilteredEntries(p: Params, table: seq<Device>, fetchFails: bool) returns (status: int, devices: seq<Device>)
    ensures fetchFails ==> status == 500 && devices == []
    ensures !fetchFails ==> status == 200 && devices == Window(SortById(Selected(p, table)), OffsetAsWritten(Page(p.page)), Limit)
    ensures !fetchFails && (Page(p.page) - 1) * Limit <= MaxInt ==>
      devices == Window(SortById(Selected(p, table)), Offset(Page(p.page)), Limit)
    ensures |devices| <= Limit && SortedById(devices)
    ensures forall d :: d in devices ==> d in table && Wanted(p, d)
  {
    var q := BuildQuery(p);
    if fetchFails {
      return 500, [];
    }
    devices := Find(q, table);
    FindSound(q, table);
    status := 200;
  }

  /**
   * Two devices of different types; page 1 of deviceType "Type1" is the
   * first one alone.
   */
  lemma TypeFilterScenario()
    ensures var device1 := Device(1, "Device1", "Type1", "Brand1", "", "OS1", "", "", "", "", Price(0x4059000000000000));
            var device2 := Device(2, "Device2", "Type2", "Brand2", "", "OS2", "", "", "", "", Price(0x4069000000000000));
            var p := Params("1", "Type1", "", "", "", "");
            Window(SortById(Selected(p, [device1, device2])), OffsetAsWritten(Page(p.page)), Limit) == [device1]
  {
    var device1 := Device(1, "Device1", "Type1", "Brand1", "", "OS1", "", "", "", "", Price(0x4059000000000000));
    var device2 := Device(2, "Device2", "Type2", "Brand2", "", "OS2", "", "", "", "", Price(0x4069000000000000));
    var p := Params("1", "Type1", "", "", "", "");
    PageItoa(1);
    assert Itoa(1) == "1";
    var conditions := Conditions(p);
    assert conditions == [Equals(DeviceTypeColumn, "Type1")];
    assert Matches(device1, conditions);
    assert !Satisfies(device2, conditions[0]);
    var table := [device1, device2];
    assert table[1..] == [device2];
    assert Filter(table, conditions) == [device1];
  }
}
