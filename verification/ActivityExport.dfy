/** The date-window export: which rows of the activity log it selects, and in which order. */
module ActivityExport {
  import opened Wrappers
  import opened ParkingStore
  import opened Ledger

  const DAY_SECONDS := 86400

  /** Local midnight at the start of a day. */
  function DayStart(day: int): int {
    day * DAY_SECONDS
  }

  predicate InWindow(row: Activity, since: Option<int>, until: Option<int>) {
    && (since.Some? ==> since.value <= row.stamp.createdAt)
    && (until.Some? ==> row.stamp.createdAt < until.value)
  }

  /** ORDER BY created_at, id. */
  predicate Before(a: Activity, b: Activity) {
    a.stamp.createdAt < b.stamp.createdAt || (a.stamp.createdAt == b.stamp.createdAt && a.id < b.id)
  }

  predicate InOrder(rows: seq<Activity>) {
    forall i, j | 0 <= i < j < |rows| :: Before(rows[i], rows[j])
  }

  function Insert(rows: seq<Activity>, row: Activity): seq<Activity> {
    if rows == [] || Before(row, rows[0]) then [row] + rows else [rows[0]] + Insert(rows[1..], row)
  }

  /** parking_activity_repository.list_between. */
  function ListBetween(log: seq<Activity>, since: Option<int>, until: Option<int>): seq<Activity> {
    if log == [] then []
    else
      var rows := ListBetween(log[..|log| - 1], since, until);
      var last := log[|log| - 1];
      if InWindow(last, since, until) then Insert(rows, last) else rows
  }

  lemma TailInOrder(rows: seq<Activity>)
    requires rows != [] && InOrder(rows)
    ensures InOrder(rows[1..])
  {
    forall i, j | 0 <= i < j < |rows[1..]| ensures Before(rows[1..][i], rows[1..][j]) {
      assert Before(rows[i + 1], rows[j + 1]);
    }
  }

  lemma HeadInOrder(head: Activity, rows: seq<Activity>)
    requires InOrder(rows) && forall r | r in rows :: Before(head, r)
    ensures InOrder([head] + rows)
  {
  }

  lemma {:induction false} InsertHas(rows: seq<Activity>, row: Activity)
    ensures multiset(Insert(rows, row)) == multiset(rows) + multiset{row}
    ensures forall r :: r in Insert(rows, row) <==> r in rows || r == row
  {
    if rows != [] && !Before(row, rows[0]) {
      assert rows == [rows[0]] + rows[1..];
      InsertHas(rows[1..], row);
    }
  }

  lemma {:induction false} InsertKeeps(rows: seq<Activity>, row: Activity)
    requires InOrder(rows) && forall r | r in rows :: r.id != row.id
    ensures InOrder(Insert(rows, row))
  {
    if rows == [] {
    } else if Before(row, rows[0]) {
      forall r | r in rows ensures Before(row, r) {
        var i :| 0 <= i < |rows| && rows[i] == r;
        if i > 0 { assert Before(rows[0], rows[i]); }
      }
      HeadInOrder(row, rows);
    } else {
      var head, tail := rows[0], rows[1..];
      assert head in rows;
      TailInOrder(rows);
      assert forall r | r in tail :: r in rows;
      InsertKeeps(tail, row);
      InsertHas(tail, row);
      forall r | r in Insert(tail, row) ensures Before(head, r) {
        if r != row {
          var i :| 0 <= i < |tail| && tail[i] == r;
          assert Before(rows[0], rows[i + 1]);
        }
      }
      HeadInOrder(head, Insert(tail, row));
    }
  }

  /** Rows of the log, kept once each. */
  function Selected(log: seq<Activity>, since: Option<int>, until: Option<int>): multiset<Activity> {
    if log == [] then multiset{}
    else
      var last := log[|log| - 1];
      Selected(log[..|log| - 1], since, until) + if InWindow(last, since, until) then multiset{last} else multiset{}
  }

  /** The export is the selected rows, each exactly once, in order. */
  lemma {:induction false} ListBetweenIs(log: seq<Activity>, since: Option<int>, until: Option<int>)
    requires IdsIncrease(log)
    ensures InOrder(ListBetween(log, since, until))
    ensures multiset(ListBetween(log, since, until)) == Selected(log, since, until)
    ensures forall r :: r in ListBetween(log, since, until) <==> r in log && InWindow(r, since, until)
  {
    if log != [] {
      var init, last := log[..|log| - 1], log[|log| - 1];
      assert log == init + [last];
      ListBetweenIs(init, since, until);
      InsertKeeps(ListBetween(init, since, until), last);
      InsertHas(ListBetween(init, since, until), last);
    }
  }

  lemma HeadIsLeast(rows: seq<Activity>, row: Activity)
    requires InOrder(rows) && row in rows
    ensures row == rows[0] || Before(rows[0], row)
  {
  }

  lemma SameHead(a: seq<Activity>, b: seq<Activity>)
    requires a != [] && InOrder(a) && InOrder(b) && multiset(a) == multiset(b)
    ensures b != [] && a[0] == b[0]
  {
    assert a[0] in multiset(b);
    assert b[0] in multiset(a);
    HeadIsLeast(a, b[0]);
    HeadIsLeast(b, a[0]);
  }

  lemma SameTail(a: seq<Activity>, b: seq<Activity>)
    requires a != [] && b != [] && a[0] == b[0] && multiset(a) == multiset(b)
    ensures multiset(a[1..]) == multiset(b[1..])
  {
    assert a == [a[0]] + a[1..] && b == [b[0]] + b[1..];
    assert multiset(a[1..]) == multiset(a) - multiset{a[0]};
    assert multiset(b[1..]) == multiset(b) - multiset{b[0]};
  }

  /** There is only one way to put given rows in order. */
  lemma {:induction false} OrderIsUnique(a: seq<Activity>, b: seq<Activity>)
    requires InOrder(a) && InOrder(b) && multiset(a) == multiset(b)
    ensures a == b
  {
    if a == [] {
      assert |b| == |multiset(b)|;
    } else {
      SameHead(a, b);
      SameTail(a, b);
      TailInOrder(a);
      TailInOrder(b);
      OrderIsUnique(a[1..], b[1..]);
    }
  }

  lemma {:induction false} SelectionSplits(log: seq<Activity>, since: Option<int>, middle: int, until: Option<int>)
    requires since.Some? ==> since.value <= middle
    requires until.Some? ==> middle <= until.value
    ensures Selected(log, since, until) == Selected(log, since, Some(middle)) + Selected(log, Some(middle), until)
  {
    if log != [] {
      SelectionSplits(log[..|log| - 1], since, middle, until);
    }
  }

  /** Both bounds are whole days, inclusive; either may be left open. */
  function Since(day: Option<int>): Option<int> {
    if day.Some? then Some(DayStart(day.value)) else None
  }

  function Until(day: Option<int>): Option<int> {
    if day.Some? then Some(DayStart(day.value + 1)) else None
  }

  function ExportDays(log: seq<Activity>, first: Option<int>, last: Option<int>): seq<Activity> {
    ListBetween(log, Since(first), Until(last))
  }

  lemma JoinedInOrder(early: seq<Activity>, late: seq<Activity>, middle: int)
    requires InOrder(early) && InOrder(late)
    requires forall r | r in early :: r.stamp.createdAt < middle
    requires forall r | r in late :: middle <= r.stamp.createdAt
    ensures InOrder(early + late)
  {
    var rows := early + late;
    forall i, j | 0 <= i < j < |rows| ensures Before(rows[i], rows[j]) {
      if i < |early| <= j {
        assert rows[i] == early[i] && early[i] in early;
        assert rows[j] == late[j - |early|] && late[j - |early|] in late;
      }
    }
  }

  lemma WindowsJoin(log: seq<Activity>, since: Option<int>, middle: int, until: Option<int>)
    requires IdsIncrease(log)
    requires (since.Some? ==> since.value <= middle) && (until.Some? ==> middle <= until.value)
    ensures ListBetween(log, since, until)
         == ListBetween(log, since, Some(middle)) + ListBetween(log, Some(middle), until)
  {
    var early, late := ListBetween(log, since, Some(middle)), ListBetween(log, Some(middle), until);
    ListBetweenIs(log, since, until);
    ListBetweenIs(log, since, Some(middle));
    ListBetweenIs(log, Some(middle), until);
    SelectionSplits(log, since, middle, until);
    JoinedInOrder(early, late, middle);
    OrderIsUnique(ListBetween(log, since, until), early + late);
  }

  /**
   Windows compose: the export of [first, last] is the export of [first, day] followed by the export
   of [day + 1, last]; no row is lost, repeated or reordered.
   */
  lemma WindowsCompose(s: Store, first: Option<int>, day: int, last: Option<int>)
    requires StoreOk(s)
    requires (first.Some? ==> first.value <= day) && (last.Some? ==> day < last.value)
    ensures ExportDays(s.log, first, last)
         == ExportDays(s.log, first, Some(day)) + ExportDays(s.log, Some(day + 1), last)
  {
    WindowsJoin(s.log, Since(first), DayStart(day + 1), Until(last));
  }

  // The rows written out.

  datatype CsvRow = CsvRow(createdAt: int, lotId: nat, lotName: string, kind: string, target: string,
                           delta: int, countAfter: int, actor: string, note: string)

  function KindLabel(kind: ActivityType): string {
    match kind
    case EntryActivity => "入庫"
    case ExitActivity => "出庫"
    case ManualAdjustment => "手動調整"
    case ManualReset | SystemReset => "リセット"
  }

  function TargetLabel(kind: ActivityType): string {
    match kind
    case EntryActivity | ExitActivity | SystemReset => "システム"
    case ManualAdjustment | ManualReset => "人力"
  }

  function CsvOf(lots: map<nat, Lot>, row: Activity): CsvRow {
    CsvRow(row.stamp.createdAt, row.lotId, if row.lotId in lots then lots[row.lotId].name else "",
           KindLabel(row.kind), TargetLabel(row.kind), row.delta, row.countAfter, row.stamp.actor,
           if row.stamp.note.Some? then row.stamp.note.value else "")
  }

  /** The line says of the row, column by column, what the row says. */
  ghost predicate LineShows(lots: map<nat, Lot>, row: Activity, line: CsvRow) {
    && line.createdAt == row.stamp.createdAt
    && line.lotId == row.lotId
    && row.lotId in lots && line.lotName == lots[row.lotId].name
    && (row.kind == EntryActivity ==> line.kind == "入庫" && line.target == "システム")
    && (row.kind == ExitActivity ==> line.kind == "出庫" && line.target == "システム")
    && (row.kind == ManualAdjustment ==> line.kind == "手動調整" && line.target == "人力")
    && (row.kind == ManualReset ==> line.kind == "リセット" && line.target == "人力")
    && (row.kind == SystemReset ==> line.kind == "リセット" && line.target == "システム")
    && line.delta == row.delta
    && line.countAfter == row.countAfter
    && line.actor == row.stamp.actor
    && (row.stamp.note.Some? ==> line.note == row.stamp.note.value)
    && (row.stamp.note.None? ==> line.note == "")
  }

  lemma CsvShows(lots: map<nat, Lot>, row: Activity)
    requires row.lotId in lots
    ensures LineShows(lots, row, CsvOf(lots, row))
  {
  }

  /** The row was made on one of the days, both inclusive; a bound that is not given is none. */
  ghost predicate OnDays(row: Activity, first: Option<int>, last: Option<int>) {
    && (first.Some? ==> first.value * 86400 <= row.stamp.createdAt)
    && (last.Some? ==> row.stamp.createdAt < (last.value + 1) * 86400)
  }

  /** Oldest first, and in the order they were logged where the times are the same. */
  ghost predicate OldestFirst(rows: seq<Activity>) {
    forall i, j | 0 <= i < j < |rows| ::
      || rows[i].stamp.createdAt < rows[j].stamp.createdAt
      || (rows[i].stamp.createdAt == rows[j].stamp.createdAt && rows[i].id < rows[j].id)
  }

  /** The selected rows are those of the days, each once, oldest first, and of lots that exist. */
  lemma SelectedRows(s: Store, first: Option<int>, last: Option<int>)
    requires StoreOk(s)
    ensures var rows := ExportDays(s.log, first, last);
      && OldestFirst(rows)
      && (forall r :: r in rows <==> r in s.log && OnDays(r, first, last))
      && (forall r | r in rows :: r.lotId in s.lots)
  {
    ListBetweenIs(s.log, Since(first), Until(last));
    var rows := ExportDays(s.log, first, last);
    forall r | r in rows ensures r.lotId in s.lots {
      assert r in s.log;
    }
  }

  method WriteRows(lots: map<nat, Lot>, rows: seq<Activity>) returns (buffer: seq<CsvRow>)
    requires forall r | r in rows :: r.lotId in lots
    ensures |buffer| == |rows| && forall i | 0 <= i < |rows| :: LineShows(lots, rows[i], buffer[i])
  {
    buffer := [];
    for i := 0 to |rows|
      invariant |buffer| == i
      invariant forall k | 0 <= k < i :: LineShows(lots, rows[k], buffer[k])
    {
      CsvShows(lots, rows[i]);
      buffer := buffer + [CsvOf(lots, rows[i])];
    }
  }

  /** One line for each row of the days, oldest first, that says what the row says and names its lot. */
  method ExportActivities(s: Store, first: Option<int>, last: Option<int>) returns (buffer: seq<CsvRow>)
    requires StoreOk(s)
    ensures |buffer| == |ExportDays(s.log, first, last)|
    ensures forall i | 0 <= i < |buffer| :: LineShows(s.lots, ExportDays(s.log, first, last)[i], buffer[i])
    ensures OldestFirst(ExportDays(s.log, first, last))
    ensures forall r :: r in ExportDays(s.log, first, last) <==> r in s.log && OnDays(r, first, last)
  {
    SelectedRows(s, first, last);
    buffer := WriteRows(s.lots, ExportDays(s.log, first, last));
  }
}
