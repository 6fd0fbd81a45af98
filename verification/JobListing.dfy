/**
 Keyset pagination of the job table, newest first (delivery_job_query_service.py), while other
 sessions change rows between pages.
 */
module JobListing {
  import opened Wrappers
  import opened Ordering
  import opened Calendar
  import opened DeliveryTables
  import opened JobQueue
  import opened CursorFields
  import opened JobCursor

  const MAX_LIMIT: int := 100

  datatype Snapshot = Snapshot(id: JobId, job: Job)
  datatype Page = Page(items: seq<Snapshot>, nextCursor: Option<string>)
  datatype ListError = InvalidStatus | InvalidLimit | InvalidCursor

  /** What the column types guarantee: ids are UUIDs and timestamps are instants. */
  predicate Typed(jobs: Jobs) {
    forall j | j in jobs :: ValidUuid(j) && ValidInstant(jobs[j].updatedAt)
  }

  predicate Below(p: Position, q: Position) {
    p.updatedAt < q.updatedAt || (p.updatedAt == q.updatedAt && p.id < q.id)
  }

  function PositionOf(s: Snapshot): Position {
    Position(s.job.updatedAt, s.id)
  }

  function LastPosition(items: seq<Snapshot>): Position
    requires items != []
  {
    PositionOf(items[|items| - 1])
  }

  /** ORDER BY updated_at DESC, id DESC. */
  function PageKey(id: JobId, job: Job): Key {
    Key(-job.updatedAt, -id, id)
  }

  predicate Matches(job: Job, filter: Option<Status>) {
    filter.None? || job.status == filter.value
  }

  predicate Selected(jobs: Jobs, filter: Option<Status>, after: Option<Position>, j: JobId) {
    j in jobs && Matches(jobs[j], filter) && (after.None? || Below(Position(jobs[j].updatedAt, j), after.value))
  }

  function SelectedKeys(jobs: Jobs, filter: Option<Status>, after: Option<Position>): set<Key> {
    set j | j in jobs && Selected(jobs, filter, after, j) :: PageKey(j, jobs[j])
  }

  function Snapshots(jobs: Jobs, ids: seq<JobId>): seq<Snapshot>
    requires forall i :: 0 <= i < |ids| ==> ids[i] in jobs
  {
    seq(|ids|, i requires 0 <= i < |ids| => Snapshot(ids[i], jobs[ids[i]]))
  }

  lemma SelectedIds(jobs: Jobs, filter: Option<Status>, after: Option<Position>, limit: nat)
    ensures var keys := Smallest(SelectedKeys(jobs, filter, after), limit);
            forall i :: 0 <= i < |keys| ==>
                Selected(jobs, filter, after, keys[i].tie) && keys[i] == PageKey(keys[i].tie, jobs[keys[i].tie])
  {
    var keys := Smallest(SelectedKeys(jobs, filter, after), limit);
    forall i | 0 <= i < |keys|
      ensures Selected(jobs, filter, after, keys[i].tie) && keys[i] == PageKey(keys[i].tie, jobs[keys[i].tie])
    {
      assert keys[i] in SelectedKeys(jobs, filter, after);
    }
  }

  /** The first limit + 1 rows after the cursor, the last one only to know whether there is more. */
  function QueryPage(jobs: Jobs, filter: Option<Status>, limit: int, after: Option<Position>): Page
    requires Typed(jobs) && 1 <= limit
  {
    SelectedIds(jobs, filter, after, limit + 1);
    var rows := Snapshots(jobs, Ids(Smallest(SelectedKeys(jobs, filter, after), limit + 1)));
    if |rows| > limit then Page(rows[..limit], Some(EncodeCursor(PositionOf(rows[limit - 1]), filter)))
    else Page(rows, None)
  }

  function ValidateStatus(status: Option<string>): Result<Option<Status>, ListError> {
    if status.None? then Ok(None)
    else
      var parsed := ParseStatus(status.value);
      if parsed.None? then Err(InvalidStatus) else Ok(parsed)
  }

  function ListJobs(jobs: Jobs, status: Option<string>, limit: int, cursor: Option<string>): Result<Page, ListError>
    requires Typed(jobs)
  {
    var filter := ValidateStatus(status);
    if filter.Err? then Err(filter.error)
    else if !(1 <= limit <= MAX_LIMIT) then Err(InvalidLimit)
    else if cursor.None? then Ok(QueryPage(jobs, filter.value, limit, None))
    else
      var position := DecodeCursor(cursor.value, filter.value);
      if position.None? then Err(InvalidCursor) else Ok(QueryPage(jobs, filter.value, limit, position))
  }

  // ---------------------------------------------------------------- one page

  predicate Descending(items: seq<Snapshot>) {
    forall i, j :: 0 <= i < j < |items| ==> Below(PositionOf(items[j]), PositionOf(items[i]))
  }

  predicate Holds(items: seq<Snapshot>, j: JobId) {
    exists i :: 0 <= i < |items| && items[i].id == j
  }

  /**
   A page is the newest selected rows in order; without a cursor it is all of them, with one it is full and the rest
   lies below it.
   */
  lemma PageContents(jobs: Jobs, filter: Option<Status>, limit: int, after: Option<Position>)
    requires Typed(jobs) && 1 <= limit
    ensures var page := QueryPage(jobs, filter, limit, after);
            && |page.items| <= limit && Descending(page.items)
            && (forall i :: 0 <= i < |page.items| ==>
                  Selected(jobs, filter, after, page.items[i].id) && page.items[i].job == jobs[page.items[i].id])
            && (page.nextCursor.None? ==> forall j :: Selected(jobs, filter, after, j) ==> Holds(page.items, j))
            && (page.nextCursor.Some? ==>
                  && |page.items| == limit && ValidPosition(LastPosition(page.items))
                  && page.nextCursor.value == EncodeCursor(LastPosition(page.items), filter)
                  && forall j :: Selected(jobs, filter, after, j) && !Holds(page.items, j) ==>
                       Below(Position(jobs[j].updatedAt, j), LastPosition(page.items)))
  {
    hide EncodeCursor, QueryPage, Smallest, SelectedKeys, ValidUuid, ValidInstant;
    var page := QueryPage(jobs, filter, limit, after);
    SelectedIds(jobs, filter, after, limit + 1);
    PageItems(jobs, filter, limit, after);
    NextCursorIsLast(jobs, filter, limit, after);
    forall j | Selected(jobs, filter, after, j) && !Holds(page.items, j)
      ensures page.nextCursor.Some? && Below(Position(jobs[j].updatedAt, j), LastPosition(page.items))
    {
      MissedRow(jobs, filter, limit, after, j);
    }
  }

  /** A selected row that is not on the page comes after the page's last row. */
  lemma MissedRow(jobs: Jobs, filter: Option<Status>, limit: int, after: Option<Position>, j: JobId)
    requires Typed(jobs) && 1 <= limit && Selected(jobs, filter, after, j)
    requires !Holds(QueryPage(jobs, filter, limit, after).items, j)
    ensures QueryPage(jobs, filter, limit, after).nextCursor.Some?
    ensures Below(Position(jobs[j].updatedAt, j), LastPosition(QueryPage(jobs, filter, limit, after).items))
  {
    hide QueryPage, Smallest, SelectedKeys, Typed, Below;
    PageItems(jobs, filter, limit, after);
    SelectedKeyOf(jobs, filter, after, j);
    MissedAmong(QueryPage(jobs, filter, limit, after).items, SelectedKeys(jobs, filter, after), limit, j, jobs[j]);
  }

  lemma MissedAmong(items: seq<Snapshot>, all: set<Key>, limit: nat, j: JobId, job: Job)
    requires 1 <= limit && PageKey(j, job) in all && !Holds(items, j)
    requires var n := |Smallest(all, limit + 1)|; |items| == if n > limit then limit else n
    requires var keys := Smallest(all, limit + 1);
             forall i :: 0 <= i < |items| ==> keys[i] == PageKey(items[i].id, items[i].job)
    ensures |Smallest(all, limit + 1)| > limit && Below(Position(job.updatedAt, j), LastPosition(items))
  {
    hide Smallest;
    var keys := Smallest(all, limit + 1);
    forall i | 0 <= i < |keys| && i < limit ensures keys[i] != PageKey(j, job) {
      assert items[i].id != j;
    }
    MissedKey(all, limit, keys, PageKey(j, job));
    assert keys[limit - 1] == PageKey(items[limit - 1].id, items[limit - 1].job);
  }

  lemma SelectedKeyOf(jobs: Jobs, filter: Option<Status>, after: Option<Position>, j: JobId)
    requires Selected(jobs, filter, after, j)
    ensures PageKey(j, jobs[j]) in SelectedKeys(jobs, filter, after)
  {
  }

  /** The rows of a page are the first keys of the query. */
  lemma PageItems(jobs: Jobs, filter: Option<Status>, limit: int, after: Option<Position>)
    requires Typed(jobs) && 1 <= limit
    ensures var page := QueryPage(jobs, filter, limit, after);
            var keys := Smallest(SelectedKeys(jobs, filter, after), limit + 1);
            && |page.items| == (if |keys| > limit then limit else |keys|)
            && (page.nextCursor.Some? <==> |keys| > limit)
            && (forall i :: 0 <= i < |page.items| ==>
                  && page.items[i].id in jobs && page.items[i].job == jobs[page.items[i].id]
                  && page.items[i].id == keys[i].tie && keys[i] == PageKey(page.items[i].id, page.items[i].job))
  {
    hide EncodeCursor, Smallest, SelectedKeys, ValidUuid;
    SelectedIds(jobs, filter, after, limit + 1);
  }

  lemma NextCursorIsLast(jobs: Jobs, filter: Option<Status>, limit: int, after: Option<Position>)
    requires Typed(jobs) && 1 <= limit
    ensures var page := QueryPage(jobs, filter, limit, after);
            page.nextCursor.Some? ==>
              && page.items != [] && ValidPosition(LastPosition(page.items))
              && page.nextCursor.value == EncodeCursor(LastPosition(page.items), filter)
  {
    hide EncodeCursor, Smallest, SelectedKeys, ValidUuid, ValidInstant;
    PageItems(jobs, filter, limit, after);
    var items := QueryPage(jobs, filter, limit, after).items;
    if items != [] {
      var last := items[|items| - 1];
      assert last.id in jobs && last.job == jobs[last.id];
    }
  }

  // ---------------------------------------------------------------- walking the pages

  /** One request of a client that follows the cursors, and the table it met. */
  datatype Visit = Visit(jobs: Jobs, limit: int, page: Page)

  /** The cursor visit i presents: none at first, then the one the visit before handed out. */
  function CursorOf(visits: seq<Visit>, i: nat): Option<string>
    requires i < |visits|
  {
    if i == 0 then None else visits[i - 1].page.nextCursor
  }

  predicate IsWalk(visits: seq<Visit>, status: Option<string>) {
    && (forall i :: 0 <= i < |visits| ==> Typed(visits[i].jobs))
    && (forall i :: 0 <= i < |visits| ==>
          ListJobs(visits[i].jobs, status, visits[i].limit, CursorOf(visits, i)) == Ok(visits[i].page))
    && (forall i :: 0 <= i < |visits| - 1 ==> visits[i].page.nextCursor.Some?)
  }

  /** Where visit i starts: after the last row of the visit before. */
  ghost function StartOf(visits: seq<Visit>, i: nat): Option<Position>
    requires i < |visits|
  {
    if i == 0 || visits[i - 1].page.items == [] then None else Some(LastPosition(visits[i - 1].page.items))
  }

  /** Each visit of a walk is the query that starts where the one before stopped. */
  lemma {:induction false} WalkStep(visits: seq<Visit>, status: Option<string>, i: nat)
    requires IsWalk(visits, status) && i < |visits|
    ensures ValidateStatus(status).Ok? && 1 <= visits[i].limit && Typed(visits[i].jobs)
    ensures visits[i].page
            == QueryPage(visits[i].jobs, ValidateStatus(status).value, visits[i].limit, StartOf(visits, i))
    ensures i > 0 ==> StartOf(visits, i).Some?
    decreases i
  {
    hide ListJobs, DecodeCursor, QueryPage, ValidateStatus, ValidUuid, ValidInstant;
    AnsweredByQuery(visits[i].jobs, status, visits[i].limit, CursorOf(visits, i), visits[i].page);
    if i > 0 {
      var n := i - 1;
      WalkStep(visits, status, n);
      assert visits[n].page.nextCursor.Some?;
      CursorLeadsOn(visits[n].jobs, ValidateStatus(status).value, visits[n].limit, StartOf(visits, n));
    }
  }

  /** A listing that answers has asked for the page after its decoded cursor. */
  lemma AnsweredByQuery(jobs: Jobs, status: Option<string>, limit: int, cursor: Option<string>, page: Page)
    requires Typed(jobs) && ListJobs(jobs, status, limit, cursor) == Ok(page)
    ensures ValidateStatus(status).Ok? && 1 <= limit
    ensures var filter := ValidateStatus(status).value;
            && (cursor.Some? ==> DecodeCursor(cursor.value, filter).Some?)
            && page == QueryPage(jobs, filter, limit, if cursor.None? then None else DecodeCursor(cursor.value, filter))
  {
    hide DecodeCursor, QueryPage, ParseStatus, Typed;
  }

  /** The next cursor of a page is read back, under the same filter, as the page's last position. */
  lemma CursorLeadsOn(jobs: Jobs, filter: Option<Status>, limit: int, after: Option<Position>)
    requires Typed(jobs) && 1 <= limit
    ensures var page := QueryPage(jobs, filter, limit, after);
            page.nextCursor.Some? ==>
                page.items != [] && DecodeCursor(page.nextCursor.value, filter) == Some(LastPosition(page.items))
  {
    hide EncodeCursor, DecodeCursor, QueryPage;
    PageContents(jobs, filter, limit, after);
    var page := QueryPage(jobs, filter, limit, after);
    if page.nextCursor.Some? {
      var last := page.items[|page.items| - 1];
      assert last.job == jobs[last.id];
      CursorRoundTrip(LastPosition(page.items), filter, filter);
    }
  }

  lemma WalkPage(visits: seq<Visit>, status: Option<string>, i: nat)
    requires IsWalk(visits, status) && i < |visits|
    ensures ValidateStatus(status).Ok?
    ensures var v, filter := visits[i], ValidateStatus(status).value;
            && Descending(v.page.items)
            && (forall n :: 0 <= n < |v.page.items| ==>
                  Selected(v.jobs, filter, StartOf(visits, i), v.page.items[n].id)
                  && v.page.items[n].job == v.jobs[v.page.items[n].id])
            && (v.page.nextCursor.None? ==> forall j :: Selected(v.jobs, filter, StartOf(visits, i), j) ==>
                  Holds(v.page.items, j))
            && (v.page.nextCursor.Some? ==>
                  && v.page.items != []
                  && forall j :: Selected(v.jobs, filter, StartOf(visits, i), j) && !Holds(v.page.items, j) ==>
                       Below(Position(v.jobs[j].updatedAt, j), LastPosition(v.page.items)))
  {
    hide QueryPage, EncodeCursor;
    WalkStep(visits, status, i);
    PageContents(visits[i].jobs, ValidateStatus(status).value, visits[i].limit, StartOf(visits, i));
  }

  /** Within a visit: items lie below its start, and none lies below its last one. */
  lemma ItemBounds(visits: seq<Visit>, status: Option<string>, i: nat, a: nat)
    requires IsWalk(visits, status) && i < |visits| && a < |visits[i].page.items|
    ensures StartOf(visits, i).Some? ==> Below(PositionOf(visits[i].page.items[a]), StartOf(visits, i).value)
    ensures PositionOf(visits[i].page.items[a]) == LastPosition(visits[i].page.items)
            || Below(LastPosition(visits[i].page.items), PositionOf(visits[i].page.items[a]))
  {
    hide ListJobs, QueryPage, Typed;
    WalkPage(visits, status, i);
  }

  /** A visit that is not the last one returned something, and the next starts after it. */
  lemma NextStart(visits: seq<Visit>, status: Option<string>, i: nat)
    requires IsWalk(visits, status) && i + 1 < |visits|
    ensures visits[i].page.items != [] && StartOf(visits, i + 1) == Some(LastPosition(visits[i].page.items))
  {
    hide ListJobs, QueryPage, Typed;
    WalkPage(visits, status, i);
    assert visits[i].page.nextCursor.Some?;
  }

  /** Everything a later visit returns lies below everything an earlier one returned. */
  lemma {:induction false} LaterIsBelow(visits: seq<Visit>, status: Option<string>, i: nat, j: nat, b: nat)
    requires IsWalk(visits, status) && i < j < |visits| && b < |visits[j].page.items|
    ensures visits[i].page.items != []
    ensures Below(PositionOf(visits[j].page.items[b]), LastPosition(visits[i].page.items))
    decreases j
  {
    hide ListJobs, QueryPage, IsWalk, Typed;
    NextStart(visits, status, i);
    NextStart(visits, status, j - 1);
    ItemBounds(visits, status, j, b);
    if i < j - 1 {
      LaterIsBelow(visits, status, i, j - 1, |visits[j - 1].page.items| - 1);
    }
  }

  /** The returned (updated_at, id) keys strictly decrease through all pages, whatever changes in between. */
  lemma KeysStrictlyDecrease(visits: seq<Visit>, status: Option<string>, i: nat, a: nat, j: nat, b: nat)
    requires IsWalk(visits, status) && i <= j < |visits|
    requires a < |visits[i].page.items| && b < |visits[j].page.items|
    requires i < j || a < b
    ensures Below(PositionOf(visits[j].page.items[b]), PositionOf(visits[i].page.items[a]))
  {
    hide ListJobs, QueryPage, IsWalk, Typed;
    if i < j {
      LaterIsBelow(visits, status, i, j, b);
      ItemBounds(visits, status, i, a);
    } else {
      WalkPage(visits, status, i);
    }
  }

  ghost predicate ReturnedAt(visits: seq<Visit>, id: JobId, i: int, a: int) {
    0 <= i < |visits| && 0 <= a < |visits[i].page.items| && visits[i].page.items[a].id == id
  }

  /** No id is returned twice if no row's updated_at ever goes back. */
  lemma NoIdRepeats(visits: seq<Visit>, status: Option<string>, id: JobId, i: int, a: int, j: int, b: int)
    requires IsWalk(visits, status)
    requires forall m, n | 0 <= m <= n < |visits| && id in visits[m].jobs && id in visits[n].jobs ::
               visits[m].jobs[id].updatedAt <= visits[n].jobs[id].updatedAt
    requires ReturnedAt(visits, id, i, a) && ReturnedAt(visits, id, j, b)
    ensures i == j && a == b
  {
    hide ListJobs, QueryPage, IsWalk, Typed;
    WalkPage(visits, status, i);
    WalkPage(visits, status, j);
    if i < j || (i == j && a < b) {
      KeysStrictlyDecrease(visits, status, i, a, j, b);
    } else if j < i || (i == j && b < a) {
      KeysStrictlyDecrease(visits, status, j, b, i, a);
    }
  }

  /** A row that matches the filter throughout, with its updated_at unchanged. */
  ghost predicate Stable(visits: seq<Visit>, status: Option<string>, id: JobId, updatedAt: int)
    requires ValidateStatus(status).Ok?
  {
    forall i :: 0 <= i < |visits| ==>
      id in visits[i].jobs && visits[i].jobs[id].updatedAt == updatedAt
      && Matches(visits[i].jobs[id], ValidateStatus(status).value)
  }

  /** A stable row that a visit could have returned and did not is ahead of the next visit. */
  lemma StaysAhead(visits: seq<Visit>, status: Option<string>, id: JobId, updatedAt: int, i: nat)
    requires IsWalk(visits, status) && i + 1 < |visits| && ValidateStatus(status).Ok?
    requires Stable(visits, status, id, updatedAt)
    requires Selected(visits[i].jobs, ValidateStatus(status).value, StartOf(visits, i), id)
    requires !Holds(visits[i].page.items, id)
    ensures Selected(visits[i + 1].jobs, ValidateStatus(status).value, StartOf(visits, i + 1), id)
  {
    hide ListJobs, QueryPage, IsWalk, Typed;
    NextStart(visits, status, i);
    WalkPage(visits, status, i);
    NotTheLast(visits, status, i);
  }

  lemma NotTheLast(visits: seq<Visit>, status: Option<string>, i: nat)
    requires IsWalk(visits, status) && i + 1 < |visits|
    ensures visits[i].page.nextCursor.Some?
  {
  }

  lemma {:induction false} StillAhead(visits: seq<Visit>, status: Option<string>, id: JobId, updatedAt: int, i: nat)
    requires IsWalk(visits, status) && i < |visits| && ValidateStatus(status).Ok?
    requires Stable(visits, status, id, updatedAt)
    requires forall m | 0 <= m < i :: !Holds(visits[m].page.items, id)
    ensures Selected(visits[i].jobs, ValidateStatus(status).value, StartOf(visits, i), id)
    decreases i
  {
    hide ListJobs, QueryPage, IsWalk, Typed;
    if i > 0 {
      StillAhead(visits, status, id, updatedAt, i - 1);
      StaysAhead(visits, status, id, updatedAt, i - 1);
    }
  }

  /** A complete walk returns every stable row exactly once. */
  lemma StableRowsExactlyOnce(visits: seq<Visit>, status: Option<string>, id: JobId, updatedAt: int)
    returns (i: int, a: int)
    requires IsWalk(visits, status) && visits != [] && visits[|visits| - 1].page.nextCursor.None?
    requires ValidateStatus(status).Ok? && Stable(visits, status, id, updatedAt)
    ensures ReturnedAt(visits, id, i, a)
    ensures forall j, b | ReturnedAt(visits, id, j, b) :: j == i && b == a
  {
    hide ListJobs, QueryPage, IsWalk, Typed;
    var last := |visits| - 1;
    if m :| 0 <= m < last && Holds(visits[m].page.items, id) {
      i := m;
    } else {
      StillAhead(visits, status, id, updatedAt, last);
      WalkPage(visits, status, last);
      i := last;
    }
    a :| 0 <= a < |visits[i].page.items| && visits[i].page.items[a].id == id;
    forall j, b | ReturnedAt(visits, id, j, b) ensures j == i && b == a {
      NoIdRepeats(visits, status, id, i, a, j, b);
    }
  }

  // ---------------------------------------------------------------- agreement with the plain list

  /** The whole list in one query. */
  ghost function PlainList(jobs: Jobs, filter: Option<Status>, after: Option<Position>): seq<JobId> {
    Ids(Smallest(SelectedKeys(jobs, filter, after), |SelectedKeys(jobs, filter, after)|))
  }

  function ItemIds(items: seq<Snapshot>): seq<JobId> {
    seq(|items|, i requires 0 <= i < |items| => items[i].id)
  }

  ghost function AllIds(visits: seq<Visit>): seq<JobId> {
    if visits == [] then [] else ItemIds(visits[0].page.items) + AllIds(visits[1..])
  }

  /** A page and the plain list after it make the plain list. */
  lemma PageSplitsList(jobs: Jobs, filter: Option<Status>, limit: int, after: Option<Position>)
    requires Typed(jobs) && 1 <= limit
    ensures var page := QueryPage(jobs, filter, limit, after);
            if page.nextCursor.None? then PlainList(jobs, filter, after) == ItemIds(page.items)
            else page.items != [] &&
                 PlainList(jobs, filter, after)
                     == ItemIds(page.items) + PlainList(jobs, filter, Some(LastPosition(page.items)))
  {
    var all := SelectedKeys(jobs, filter, after);
    var keys := Smallest(all, limit + 1);
    PageIds(jobs, filter, limit, after);
    hide QueryPage;
    if |keys| > limit {
      PrefixOfSmallest(all, limit);
      SplitAtLast(jobs, filter, limit, after);
    } else {
      ShortIsWhole(all, limit);
    }
  }

  lemma ShortIsWhole(all: set<Key>, limit: nat)
    requires |Smallest(all, limit + 1)| <= limit
    ensures Smallest(all, limit + 1) == Smallest(all, |all|)
  {
    SmallestIsComplete(all, limit + 1);
    SmallestIsComplete(all, |all|);
    AscendingIsUnique(Smallest(all, limit + 1), Smallest(all, |all|));
  }

  function LastKey(items: seq<Snapshot>): Key
    requires items != []
  {
    PageKey(items[|items| - 1].id, items[|items| - 1].job)
  }

  lemma PageIds(jobs: Jobs, filter: Option<Status>, limit: int, after: Option<Position>)
    requires Typed(jobs) && 1 <= limit
    ensures var page := QueryPage(jobs, filter, limit, after);
            var keys := Smallest(SelectedKeys(jobs, filter, after), limit + 1);
            && (page.nextCursor.Some? <==> |keys| > limit)
            && ItemIds(page.items) == Ids(if |keys| > limit then keys[..limit] else keys)
            && (|keys| > limit ==> page.items != [])
            && (|keys| > limit ==> keys[limit - 1] == LastKey(page.items))
  {
    hide QueryPage, Smallest, SelectedKeys, Typed, Ids, ItemIds;
    PageItems(jobs, filter, limit, after);
    var page, keys := QueryPage(jobs, filter, limit, after), Smallest(SelectedKeys(jobs, filter, after), limit + 1);
    ItemsAreKeys(page.items, keys);
    assert keys[..|keys|] == keys;
  }

  lemma ItemsAreKeys(items: seq<Snapshot>, keys: seq<Key>)
    requires |items| <= |keys| && forall i :: 0 <= i < |items| ==> items[i].id == keys[i].tie
    ensures ItemIds(items) == Ids(keys[..|items|])
  {
    assert forall i :: 0 <= i < |items| ==> ItemIds(items)[i] == Ids(keys[..|items|])[i];
  }

  lemma SplitAtLast(jobs: Jobs, filter: Option<Status>, limit: int, after: Option<Position>)
    requires Typed(jobs) && 1 <= limit
    requires var keys := Smallest(SelectedKeys(jobs, filter, after), limit + 1);
             |keys| > limit && Smallest(SelectedKeys(jobs, filter, after), limit) == keys[..limit]
    ensures var page := QueryPage(jobs, filter, limit, after);
            page.items != [] && page.nextCursor.Some? &&
            PlainList(jobs, filter, after)
                == ItemIds(page.items) + PlainList(jobs, filter, Some(LastPosition(page.items)))
  {
    PageIds(jobs, filter, limit, after);
    hide QueryPage;
    var all := SelectedKeys(jobs, filter, after);
    var last := LastPosition(QueryPage(jobs, filter, limit, after).items);
    var first := Smallest(all, limit);
    assert first[limit - 1] in all;
    RestIsBelow(jobs, filter, after, first[limit - 1], last);
    SmallestSplits(all, limit, SelectedKeys(jobs, filter, Some(last)));
    IdsJoin(first, Smallest(SelectedKeys(jobs, filter, Some(last)), |SelectedKeys(jobs, filter, Some(last))|));
  }

  lemma IdsJoin(a: seq<Key>, b: seq<Key>)
    ensures Ids(a + b) == Ids(a) + Ids(b)
  {
  }

  lemma {:induction false} PrefixOfSmallest(all: set<Key>, limit: nat)
    ensures |Smallest(all, limit + 1)| > limit ==> Smallest(all, limit) == Smallest(all, limit + 1)[..limit]
    decreases limit
  {
    if limit > 0 && all != {} {
      PrefixOfSmallest(all - {Least(all)}, limit - 1);
    }
  }

  lemma RestIsBelow(jobs: Jobs, filter: Option<Status>, after: Option<Position>, k: Key, last: Position)
    requires k in SelectedKeys(jobs, filter, after) && k.major == -last.updatedAt && k.minor == -last.id
    requires k.tie == last.id
    ensures forall x :: x in SelectedKeys(jobs, filter, Some(last)) <==>
              x in SelectedKeys(jobs, filter, after) && Before(k, x)
  {
    forall x
      ensures x in SelectedKeys(jobs, filter, Some(last)) <==> x in SelectedKeys(jobs, filter, after) && Before(k, x)
    {
      if x in SelectedKeys(jobs, filter, Some(last)) {
        assert Selected(jobs, filter, after, x.tie);
      }
      if x in SelectedKeys(jobs, filter, after) && Before(k, x) {
        assert Selected(jobs, filter, Some(last), x.tie);
      }
    }
  }

  lemma {:induction false} TailOfWalk(visits: seq<Visit>, status: Option<string>, jobs: Jobs, i: nat)
    requires IsWalk(visits, status) && i < |visits| && visits[|visits| - 1].page.nextCursor.None?
    requires forall n :: 0 <= n < |visits| ==> visits[n].jobs == jobs
    ensures ValidateStatus(status).Ok?
    ensures AllIds(visits[i..]) == PlainList(jobs, ValidateStatus(status).value, StartOf(visits, i))
    decreases |visits| - i
  {
    hide QueryPage, PlainList, ListJobs, IsWalk;
    WalkStep(visits, status, i);
    PageSplitsList(jobs, ValidateStatus(status).value, visits[i].limit, StartOf(visits, i));
    var rest := visits[i..];
    assert rest[1..] == visits[i + 1..];
    if i + 1 < |visits| {
      NotTheLast(visits, status, i);
      TailOfWalk(visits, status, jobs, i + 1);
    } else {
      assert rest[1..] == [];
      assert ItemIds(rest[0].page.items) + [] == ItemIds(rest[0].page.items);
    }
  }

  /** Over an unchanging table, with any page sizes, the pages make exactly the plain sorted list. */
  lemma WalkIsThePlainList(visits: seq<Visit>, status: Option<string>, jobs: Jobs)
    requires IsWalk(visits, status) && visits != [] && visits[|visits| - 1].page.nextCursor.None?
    requires forall n :: 0 <= n < |visits| ==> visits[n].jobs == jobs
    ensures ValidateStatus(status).Ok?
    ensures AllIds(visits) == PlainList(jobs, ValidateStatus(status).value, None)
  {
    TailOfWalk(visits, status, jobs, 0);
    assert visits[0..] == visits;
  }
}
