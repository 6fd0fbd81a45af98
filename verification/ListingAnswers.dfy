/**
 What a listing request is answered with, column by column: the refusals, the page at any cursor the service hands out,
 and that following the cursors always leads to the end.
 */
module ListingAnswers {
  import opened Wrappers
  import opened Ordering
  import opened DeliveryTables
  import opened JobQueue
  import opened CursorFields
  import opened JobCursor
  import opened JobListing

  /** The status parameter that asks for this filter. */
  function FilterText(filter: Option<Status>): Option<string> {
    match filter
    case None => None
    case Some(Pending) => Some("pending")
    case Some(Processing) => Some("processing")
    case Some(Succeeded) => Some("succeeded")
    case Some(DeadLetter) => Some("dead_letter")
  }

  predicate IsStatusName(text: string) {
    text == "pending" || text == "processing" || text == "succeeded" || text == "dead_letter"
  }

  lemma FilterIsRead(filter: Option<Status>)
    ensures ValidateStatus(FilterText(filter)) == Ok(filter)
  {
    if filter.Some? {
      StatusRoundTrip(FilterText(filter).value, filter.value);
    }
  }

  lemma StatusIsNamed(text: string)
    ensures ValidateStatus(Some(text)).Ok? <==> IsStatusName(text)
  {
    StatusRoundTrip(text, Pending);
    StatusRoundTrip(text, Processing);
    StatusRoundTrip(text, Succeeded);
    StatusRoundTrip(text, DeadLetter);
  }

  /** Each refusal in its case, in the order of the checks. */
  lemma ListingRefusals(jobs: Jobs, status: Option<string>, limit: int, cursor: Option<string>)
    requires Typed(jobs)
    ensures var r := ListJobs(jobs, status, limit, cursor);
            && (r == Err(InvalidStatus) <==> status.Some? && !IsStatusName(status.value))
            && (r == Err(InvalidLimit) <==>
                  (status.None? || IsStatusName(status.value)) && !(1 <= limit <= 100))
            && (r == Err(InvalidCursor) <==>
                  && (status.None? || IsStatusName(status.value)) && 1 <= limit <= 100
                  && cursor.Some? && DecodeCursor(cursor.value, ValidateStatus(status).value).None?)
  {
    hide DecodeCursor, QueryPage, ParseStatus, Typed, IsStatusName;
    if status.Some? {
      StatusIsNamed(status.value);
    }
  }

  /** A row the request asks for, from its columns: the asked status, and below the position. */
  predicate IsWanted(jobs: Jobs, filter: Option<Status>, after: Option<Position>, id: JobId) {
    && id in jobs
    && (filter.Some? ==> jobs[id].status == filter.value)
    && (after.Some? ==> jobs[id].updatedAt < after.value.updatedAt
                        || (jobs[id].updatedAt == after.value.updatedAt && id < after.value.id))
  }

  predicate IsShown(page: Page, id: JobId) {
    exists i :: 0 <= i < |page.items| && page.items[i].id == id
  }

  /** The rows of a page are wanted ones as the table has them, newest update first and then greatest id. */
  ghost predicate ShowsNewest(jobs: Jobs, filter: Option<Status>, limit: int, after: Option<Position>, page: Page) {
    && |page.items| <= limit
    && (forall i :: 0 <= i < |page.items| ==>
          IsWanted(jobs, filter, after, page.items[i].id) && page.items[i].job == jobs[page.items[i].id])
    && (forall i, k :: 0 <= i < k < |page.items| ==>
          var a, b := page.items[i], page.items[k];
          a.job.updatedAt > b.job.updatedAt || (a.job.updatedAt == b.job.updatedAt && a.id > b.id))
  }

  /** A wanted row that is not shown comes after all that are, and they are limit many. */
  ghost predicate KeepsRest(jobs: Jobs, filter: Option<Status>, limit: int, after: Option<Position>, page: Page) {
    forall id :: IsWanted(jobs, filter, after, id) && !IsShown(page, id) ==>
      && |page.items| == limit
      && forall i :: 0 <= i < |page.items| ==>
           var a := page.items[i];
           a.job.updatedAt > jobs[id].updatedAt || (a.job.updatedAt == jobs[id].updatedAt && a.id > id)
  }

  /** There is a next cursor exactly when a wanted row is not shown, and it stands for the last row that is. */
  ghost predicate PointsOn(jobs: Jobs, filter: Option<Status>, after: Option<Position>, page: Page) {
    && (page.nextCursor.Some? <==> exists id :: IsWanted(jobs, filter, after, id) && !IsShown(page, id))
    && (page.nextCursor.Some? ==>
          && page.items != []
          && var last := Position(page.items[|page.items| - 1].job.updatedAt, page.items[|page.items| - 1].id);
             ValidPosition(last) && page.nextCursor.value == EncodeCursor(last, filter))
  }

  /** The first limit wanted rows, and a cursor when there are more. */
  ghost predicate IsPage(jobs: Jobs, filter: Option<Status>, limit: int, after: Option<Position>, page: Page) {
    && ShowsNewest(jobs, filter, limit, after, page) && KeepsRest(jobs, filter, limit, after, page)
    && PointsOn(jobs, filter, after, page)
  }

  lemma WantedIsSelected(jobs: Jobs, filter: Option<Status>, after: Option<Position>, id: JobId)
    ensures IsWanted(jobs, filter, after, id) <==> Selected(jobs, filter, after, id)
  {
  }

  lemma QueryIsPage(jobs: Jobs, filter: Option<Status>, limit: int, after: Option<Position>)
    requires Typed(jobs) && 1 <= limit
    ensures IsPage(jobs, filter, limit, after, QueryPage(jobs, filter, limit, after))
  {
    hide QueryPage, EncodeCursor, Typed, Selected, IsWanted, ShowsNewest, KeepsRest, PointsOn;
    QueryShowsNewest(jobs, filter, limit, after);
    QueryKeepsRest(jobs, filter, limit, after);
    QueryPointsOn(jobs, filter, limit, after);
  }

  lemma QueryShowsNewest(jobs: Jobs, filter: Option<Status>, limit: int, after: Option<Position>)
    requires Typed(jobs) && 1 <= limit
    ensures ShowsNewest(jobs, filter, limit, after, QueryPage(jobs, filter, limit, after))
  {
    hide QueryPage, EncodeCursor, Typed, Selected, IsWanted;
    var page := QueryPage(jobs, filter, limit, after);
    PageContents(jobs, filter, limit, after);
    forall i | 0 <= i < |page.items| ensures IsWanted(jobs, filter, after, page.items[i].id) {
      WantedIsSelected(jobs, filter, after, page.items[i].id);
    }
  }

  lemma QueryKeepsRest(jobs: Jobs, filter: Option<Status>, limit: int, after: Option<Position>)
    requires Typed(jobs) && 1 <= limit
    ensures KeepsRest(jobs, filter, limit, after, QueryPage(jobs, filter, limit, after))
  {
    hide QueryPage, EncodeCursor, Typed, Selected, IsWanted;
    var page := QueryPage(jobs, filter, limit, after);
    forall id | IsWanted(jobs, filter, after, id) && !IsShown(page, id)
      ensures id in jobs && |page.items| == limit
      ensures forall i :: 0 <= i < |page.items| ==> Below(Position(jobs[id].updatedAt, id), PositionOf(page.items[i]))
    {
      WantedIsSelected(jobs, filter, after, id);
      RestIsBelowAll(jobs, filter, limit, after, id);
    }
  }

  lemma RestIsBelowAll(jobs: Jobs, filter: Option<Status>, limit: int, after: Option<Position>, id: JobId)
    requires Typed(jobs) && 1 <= limit && Selected(jobs, filter, after, id)
    requires !IsShown(QueryPage(jobs, filter, limit, after), id)
    ensures var page := QueryPage(jobs, filter, limit, after);
            && id in jobs && page.nextCursor.Some? && |page.items| == limit
            && forall i :: 0 <= i < |page.items| ==> Below(Position(jobs[id].updatedAt, id), PositionOf(page.items[i]))
  {
    hide QueryPage, EncodeCursor, Typed;
    var page := QueryPage(jobs, filter, limit, after);
    PageContents(jobs, filter, limit, after);
    assert !Holds(page.items, id);
    assert Below(Position(jobs[id].updatedAt, id), LastPosition(page.items));
  }

  lemma QueryPointsOn(jobs: Jobs, filter: Option<Status>, limit: int, after: Option<Position>)
    requires Typed(jobs) && 1 <= limit
    ensures PointsOn(jobs, filter, after, QueryPage(jobs, filter, limit, after))
  {
    hide QueryPage, EncodeCursor, Typed, Selected, IsWanted;
    var page := QueryPage(jobs, filter, limit, after);
    NextCursorIsLast(jobs, filter, limit, after);
    forall id | IsWanted(jobs, filter, after, id) && !IsShown(page, id) ensures page.nextCursor.Some? {
      WantedIsSelected(jobs, filter, after, id);
      RestIsBelowAll(jobs, filter, limit, after, id);
    }
    if page.nextCursor.Some? {
      var id := ThereIsMore(jobs, filter, limit, after);
      WantedIsSelected(jobs, filter, after, id);
      assert IsWanted(jobs, filter, after, id) && !IsShown(page, id);
    }
  }

  /** A next cursor is only handed out when a matching row did not fit. */
  lemma ThereIsMore(jobs: Jobs, filter: Option<Status>, limit: int, after: Option<Position>) returns (id: JobId)
    requires Typed(jobs) && 1 <= limit && QueryPage(jobs, filter, limit, after).nextCursor.Some?
    ensures Selected(jobs, filter, after, id)
    ensures forall i :: 0 <= i < |QueryPage(jobs, filter, limit, after).items| ==>
              QueryPage(jobs, filter, limit, after).items[i].id != id
  {
    hide QueryPage, EncodeCursor, Typed, Smallest, SelectedKeys;
    var items := QueryPage(jobs, filter, limit, after).items;
    var keys := Smallest(SelectedKeys(jobs, filter, after), limit + 1);
    PageItems(jobs, filter, limit, after);
    SelectedIds(jobs, filter, after, limit + 1);
    id := keys[limit].tie;
    forall i | 0 <= i < |items| ensures items[i].id != id {
      assert Before(keys[i], keys[limit]);
      assert keys[i] == PageKey(keys[i].tie, jobs[keys[i].tie]);
    }
  }

  /** Any position's cursor, and no cursor, is answered with its page, over any table and any limit from 1 to 100. */
  lemma AnyCursorIsAnswered(jobs: Jobs, filter: Option<Status>, limit: int, after: Option<Position>)
    requires Typed(jobs) && 1 <= limit <= 100 && (after.Some? ==> ValidPosition(after.value))
    ensures var cursor := if after.None? then None else Some(EncodeCursor(after.value, filter));
            var r := ListJobs(jobs, FilterText(filter), limit, cursor);
            r.Ok? && IsPage(jobs, filter, limit, after, r.value)
  {
    hide EncodeCursor, DecodeCursor, QueryPage, ValidateStatus, IsPage, Typed, FilterText;
    FilterIsRead(filter);
    QueryIsPage(jobs, filter, limit, after);
    if after.Some? {
      CursorRoundTrip(after.value, filter, filter);
    }
  }

  /** A next cursor handed out over one table is answered, with what lies below its page, over any later table. */
  lemma NextCursorIsAnswered(jobs: Jobs, later: Jobs, filter: Option<Status>, limit: int, next: int,
                             cursor: Option<string>)
    requires Typed(jobs) && Typed(later) && 1 <= next <= 100
    requires var r := ListJobs(jobs, FilterText(filter), limit, cursor); r.Ok? && r.value.nextCursor.Some?
    ensures var page := ListJobs(jobs, FilterText(filter), limit, cursor).value;
            && page.items != []
            && var last := page.items[|page.items| - 1];
               var r := ListJobs(later, FilterText(filter), next, page.nextCursor);
               r.Ok? && IsPage(later, filter, next, Some(Position(last.job.updatedAt, last.id)), r.value)
  {
    hide ListJobs, EncodeCursor, DecodeCursor, QueryPage, ValidateStatus, IsPage, Typed, FilterText;
    var page := ListJobs(jobs, FilterText(filter), limit, cursor).value;
    FilterIsRead(filter);
    AnsweredByQuery(jobs, FilterText(filter), limit, cursor, page);
    NextCursorIsLast(jobs, filter, limit, if cursor.None? then None else DecodeCursor(cursor.value, filter));
    AnyCursorIsAnswered(later, filter, next, Some(LastPosition(page.items)));
  }

  // ---------------------------------------------------------------- following the cursors

  ghost predicate Complete(visits: seq<Visit>) {
    visits != [] && visits[|visits| - 1].page.nextCursor.None?
  }

  function Beyond(jobs: Jobs, filter: Option<Status>, after: Option<Position>): set<JobId> {
    set j | j in jobs && Selected(jobs, filter, after, j)
  }

  lemma SmallerBeyond(a: set<JobId>, b: set<JobId>, j: JobId)
    requires a <= b && j in b && j !in a
    ensures |a| < |b|
  {
    assert a <= b - {j};
    assert |b - {j} - a| == |b - {j}| - |a|;
  }

  /** A page with a next cursor leaves fewer rows beyond it than it had before it. */
  lemma PageMovesOn(jobs: Jobs, filter: Option<Status>, limit: int, after: Option<Position>)
    requires Typed(jobs) && 1 <= limit && QueryPage(jobs, filter, limit, after).nextCursor.Some?
    ensures var page := QueryPage(jobs, filter, limit, after);
            && page.items != []
            && |Beyond(jobs, filter, Some(LastPosition(page.items)))| < |Beyond(jobs, filter, after)|
  {
    hide QueryPage, EncodeCursor, Typed;
    var page := QueryPage(jobs, filter, limit, after);
    PageContents(jobs, filter, limit, after);
    var last := page.items[|page.items| - 1];
    SmallerBeyond(Beyond(jobs, filter, Some(LastPosition(page.items))), Beyond(jobs, filter, after), last.id);
  }

  lemma VisitExtends(visits: seq<Visit>, filter: Option<Status>, v: Visit)
    requires IsWalk(visits, FilterText(filter)) && Typed(v.jobs)
    requires visits == [] || visits[|visits| - 1].page.nextCursor.Some?
    requires ListJobs(v.jobs, FilterText(filter), v.limit,
                      if visits == [] then None else visits[|visits| - 1].page.nextCursor) == Ok(v.page)
    ensures IsWalk(visits + [v], FilterText(filter))
  {
    hide ListJobs, Typed, FilterText, ValidateStatus;
    var more := visits + [v];
    forall i | 0 <= i < |more|
      ensures Typed(more[i].jobs)
      ensures ListJobs(more[i].jobs, FilterText(filter), more[i].limit, CursorOf(more, i)) == Ok(more[i].page)
    {
      VisitKept(visits, v, i);
    }
    forall i | 0 <= i < |more| - 1 ensures more[i].page.nextCursor.Some? {
      assert more[i] == visits[i];
    }
  }

  lemma VisitKept(visits: seq<Visit>, v: Visit, i: nat)
    requires i <= |visits|
    ensures (visits + [v])[i] == if i < |visits| then visits[i] else v
    ensures CursorOf(visits + [v], i) == if i == 0 then None else visits[i - 1].page.nextCursor
  {
  }

  lemma {:induction false} WalkOn(visits: seq<Visit>, filter: Option<Status>, jobs: Jobs, limits: nat -> int)
    returns (walk: seq<Visit>)
    requires Typed(jobs) && forall n: nat :: 1 <= limits(n) <= 100
    requires IsWalk(visits, FilterText(filter)) && visits != []
    requires forall n :: 0 <= n < |visits| ==> visits[n].jobs == jobs && visits[n].limit == limits(n)
    ensures IsWalk(walk, FilterText(filter)) && Complete(walk)
    ensures forall n :: 0 <= n < |walk| ==> walk[n].jobs == jobs && walk[n].limit == limits(n)
    decreases |Beyond(jobs, filter, StartOf(visits, |visits| - 1))|
  {
    hide ListJobs, QueryPage, Typed, FilterText, ValidateStatus, EncodeCursor, DecodeCursor, IsPage, IsWalk, Beyond;
    var k := |visits| - 1;
    FilterIsRead(filter);
    WalkStep(visits, FilterText(filter), k);
    if visits[k].page.nextCursor.None? {
      walk := visits;
    } else {
      PageMovesOn(jobs, filter, limits(k), StartOf(visits, k));
      AnsweredInWalk(visits, filter, k, limits(k + 1));
      var r := ListJobs(jobs, FilterText(filter), limits(k + 1), visits[k].page.nextCursor);
      var v := Visit(jobs, limits(k + 1), r.value);
      VisitExtends(visits, filter, v);
      walk := WalkOn(visits + [v], filter, jobs, limits);
    }
  }

  lemma AnsweredInWalk(visits: seq<Visit>, filter: Option<Status>, k: nat, next: int)
    requires IsWalk(visits, FilterText(filter)) && k < |visits| && visits[k].page.nextCursor.Some? && 1 <= next <= 100
    ensures Typed(visits[k].jobs) && ListJobs(visits[k].jobs, FilterText(filter), next, visits[k].page.nextCursor).Ok?
  {
    hide ListJobs, Typed, FilterText, IsPage;
    NextCursorIsAnswered(visits[k].jobs, visits[k].jobs, filter, visits[k].limit, next, CursorOf(visits, k));
  }

  /** Over any table, with any limits from 1 to 100, following the cursors from the top comes to a last page. */
  lemma CompleteWalkExists(filter: Option<Status>, jobs: Jobs, limits: nat -> int) returns (walk: seq<Visit>)
    requires Typed(jobs) && forall n: nat :: 1 <= limits(n) <= 100
    ensures IsWalk(walk, FilterText(filter)) && Complete(walk)
    ensures forall n :: 0 <= n < |walk| ==> walk[n].jobs == jobs && walk[n].limit == limits(n)
  {
    hide ListJobs, Typed, FilterText, IsPage;
    AnyCursorIsAnswered(jobs, filter, limits(0), None);
    var first := Visit(jobs, limits(0), ListJobs(jobs, FilterText(filter), limits(0), None).value);
    VisitExtends([], filter, first);
    walk := WalkOn([] + [first], filter, jobs, limits);
  }

  /** What a complete walk over one table returns: every wanted row once, newest update first, then greatest id. */
  lemma PlainListIsSorted(jobs: Jobs, filter: Option<Status>, after: Option<Position>)
    requires Typed(jobs)
    ensures var ids := PlainList(jobs, filter, after);
            && (forall id :: id in ids <==> IsWanted(jobs, filter, after, id))
            && (forall i, k :: 0 <= i < k < |ids| ==>
                  && ids[i] in jobs && ids[k] in jobs
                  && (jobs[ids[i]].updatedAt > jobs[ids[k]].updatedAt
                      || (jobs[ids[i]].updatedAt == jobs[ids[k]].updatedAt && ids[i] > ids[k])))
  {
    hide Typed, Smallest, IsWanted, SelectedKeys;
    var all := SelectedKeys(jobs, filter, after);
    var keys, ids := Smallest(all, |all|), PlainList(jobs, filter, after);
    SmallestIsComplete(all, |all|);
    forall i | 0 <= i < |ids|
      ensures IsWanted(jobs, filter, after, ids[i]) && ids[i] in jobs && keys[i] == PageKey(ids[i], jobs[ids[i]])
    {
      ListedIsWanted(jobs, filter, after, i);
    }
    forall i, k | 0 <= i < k < |ids| ensures Before(keys[i], keys[k]) {
    }
    forall id | IsWanted(jobs, filter, after, id) ensures id in ids {
      WantedIsSelected(jobs, filter, after, id);
      SelectedKeyOf(jobs, filter, after, id);
      IdsKeepMembers(keys, PageKey(id, jobs[id]));
    }
  }

  lemma ListedIsWanted(jobs: Jobs, filter: Option<Status>, after: Option<Position>, i: nat)
    requires i < |PlainList(jobs, filter, after)|
    ensures var all, id := SelectedKeys(jobs, filter, after), PlainList(jobs, filter, after)[i];
            && IsWanted(jobs, filter, after, id) && id in jobs
            && i < |Smallest(all, |all|)| && Smallest(all, |all|)[i] == PageKey(id, jobs[id])
  {
    hide Smallest, SelectedKeys;
    var all := SelectedKeys(jobs, filter, after);
    SelectedIds(jobs, filter, after, |all|);
    assert PlainList(jobs, filter, after)[i] == Smallest(all, |all|)[i].tie;
  }
}
