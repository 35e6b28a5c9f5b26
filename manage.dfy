/**
 * The application-management page (src/pages/index/components/manage/Manage.tsx): sort-config
 * and status-filter toggles, the effect that searches, filters and sorts the tracked
 * applications, the calendar events built from the result, and the guard in front of edits.
 *
 * The library behaviour the page leans on is passed in as parameters: `fold` stands for
 * `toLowerCase`, `collate` maps a string to its place in the `localeCompare` order, and `time`
 * is `new Date(s).getTime()` on the due-date strings.
 */
module Manage {
  import opened Wrappers
  import opened Types
  import opened Seqs
  import opened Http

  datatype SortField = CompanyName | JobTitle | ApplyDueDate | ApplyStatus
  datatype SortOrder = Asc | Desc
  datatype SortConfig = SortConfig(field: SortField, order: SortOrder)

  /** The page starts sorted by due date, latest first. */
  const InitialSort := SortConfig(ApplyDueDate, Desc)

  /** The seven statuses an application can be moved to (Manage.tsx:31). */
  const StatusOptions: seq<string> := ["준비중", "지원", "서류전형", "코테", "면접", "최종합격", "불합격"]

  /** The updater `handleSort` passes to `setSortConfig` (Manage.tsx:51-56). */
  function HandleSort(prev: SortConfig, field: SortField): (r: SortConfig)
    ensures r.field == field
    ensures r.order == Desc <==> prev.field == field && prev.order == Asc
  {
    SortConfig(field, if prev.field == field && prev.order == Asc then Desc else Asc)
  }

  /** A click on the current column flips the order, so two clicks restore it. */
  lemma HandleSortTwiceRestores(prev: SortConfig)
    ensures HandleSort(HandleSort(prev, prev.field), prev.field) == prev
  {
  }

  /** A click on another column starts ascending; a second click there turns it descending. */
  lemma HandleSortNewColumn(prev: SortConfig, field: SortField)
    requires field != prev.field
    ensures HandleSort(prev, field) == SortConfig(field, Asc)
    ensures HandleSort(HandleSort(prev, field), field) == SortConfig(field, Desc)
  {
  }

  /** The updater `toggleStatusFilter` passes to `setStatusFilter` (Manage.tsx:58-62). */
  function ToggleStatusFilter(prev: seq<string>, status: string): (r: seq<string>)
    ensures status in r <==> status !in prev
    ensures forall i :: 0 <= i < |prev| && prev[i] != status ==> prev[i] in r
    ensures forall i :: 0 <= i < |r| && r[i] != status ==> r[i] in prev
    ensures status !in prev ==> r == prev + [status]
  {
    if status in prev then RemoveAll(prev, status) else prev + [status]
  }

  /** Toggling twice restores the set of statuses, and the very list when the status was absent. */
  lemma ToggleStatusFilterTwice(prev: seq<string>, status: string)
    ensures var r := ToggleStatusFilter(ToggleStatusFilter(prev, status), status);
            (forall i :: 0 <= i < |r| ==> r[i] in prev) && (forall i :: 0 <= i < |prev| ==> prev[i] in r)
    ensures status !in prev ==> ToggleStatusFilter(ToggleStatusFilter(prev, status), status) == prev
  {
    if status !in prev {
      RemoveAllAppend(prev, [status], status);
      assert RemoveAll([status], status) == [];
      FilterKeepsAll(prev, Differs(status));
    } else {
      var once := RemoveAll(prev, status);
      assert status !in once;
    }
  }

  /** `hay.includes(needle)`: `needle` occurs in `hay` at some offset. */
  predicate Contains(hay: string, needle: string)
    decreases |hay|
  {
    needle <= hay || (hay != [] && Contains(hay[1..], needle))
  }

  /** `needle` sits in `hay` at offset `i`. */
  predicate OccursAt(hay: string, needle: string, i: int) {
    0 <= i && i + |needle| <= |hay| && hay[i..i + |needle|] == needle
  }

  /** `Contains` holds exactly when the needle sits at some offset. */
  lemma {:induction false} ContainsAt(hay: string, needle: string)
    ensures Contains(hay, needle) <==> exists i :: OccursAt(hay, needle, i)
    decreases |hay|
  {
    if needle <= hay {
      assert OccursAt(hay, needle, 0);
    } else if hay != [] {
      ContainsAt(hay[1..], needle);
      if exists i :: OccursAt(hay, needle, i) {
        var i :| OccursAt(hay, needle, i);
        if i > 0 {
          assert hay[1..][i - 1..i - 1 + |needle|] == hay[i..i + |needle|];
          assert OccursAt(hay[1..], needle, i - 1);
        }
      }
      if Contains(hay[1..], needle) {
        var i :| OccursAt(hay[1..], needle, i);
        assert hay[1..][i..i + |needle|] == hay[i + 1..i + 1 + |needle|];
        assert OccursAt(hay, needle, i + 1);
      }
    } else {
      assert needle != [];
    }
  }

  /** The search test of Manage.tsx:73-78; `query` is the already folded search text. */
  predicate MatchesQuery(app: Application, query: string, fold: string -> string) {
    Contains(fold(app.jobTitle), query) ||
    Contains(fold(app.companyName), query) ||
    (Truthy(app.note) && Contains(fold(app.note.value), query))
  }

  function QueryTest(query: string, fold: string -> string): Application -> bool {
    (app: Application) => MatchesQuery(app, query, fold)
  }

  /** The status test of Manage.tsx:83. */
  function StatusTest(statusFilter: seq<string>): Application -> bool {
    (app: Application) => app.applyStatus in statusFilter
  }

  /** What the comparator of Manage.tsx:88-105 compares: a null due date counts as time 0. */
  function SortKey(app: Application, field: SortField, collate: string -> int, time: string -> int): int {
    match field
    case CompanyName => collate(app.companyName)
    case JobTitle => collate(app.jobTitle)
    case ApplyDueDate => if app.applyDueDate.Some? then time(app.applyDueDate.value) else 0
    case ApplyStatus => collate(app.applyStatus)
  }

  /**
   * The comparator of Manage.tsx:87-108 returns `rank(a) - rank(b)` in sign: the key itself for
   * `asc`, its negation for `desc`.
   */
  function Rank(config: SortConfig, collate: string -> int, time: string -> int): Application -> int {
    (app: Application) => if config.order == Asc then SortKey(app, config.field, collate, time)
           else -SortKey(app, config.field, collate, time)
  }

  predicate SortedBy(s: seq<Application>, rank: Application -> int) {
    forall i, j :: 0 <= i < j < |s| ==> rank(s[i]) <= rank(s[j])
  }

  /** Place `x` into a sorted list after every element that does not rank above it. */
  function Insert(s: seq<Application>, x: Application, rank: Application -> int): (r: seq<Application>)
    requires SortedBy(s, rank)
    ensures SortedBy(r, rank)
    ensures multiset(r) == multiset(s) + multiset{x}
  {
    if s == [] then [x]
    else if rank(x) < rank(s[0]) then
      assert forall i :: 0 <= i < |s| ==> rank(s[0]) <= rank(s[i]);
      [x] + s
    else
      var rest := Insert(s[1..], x, rank);
      assert s == [s[0]] + s[1..];
      RestRanksAbove(s, x, rest, rank);
      [s[0]] + rest
  }

  /** What is inserted behind the head of a sorted list ranks no lower than that head. */
  lemma RestRanksAbove(s: seq<Application>, x: Application, rest: seq<Application>, rank: Application -> int)
    requires s != [] && SortedBy(s, rank) && rank(s[0]) <= rank(x)
    requires multiset(rest) == multiset(s[1..]) + multiset{x}
    ensures forall i :: 0 <= i < |rest| ==> rank(s[0]) <= rank(rest[i])
  {
    forall i | 0 <= i < |rest| ensures rank(s[0]) <= rank(rest[i]) {
      assert rest[i] in multiset(rest);
      if rest[i] != x {
        assert rest[i] in multiset(s[1..]);
        var k :| 0 <= k < |s[1..]| && s[1..][k] == rest[i];
        assert s[k + 1] == rest[i];
      }
    }
  }

  /**
   * `Array.prototype.sort` with that comparator: a stable sort (the language requires one), here
   * insertion of each element, in list order, after the equal-ranked ones already placed.
   */
  function SortBy(s: seq<Application>, rank: Application -> int): (r: seq<Application>)
    ensures SortedBy(r, rank)
    ensures multiset(r) == multiset(s)
    decreases |s|
  {
    if s == [] then []
    else
      assert s == s[..|s| - 1] + [s[|s| - 1]];
      Insert(SortBy(s[..|s| - 1], rank), s[|s| - 1], rank)
  }

  /** The two filter steps of Manage.tsx:68-84, each applied only when its input is non-empty. */
  function Filtered(apps: seq<Application>, searchQuery: string, statusFilter: seq<string>,
                    fold: string -> string): seq<Application>
  {
    var searched := if searchQuery != "" then Filter(apps, QueryTest(fold(searchQuery), fold)) else apps;
    if |statusFilter| > 0 then Filter(searched, StatusTest(statusFilter)) else searched
  }

  /** The list the filter/sort effect stores (Manage.tsx:68-110). */
  function Visible(apps: seq<Application>, searchQuery: string, statusFilter: seq<string>, config: SortConfig,
                   fold: string -> string, collate: string -> int, time: string -> int): seq<Application>
  {
    SortBy(Filtered(apps, searchQuery, statusFilter, fold), Rank(config, collate, time))
  }

  /** What survives the filters: the query test when there is a query, the status test when there is a filter. */
  predicate Kept(app: Application, searchQuery: string, statusFilter: seq<string>, fold: string -> string) {
    (searchQuery != "" ==> MatchesQuery(app, fold(searchQuery), fold)) &&
    (|statusFilter| > 0 ==> app.applyStatus in statusFilter)
  }

  /**
   * The filters drop applications and never add or copy one; an application survives exactly
   * when it passes the query test (with a query) and the status test (with a status filter).
   */
  lemma FilteredSpec(apps: seq<Application>, searchQuery: string, statusFilter: seq<string>, fold: string -> string)
    ensures multiset(Filtered(apps, searchQuery, statusFilter, fold)) <= multiset(apps)
    ensures forall a :: a in Filtered(apps, searchQuery, statusFilter, fold) <==>
                        a in apps && Kept(a, searchQuery, statusFilter, fold)
    ensures forall a :: Count(Filtered(apps, searchQuery, statusFilter, fold), a) ==
                        if Kept(a, searchQuery, statusFilter, fold) then Count(apps, a) else 0
  {
    var searched := if searchQuery != "" then Filter(apps, QueryTest(fold(searchQuery), fold)) else apps;
    if searchQuery != "" {
      FilterSubMultiset(apps, QueryTest(fold(searchQuery), fold));
      FilterMembership(apps, QueryTest(fold(searchQuery), fold));
      FilterCount(apps, QueryTest(fold(searchQuery), fold));
    }
    if |statusFilter| > 0 {
      FilterSubMultiset(searched, StatusTest(statusFilter));
      FilterMembership(searched, StatusTest(statusFilter));
      FilterCount(searched, StatusTest(statusFilter));
    }
  }

  /**
   * The list shown is a permutation of the filtered list, so a permutation of a sub-multiset of
   * the applications, ordered by the chosen field: ascending, or descending for `desc`.
   */
  lemma VisibleSpec(apps: seq<Application>, searchQuery: string, statusFilter: seq<string>, config: SortConfig,
                    fold: string -> string, collate: string -> int, time: string -> int)
    ensures var r := Visible(apps, searchQuery, statusFilter, config, fold, collate, time);
            multiset(r) == multiset(Filtered(apps, searchQuery, statusFilter, fold)) &&
            multiset(r) <= multiset(apps)
    ensures var r := Visible(apps, searchQuery, statusFilter, config, fold, collate, time);
            config.order == Asc ==> forall i, j :: 0 <= i < j < |r| ==>
              SortKey(r[i], config.field, collate, time) <= SortKey(r[j], config.field, collate, time)
    ensures var r := Visible(apps, searchQuery, statusFilter, config, fold, collate, time);
            config.order == Desc ==> forall i, j :: 0 <= i < j < |r| ==>
              SortKey(r[i], config.field, collate, time) >= SortKey(r[j], config.field, collate, time)
  {
    FilteredSpec(apps, searchQuery, statusFilter, fold);
    var r := Visible(apps, searchQuery, statusFilter, config, fold, collate, time);
    var rank := Rank(config, collate, time);
    assert SortedBy(r, rank);
    forall i, j | 0 <= i < j < |r|
      ensures config.order == Asc ==> SortKey(r[i], config.field, collate, time) <= SortKey(r[j], config.field, collate, time)
      ensures config.order == Desc ==> SortKey(r[i], config.field, collate, time) >= SortKey(r[j], config.field, collate, time)
    {
      assert rank(r[i]) <= rank(r[j]);
    }
  }

  /** With no query and no status filter every application is shown, each as often as it is tracked. */
  lemma VisibleWithoutFilters(apps: seq<Application>, config: SortConfig,
                              fold: string -> string, collate: string -> int, time: string -> int)
    ensures multiset(Visible(apps, "", [], config, fold, collate, time)) == multiset(apps)
  {
  }

  /** The calendar event of one application with a due date (Manage.tsx:243-250). */
  function EventOf(app: Application, time: string -> int): (e: CalendarEvent)
    requires Truthy(app.applyDueDate)
    ensures e.id == app.jobId && e.title == app.jobTitle
    ensures e.companyName == app.companyName && e.applyStatus == app.applyStatus
    ensures e.start.Some? && e.start == e.end
  {
    var at := time(app.applyDueDate.value);
    CalendarEvent(app.jobId, app.jobTitle, app.companyName, app.applyStatus, Some(at), Some(at))
  }

  predicate HasDueDate(app: Application) {
    Truthy(app.applyDueDate)
  }

  function EventsOf(apps: seq<Application>, time: string -> int): (r: seq<CalendarEvent>)
    ensures |r| <= |apps|
  {
    if apps == [] then []
    else (if HasDueDate(apps[0]) then [EventOf(apps[0], time)] else []) + EventsOf(apps[1..], time)
  }

  /** The `events` handed to the calendar (Manage.tsx:232-252): none before the first filter run. */
  function CalendarEvents(filtered: Option<seq<Application>>, time: string -> int): seq<CalendarEvent> {
    match filtered
    case None => []
    case Some(apps) => EventsOf(apps, time)
  }

  /**
   * One event per application with a truthy due date, in list order: each application with a
   * due date has an event carrying its job id, title and time, and every event comes from one.
   */
  lemma {:induction false} EventsOfSpec(apps: seq<Application>, time: string -> int)
    ensures |EventsOf(apps, time)| == |Filter(apps, HasDueDate)|
    ensures forall k :: 0 <= k < |EventsOf(apps, time)| ==>
              EventsOf(apps, time)[k] == EventOf(Filter(apps, HasDueDate)[k], time)
  {
    if apps != [] {
      EventsOfSpec(apps[1..], time);
    }
  }

  /** Every event starts and ends at the same instant and comes from a listed application. */
  lemma CalendarEventsSpec(filtered: Option<seq<Application>>, time: string -> int)
    ensures filtered.None? ==> CalendarEvents(filtered, time) == []
    ensures forall k :: 0 <= k < |CalendarEvents(filtered, time)| ==>
              var e := CalendarEvents(filtered, time)[k];
              e.start.Some? && e.start == e.end &&
              exists a :: a in filtered.value && HasDueDate(a) && e.id == a.jobId && e.title == a.jobTitle
  {
    if filtered.Some? {
      var apps := filtered.value;
      EventsOfSpec(apps, time);
      var due := Filter(apps, HasDueDate);
      forall k | 0 <= k < |CalendarEvents(filtered, time)|
        ensures var e := CalendarEvents(filtered, time)[k];
                exists a :: a in filtered.value && HasDueDate(a) && e.id == a.jobId && e.title == a.jobTitle
      {
        assert due[k] in apps && HasDueDate(due[k]);
      }
    }
  }

  /** A call the page makes into the applications store. */
  datatype StoreCall =
    | EditApplication(jobId: int, status: string, note: Option<string>, endDate: Option<string>)
    | GetApplications

  /** `applications?.find(app => app.jobId === jobId)` found something. */
  predicate Tracks(applications: Option<seq<Application>>, jobId: int) {
    applications.Some? && exists i :: 0 <= i < |applications.value| && applications.value[i].jobId == jobId
  }

  /** The page's state fields and the calls it has made into the applications store. */
  class ManageView {
    var applications: Option<seq<Application>>
    var searchQuery: string
    var statusFilter: seq<string>
    var sortConfig: SortConfig
    var filteredApplications: Option<seq<Application>>
    var calls: seq<StoreCall>

    constructor (applications: Option<seq<Application>>)
      ensures this.applications == applications && searchQuery == "" && statusFilter == []
      ensures sortConfig == InitialSort && filteredApplications == None && calls == []
    {
      this.applications := applications;
      searchQuery := "";
      statusFilter := [];
      sortConfig := InitialSort;
      filteredApplications := None;
      calls := [];
    }

    method SetSort(field: SortField)
      modifies this
      ensures sortConfig == HandleSort(old(sortConfig), field)
      ensures statusFilter == old(statusFilter) && searchQuery == old(searchQuery)
      ensures applications == old(applications) && filteredApplications == old(filteredApplications)
      ensures calls == old(calls)
    {
      sortConfig := HandleSort(sortConfig, field);
    }

    method ToggleStatus(status: string)
      modifies this
      ensures statusFilter == ToggleStatusFilter(old(statusFilter), status)
      ensures sortConfig == old(sortConfig) && searchQuery == old(searchQuery)
      ensures applications == old(applications) && filteredApplications == old(filteredApplications)
      ensures calls == old(calls)
    {
      statusFilter := ToggleStatusFilter(statusFilter, status);
    }

    /** The filter/sort effect: nothing happens while the applications are not loaded. */
    method ApplyFilters(fold: string -> string, collate: string -> int, time: string -> int)
      modifies this
      ensures applications.None? ==> filteredApplications == old(filteredApplications)
      ensures applications.Some? ==>
                filteredApplications == Some(Visible(applications.value, searchQuery, statusFilter, sortConfig,
                                                     fold, collate, time))
      ensures applications == old(applications) && searchQuery == old(searchQuery)
      ensures statusFilter == old(statusFilter) && sortConfig == old(sortConfig) && calls == old(calls)
    {
      if applications.None? {
        return;
      }
      var filtered := applications.value;
      if searchQuery != "" {
        var query := fold(searchQuery);
        filtered := Filter(filtered, QueryTest(query, fold));
      }
      if |statusFilter| > 0 {
        filtered := Filter(filtered, StatusTest(statusFilter));
      }
      filtered := SortBy(filtered, Rank(sortConfig, collate, time));
      filteredApplications := Some(filtered);
    }

    /**
     * `handleApplicationEdit`, given what the store's PUT (`edit`) and GET (`reload`) yield: only
     * an application the page tracks is edited; `editApplications` rethrows a rejection, so the
     * reload is then skipped and the handler rejects; a resolved reload replaces the store's
     * applications, and a rejected one makes the handler reject with the list unchanged.
     */
    method HandleApplicationEdit(jobId: int, status: string, note: Option<string>, endDate: Option<string>,
                                 edit: Call<int>, reload: Call<seq<Application>>) returns (r: Settled<()>)
      modifies this
      ensures !Tracks(old(applications), jobId) ==>
                calls == old(calls) && applications == old(applications) && r == Returned(())
      ensures Tracks(old(applications), jobId) && edit.Rejected? ==>
                calls == old(calls) + [EditApplication(jobId, status, note, endDate)] &&
                applications == old(applications) && r == Threw
      ensures Tracks(old(applications), jobId) && edit.Resolved? ==>
                calls == old(calls) + [EditApplication(jobId, status, note, endDate), GetApplications]
      ensures Tracks(old(applications), jobId) && edit.Resolved? && reload.Resolved? ==>
                applications == Some(reload.reply.data) && r == Returned(())
      ensures Tracks(old(applications), jobId) && edit.Resolved? && reload.Rejected? ==>
                applications == old(applications) && r == Threw
      ensures filteredApplications == old(filteredApplications)
      ensures searchQuery == old(searchQuery) && statusFilter == old(statusFilter) && sortConfig == old(sortConfig)
    {
      if !Tracks(applications, jobId) {
        return Returned(());
      }
      calls := calls + [EditApplication(jobId, status, note, endDate)];
      if edit.Rejected? {
        return Threw;
      }
      calls := calls + [GetApplications];
      if reload.Rejected? {
        return Threw;
      }
      applications := Some(reload.reply.data);
      r := Returned(());
    }
  }
}
