/**
 * The notification store (src/store/NotificationStore.ts): the notification list, replaced
 * wholesale on each fetch, and the jobs behind a notification, fetched in one batch by the job
 * ids its items carry.
 */
module Notifications {
  import opened Wrappers
  import opened Types
  import opened Http
  import opened Text
  import opened Seqs

  /** `fetchNotiList` (NotificationStore.ts:31-43): the list becomes the response content; a failed GET rejects. */
  function AfterFetchNotiList(list: seq<Notification>, call: Call<seq<Notification>>): (r: seq<Notification>)
    ensures call.Resolved? ==> r == call.reply.data
    ensures call.Rejected? ==> r == list
  {
    match call
    case Resolved(reply) => reply.data
    case Rejected => list
  }

  /** Of two fetches the later successful one wins, whatever the earlier one brought. */
  lemma LaterFetchWins(list: seq<Notification>, first: Call<seq<Notification>>, second: Call<seq<Notification>>)
    requires second.Resolved?
    ensures AfterFetchNotiList(AfterFetchNotiList(list, first), second) == AfterFetchNotiList(list, second)
  {
  }

  /** The numeric job ids of the items, in item order (NotificationStore.ts:62-66). */
  function JobIds(items: seq<NotificationJobItem>): (ids: seq<int>)
    ensures |ids| <= |items|
    decreases |items|
  {
    if items == [] then []
    else
      var last := items[|items| - 1];
      JobIds(items[..|items| - 1]) + (if last.jobId.Some? then [last.jobId.value] else [])
  }

  /** Collecting works item by item: it distributes over concatenation. */
  lemma {:induction false} JobIdsAppend(a: seq<NotificationJobItem>, b: seq<NotificationJobItem>)
    ensures JobIds(a + b) == JobIds(a) + JobIds(b)
    decreases |b|
  {
    if b == [] {
      assert a + b == a;
    } else {
      var ab := a + b;
      assert ab[..|ab| - 1] == a + b[..|b| - 1];
      assert ab[|ab| - 1] == b[|b| - 1];
      JobIdsAppend(a, b[..|b| - 1]);
      var last := b[|b| - 1];
      var tail := if last.jobId.Some? then [last.jobId.value] else [];
      assert JobIds(ab) == JobIds(a + b[..|b| - 1]) + tail;
      assert JobIds(b) == JobIds(b[..|b| - 1]) + tail;
    }
  }

  /** The test `item => item.jobId === v`. */
  function Carries(v: int): NotificationJobItem -> bool {
    (item: NotificationJobItem) => item.jobId == Some(v)
  }

  /** An id is collected exactly as many times as there are items carrying it. */
  lemma {:induction false} JobIdsCount(items: seq<NotificationJobItem>)
    ensures forall v :: Count(JobIds(items), v) == |Filter(items, Carries(v))|
    decreases |items|
  {
    if items != [] {
      var init := items[..|items| - 1];
      var last := items[|items| - 1];
      var tail := if last.jobId.Some? then [last.jobId.value] else [];
      JobIdsCount(init);
      assert JobIds(items) == JobIds(init) + tail;
      assert items == init + [last];
      forall v
        ensures Count(JobIds(items), v) == |Filter(items, Carries(v))|
      {
        CountAppend(JobIds(init), tail, v);
        FilterAppend(init, [last], Carries(v));
      }
    }
  }

  /**
   * Every collected id comes from an item, every item with a numeric id contributes it, and an id
   * is collected exactly as many times as there are items carrying it.
   */
  lemma {:induction false} JobIdsSpec(items: seq<NotificationJobItem>)
    ensures forall k :: 0 <= k < |JobIds(items)| ==>
              exists i :: 0 <= i < |items| && items[i].jobId == Some(JobIds(items)[k])
    ensures forall i :: 0 <= i < |items| && items[i].jobId.Some? ==> items[i].jobId.value in JobIds(items)
    ensures JobIds(items) == [] <==> forall i :: 0 <= i < |items| ==> items[i].jobId.None?
    ensures forall v :: Count(JobIds(items), v) == |Filter(items, Carries(v))|
    decreases |items|
  {
    if items != [] {
      var init := items[..|items| - 1];
      JobIdsSpec(init);
      var ids := JobIds(items);
      var last := items[|items| - 1];
      assert ids == JobIds(init) + (if last.jobId.Some? then [last.jobId.value] else []);
      forall k | 0 <= k < |ids|
        ensures exists i :: 0 <= i < |items| && items[i].jobId == Some(JobIds(items)[k])
      {
        if k < |JobIds(init)| {
          assert ids[k] == JobIds(init)[k];
          var i :| 0 <= i < |init| && init[i].jobId == Some(JobIds(init)[k]);
          assert items[i] == init[i];
        } else {
          assert last.jobId.Some? && k == |JobIds(init)| && ids[k] == last.jobId.value;
          assert items[|items| - 1].jobId == Some(ids[k]);
        }
      }
      forall i | 0 <= i < |items| && items[i].jobId.Some?
        ensures items[i].jobId.value in ids
      {
        if i < |init| {
          assert items[i] == init[i];
          assert items[i].jobId.value in JobIds(init);
        }
      }
      JobIdsCount(items);
    } else {
      assert JobIds(items) == [];
    }
  }

  /** The decimal form of each id. */
  function IdStrings(ids: seq<int>): (r: seq<string>)
    ensures |r| == |ids|
    ensures forall k :: 0 <= k < |r| ==> r[k] == IntToString(ids[k])
  {
    if ids == [] then [] else [IntToString(ids[0])] + IdStrings(ids[1..])
  }

  /** `jobIds.join(',')` (NotificationStore.ts:69). */
  function BatchQuery(ids: seq<int>): string {
    Join(IdStrings(ids), ',')
  }

  /** The ids read back from a query: split at the commas and read each piece as a number. */
  function ParseIds(pieces: seq<string>): (ids: seq<int>)
    ensures |ids| == |pieces|
  {
    if pieces == [] then [] else [IntValue(pieces[0])] + ParseIds(pieces[1..])
  }

  lemma {:induction false} ParseIdStrings(ids: seq<int>)
    ensures ParseIds(IdStrings(ids)) == ids
  {
    if ids != [] {
      ParseIdStrings(ids[1..]);
      IntToStringValue(ids[0]);
      assert IdStrings(ids)[1..] == IdStrings(ids[1..]);
    }
  }

  /** A decimal string never holds a comma. */
  lemma NoCommaInDecimal(i: int)
    ensures ',' !in IntToString(i)
  {
    var s := IntToString(i);
    if i >= 0 {
      assert forall k :: 0 <= k < |s| ==> IsDigit(s[k]);
    } else {
      assert s == "-" + NatToString(-i);
      assert forall k :: 1 <= k < |s| ==> s[k] == NatToString(-i)[k - 1];
    }
  }

  /** The batch query names exactly the collected ids, in order: splitting it gives them back. */
  lemma BatchQueryRoundTrip(ids: seq<int>)
    requires |ids| > 0
    ensures ParseIds(Split(BatchQuery(ids), ',')) == ids
  {
    var parts := IdStrings(ids);
    forall k | 0 <= k < |parts|
      ensures ',' !in parts[k]
    {
      NoCommaInDecimal(ids[k]);
    }
    SplitJoin(parts, ',');
    ParseIdStrings(ids);
  }

  /** The store's fields. */
  class NotificationStore {
    var notiList: seq<Notification>
    var notiJobList: seq<Job>

    constructor ()
      ensures notiList == [] && notiJobList == []
    {
      notiList := [];
      notiJobList := [];
    }

    method FetchNotiList(call: Call<seq<Notification>>) returns (settled: Settled<()>)
      modifies this
      ensures notiList == AfterFetchNotiList(old(notiList), call)
      ensures settled.Threw? <==> call.Rejected?
      ensures notiJobList == old(notiJobList)
    {
      if call.Rejected? {
        return Threw;
      }
      notiList := call.reply.data;
      settled := Returned(());
    }

    /** The `forEach` push loop of NotificationStore.ts:60-66. */
    static method CollectJobIds(notis: Option<seq<NotificationJobItem>>) returns (jobIds: seq<int>)
      ensures notis.None? ==> jobIds == []
      ensures notis.Some? ==> jobIds == JobIds(notis.value)
    {
      jobIds := [];
      if notis.Some? {
        var items := notis.value;
        var i := 0;
        while i < |items|
          invariant 0 <= i <= |items|
          invariant jobIds == JobIds(items[..i])
        {
          var item := items[i];
          if item.jobId.Some? {
            jobIds := jobIds + [item.jobId.value];
          }
          assert items[..i + 1][..i] == items[..i];
          i := i + 1;
        }
        assert items[..i] == items;
      }
    }

    /**
     * `fetchNotiJobList(notis)`, given what the batch GET yields: with no numeric id nothing is
     * requested and nothing changes; otherwise the ids go out joined by commas, a 200 stores the
     * jobs, any other resolved status empties the list, and a failed GET rejects.
     */
    method FetchNotiJobList(notis: Option<seq<NotificationJobItem>>, call: Call<seq<Job>>)
      returns (query: Option<string>, settled: Settled<()>)
      modifies this
      ensures var ids := if notis.Some? then JobIds(notis.value) else [];
              (ids == [] ==> query == None && settled == Returned(()) && notiJobList == old(notiJobList)) &&
              (ids != [] ==> query == Some(BatchQuery(ids)))
      ensures query.Some? && call.Rejected? ==> settled == Threw && notiJobList == old(notiJobList)
      ensures query.Some? && call.Resolved? && call.reply.status == 200 ==>
                settled == Returned(()) && notiJobList == call.reply.data
      ensures query.Some? && call.Resolved? && call.reply.status != 200 ==>
                settled == Returned(()) && notiJobList == []
      ensures notiList == old(notiList)
    {
      var jobIds := CollectJobIds(notis);
      if |jobIds| == 0 {
        return None, Returned(());
      }
      query := Some(Join(IdStrings(jobIds), ','));
      if call.Rejected? {
        return query, Threw;
      }
      if call.reply.status == 200 {
        notiJobList := call.reply.data;
      } else {
        notiJobList := [];
      }
      settled := Returned(());
    }
  }
}
