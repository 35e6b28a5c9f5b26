/**
 * The bookmark store (src/store/bookmarkStore.ts): adding and removing update the list
 * optimistically before the request; a failed request resynchronises the list from the server.
 */
module Bookmarks {
  import opened Wrappers
  import opened Types
  import opened Http
  import opened Seqs

  /** `list.some(b => b.id === id)`. */
  predicate HasId(list: seq<Job>, id: int) {
    exists i :: 0 <= i < |list| && list[i].id == id
  }

  /** No two bookmarks share an id. */
  predicate UniqueIds(list: seq<Job>) {
    forall i, j :: 0 <= i < j < |list| ==> list[i].id != list[j].id
  }

  /** `jobs.find(job => job.id === id)`: the first job with that id. */
  function FindFirst(jobs: seq<Job>, id: int): (r: Option<Job>)
    ensures r.None? <==> !HasId(jobs, id)
    ensures r.Some? ==> exists i :: 0 <= i < |jobs| && jobs[i] == r.value && r.value.id == id &&
                                    forall k :: 0 <= k < i ==> jobs[k].id != id
  {
    if jobs == [] then None
    else if jobs[0].id == id then Some(jobs[0])
    else
      var r := FindFirst(jobs[1..], id);
      assert r.Some? ==> exists i :: 0 <= i < |jobs[1..]| && jobs[1..][i] == r.value && r.value.id == id &&
                                      forall k :: 0 <= k < i ==> jobs[1..][k].id != id;
      assert HasId(jobs[1..], id) <==> HasId(jobs, id) by {
        if HasId(jobs, id) {
          var i :| 0 <= i < |jobs| && jobs[i].id == id;
          assert jobs[1..][i - 1].id == id;
        }
      }
      if r.Some? then
        assert exists i :: 0 <= i < |jobs| && jobs[i] == r.value && r.value.id == id &&
                           forall k :: 0 <= k < i ==> jobs[k].id != id by {
          var i :| 0 <= i < |jobs[1..]| && jobs[1..][i] == r.value && r.value.id == id &&
                   forall k :: 0 <= k < i ==> jobs[1..][k].id != id;
          assert jobs[i + 1] == r.value;
          forall k | 0 <= k < i + 1 ensures jobs[k].id != id {
            if k > 0 { assert jobs[k] == jobs[1..][k - 1]; }
          }
        }
        r
      else r
  }

  /** `useJobStore.getState().jobList?.find(...)`: nothing is found in a null job list. */
  function FindJob(jobList: Option<seq<Job>>, id: int): (r: Option<Job>)
    ensures r.Some? ==> jobList.Some? && r.value.id == id && r.value in jobList.value
    ensures r.None? <==> jobList.None? || !HasId(jobList.value, id)
  {
    match jobList
    case None => None
    case Some(jobs) => FindFirst(jobs, id)
  }

  /**
   * The list after `addBookmark`'s optimistic update (bookmarkStore.ts:23-31), before the request:
   * a null list counts as empty; the job is appended, marked bookmarked, only when it is in the
   * job list and not already bookmarked; otherwise the list (even a null one) is left as it was.
   */
  function OptimisticAdd(list: Option<seq<Job>>, jobList: Option<seq<Job>>, id: int): (r: Option<seq<Job>>)
    ensures r != list ==>
              r.Some? && FindJob(jobList, id).Some? && !HasId(list.GetOr([]), id) &&
              r.value == list.GetOr([]) + [FindJob(jobList, id).value.(isBookmarked := true)]
    ensures FindJob(jobList, id).Some? && !HasId(list.GetOr([]), id) ==> r != list
  {
    var current := list.GetOr([]);
    match FindJob(jobList, id)
    case Some(job) => if !HasId(current, id) then Some(current + [job.(isBookmarked := true)]) else list
    case None => list
  }

  /** After an add whose job exists, that id is bookmarked. */
  lemma {:induction false} AddMakesBookmarked(list: Option<seq<Job>>, jobList: Option<seq<Job>>, id: int)
    requires FindJob(jobList, id).Some?
    ensures var r := OptimisticAdd(list, jobList, id); r.Some? && HasId(r.value, id)
  {
    var current := list.GetOr([]);
    var r := OptimisticAdd(list, jobList, id);
    if !HasId(current, id) {
      assert r.value[|current|].id == id;
    } else {
      assert r == list && list.Some?;
    }
  }

  /** Add never creates a second bookmark with the same id. */
  lemma {:induction false} AddKeepsIdsUnique(list: Option<seq<Job>>, jobList: Option<seq<Job>>, id: int)
    requires UniqueIds(list.GetOr([]))
    ensures UniqueIds(OptimisticAdd(list, jobList, id).GetOr([]))
  {
    var r := OptimisticAdd(list, jobList, id);
    if r != list {
      var s := r.value;
      var current := list.GetOr([]);
      assert s == current + [s[|s| - 1]];
      forall i, j | 0 <= i < j < |s| ensures s[i].id != s[j].id {
        if j == |s| - 1 {
          assert s[i] == current[i];
        }
      }
    }
  }

  /** Adding the same id twice is adding it once. */
  lemma AddIdempotent(list: Option<seq<Job>>, jobList: Option<seq<Job>>, id: int)
    ensures OptimisticAdd(OptimisticAdd(list, jobList, id), jobList, id) == OptimisticAdd(list, jobList, id)
  {
    if FindJob(jobList, id).Some? {
      AddMakesBookmarked(list, jobList, id);
    }
  }

  /** The list after `removeBookmark`'s optimistic update (bookmarkStore.ts:69-74): every entry with the id filtered out. */
  function OptimisticRemove(list: Option<seq<Job>>, id: int): (r: seq<Job>)
    ensures !HasId(r, id)
    ensures forall k :: 0 <= k < |list.GetOr([])| && list.GetOr([])[k].id != id ==> list.GetOr([])[k] in r
    ensures forall k :: 0 <= k < |r| ==> r[k] in list.GetOr([])
    ensures forall j :: Count(r, j) == if j.id != id then Count(list.GetOr([]), j) else 0
  {
    var keep := (b: Job) => b.id != id;
    FilterCount(list.GetOr([]), keep);
    Filter(list.GetOr([]), keep)
  }

  /** Removal keeps the surviving bookmarks in their order: it distributes over concatenation. */
  lemma RemoveKeepsOrder(a: seq<Job>, b: seq<Job>, id: int)
    ensures OptimisticRemove(Some(a + b), id) == OptimisticRemove(Some(a), id) + OptimisticRemove(Some(b), id)
  {
    FilterAppend(a, b, (j: Job) => j.id != id);
  }

  /** Removal is idempotent on the local list. */
  lemma RemoveIdempotent(list: Option<seq<Job>>, id: int)
    ensures OptimisticRemove(Some(OptimisticRemove(list, id)), id) == OptimisticRemove(list, id)
  {
    FilterIdempotent(list.GetOr([]), (b: Job) => b.id != id);
  }

  /** Removing an id that is not bookmarked changes nothing (a null list becomes empty). */
  lemma RemoveAbsentIsNoOp(list: Option<seq<Job>>, id: int)
    requires !HasId(list.GetOr([]), id)
    ensures OptimisticRemove(list, id) == list.GetOr([])
  {
    FilterKeepsAll(list.GetOr([]), (b: Job) => b.id != id);
  }

  /** Removal undoes an optimistic add of an id that was not bookmarked. */
  lemma RemoveUndoesAdd(list: Option<seq<Job>>, jobList: Option<seq<Job>>, id: int)
    requires !HasId(list.GetOr([]), id)
    ensures OptimisticRemove(OptimisticAdd(list, jobList, id), id) == list.GetOr([])
  {
    var current := list.GetOr([]);
    var r := OptimisticAdd(list, jobList, id);
    RemoveAbsentIsNoOp(list, id);
    if r != list {
      var added := r.value[|r.value| - 1];
      assert r.value == current + [added];
      RemoveKeepsOrder(current, [added], id);
      assert OptimisticRemove(Some([added]), id) == [];
    }
  }

  /** The store object; `bookmarkList` is overwritten in place. */
  class BookmarkStore {
    var bookmarkList: Option<seq<Job>>

    constructor ()
      ensures bookmarkList == None
    {
      bookmarkList := None;
    }

    /** `getBookmark`, given what `GET /bookmark/me` yields: store the data, or rethrow and keep the list. */
    method GetBookmark(call: Call<seq<Job>>) returns (settled: Settled<seq<Job>>)
      modifies this
      ensures call.Resolved? ==> bookmarkList == Some(call.reply.data) && settled == Returned(call.reply.data)
      ensures call.Rejected? ==> bookmarkList == old(bookmarkList) && settled == Threw
    {
      if call.Rejected? {
        return Threw;
      }
      bookmarkList := Some(call.reply.data);
      settled := Returned(call.reply.data);
    }

    /**
     * `addBookmark(id)`, given the job list, what the POST yields and what the resync GET would
     * yield: the optimistic list stays when the POST resolves; otherwise the list is whatever the
     * resync leaves, and the action returns undefined, or rejects when the resync fails too.
     */
    method AddBookmark(id: int, jobList: Option<seq<Job>>, post: Call<()>, resync: Call<seq<Job>>)
      returns (settled: Settled<Option<int>>)
      modifies this
      ensures post.Resolved? ==>
                bookmarkList == OptimisticAdd(old(bookmarkList), jobList, id) &&
                settled == Returned(Some(post.reply.status))
      ensures post.Rejected? && resync.Resolved? ==>
                bookmarkList == Some(resync.reply.data) && settled == Returned(None)
      ensures post.Rejected? && resync.Rejected? ==>
                bookmarkList == OptimisticAdd(old(bookmarkList), jobList, id) && settled == Threw
    {
      var current := bookmarkList.GetOr([]);
      var jobToAdd := FindJob(jobList, id);
      if jobToAdd.Some? && !HasId(current, id) {
        bookmarkList := Some(current + [jobToAdd.value.(isBookmarked := true)]);
      }
      if post.Resolved? {
        return Returned(Some(post.reply.status));
      }
      var resynced := GetBookmark(resync);
      settled := if resynced.Threw? then Threw else Returned(None);
    }

    /** `removeBookmark(id)`, given what the DELETE yields and what the resync GET would yield. */
    method RemoveBookmark(id: int, delete: Call<()>, resync: Call<seq<Job>>)
      returns (settled: Settled<Option<int>>)
      modifies this
      ensures delete.Resolved? ==>
                bookmarkList == Some(OptimisticRemove(old(bookmarkList), id)) &&
                settled == Returned(Some(delete.reply.status))
      ensures delete.Rejected? && resync.Resolved? ==>
                bookmarkList == Some(resync.reply.data) && settled == Returned(None)
      ensures delete.Rejected? && resync.Rejected? ==>
                bookmarkList == Some(OptimisticRemove(old(bookmarkList), id)) && settled == Threw
    {
      var current := bookmarkList.GetOr([]);
      bookmarkList := Some(Filter(current, (b: Job) => b.id != id));
      if delete.Resolved? {
        return Returned(Some(delete.reply.status));
      }
      var resynced := GetBookmark(resync);
      settled := if resynced.Threw? then Threw else Returned(None);
    }
  }
}
