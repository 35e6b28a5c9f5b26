/**
 * The recommendation cache (src/store/recommendationCacheStore.ts): the CV whose
 * recommendations are shown, a per-CV cache of recommended jobs, and the choice of the most
 * recently uploaded CV.
 */
module RecommendationCache {
  import opened Wrappers
  import opened Types
  import opened Http

  /**
   * `reduce((latest, current) => current.uploadedAt > latest.uploadedAt ? current : latest, acc)`:
   * a later CV replaces the running choice only when it is strictly newer.
   */
  function ReduceLatest(cvs: seq<CvMe>, acc: CvMe): (r: CvMe)
    ensures r == acc || r in cvs
    ensures r.uploadedAt >= acc.uploadedAt
    ensures forall j :: 0 <= j < |cvs| ==> cvs[j].uploadedAt <= r.uploadedAt
  {
    if cvs == [] then acc
    else ReduceLatest(cvs[1..], if cvs[0].uploadedAt > acc.uploadedAt then cvs[0] else acc)
  }

  /** The CV `getSelectedCVId` picks (recommendationCacheStore.ts:34-38): the reduction seeded with the first CV. */
  function LatestCv(cvs: seq<CvMe>): (r: CvMe)
    requires |cvs| > 0
    ensures r in cvs
  {
    ReduceLatest(cvs, cvs[0])
  }

  /** `cvs[i]` is the newest upload, and no earlier CV is as new. */
  predicate IsFirstNewest(cvs: seq<CvMe>, i: int) {
    0 <= i < |cvs| &&
    (forall j :: 0 <= j < |cvs| ==> cvs[j].uploadedAt <= cvs[i].uploadedAt) &&
    (forall j :: 0 <= j < i ==> cvs[j].uploadedAt < cvs[i].uploadedAt)
  }

  /** The reduction over the rest of the list, once the first `k` CVs have been seen with `cvs[m]` chosen. */
  lemma {:induction false} ReduceLatestFrom(cvs: seq<CvMe>, k: nat, m: nat)
    requires m < k <= |cvs|
    requires IsFirstNewest(cvs[..k], m)
    ensures exists i :: IsFirstNewest(cvs, i) && ReduceLatest(cvs[k..], cvs[m]) == cvs[i]
    decreases |cvs| - k
  {
    if k == |cvs| {
      assert cvs[..k] == cvs;
      assert IsFirstNewest(cvs, m);
    } else {
      var c := cvs[k];
      var next := if c.uploadedAt > cvs[m].uploadedAt then k else m;
      assert cvs[k..][0] == c && cvs[k..][1..] == cvs[k + 1..];
      var seen, grown := cvs[..k], cvs[..k + 1];
      assert IsFirstNewest(grown, next) by {
        forall j | 0 <= j < k + 1
          ensures grown[j].uploadedAt <= grown[next].uploadedAt
        {
          if j < k {
            assert grown[j] == seen[j];
            assert seen[j].uploadedAt <= seen[m].uploadedAt;
          }
        }
        forall j | 0 <= j < next
          ensures grown[j].uploadedAt < grown[next].uploadedAt
        {
          assert grown[j] == seen[j];
          if next == k {
            assert seen[j].uploadedAt <= seen[m].uploadedAt;
          }
        }
      }
      ReduceLatestFrom(cvs, k + 1, next);
    }
  }

  /**
   * The picked CV has the newest upload time in the list, and on a tie it is the earliest
   * listed of the newest, because only a strictly newer CV replaces the choice.
   */
  lemma LatestCvIsFirstNewest(cvs: seq<CvMe>)
    requires |cvs| > 0
    ensures exists i :: IsFirstNewest(cvs, i) && LatestCv(cvs) == cvs[i]
  {
    assert IsFirstNewest(cvs[..1], 0);
    ReduceLatestFrom(cvs, 1, 0);
  }

  /** The store's fields, overwritten in place through `set`. */
  class RecommendationStore {
    var selectedCVId: Option<int>
    var recommendationsCache: map<int, seq<Job>>

    constructor ()
      ensures selectedCVId == None && recommendationsCache == map[]
    {
      selectedCVId := None;
      recommendationsCache := map[];
    }

    /** `setSelectedCVId` (recommendationCacheStore.ts:18). */
    method SetSelectedCVId(cvId: int)
      modifies this
      ensures selectedCVId == Some(cvId)
      ensures recommendationsCache == old(recommendationsCache)
    {
      selectedCVId := Some(cvId);
    }

    /** `setRecommendations` (recommendationCacheStore.ts:19-22): one entry replaced or added, the rest kept. */
    method SetRecommendations(cvId: int, data: seq<Job>)
      modifies this
      ensures recommendationsCache == old(recommendationsCache)[cvId := data]
      ensures cvId in recommendationsCache && recommendationsCache[cvId] == data
      ensures forall k :: k in old(recommendationsCache) && k != cvId ==>
                k in recommendationsCache && recommendationsCache[k] == old(recommendationsCache)[k]
      ensures recommendationsCache.Keys == old(recommendationsCache).Keys + {cvId}
      ensures selectedCVId == old(selectedCVId)
    {
      recommendationsCache := recommendationsCache[cvId := data];
    }

    /**
     * `getSelectedCVId`, given what `GET /cv/me` yields: the newest CV's id is stored and
     * returned; a failed call, or an empty list (reading `id` of `undefined`), rethrows with the
     * store unchanged.
     */
    method GetSelectedCVId(call: Call<seq<CvMe>>) returns (settled: Settled<int>)
      modifies this
      ensures call.Resolved? && |call.reply.data| > 0 ==>
                settled == Returned(LatestCv(call.reply.data).id) && selectedCVId == Some(settled.value)
      ensures call.Rejected? || |call.reply.data| == 0 ==> settled == Threw && selectedCVId == old(selectedCVId)
      ensures recommendationsCache == old(recommendationsCache)
    {
      if call.Rejected? {
        return Threw;
      }
      var cvs := call.reply.data;
      if |cvs| == 0 {
        return Threw;
      }
      var latestCV := ReduceLatest(cvs, cvs[0]);
      selectedCVId := Some(latestCV.id);
      settled := Returned(latestCV.id);
    }
  }
}
