/** The ordered, filtered query both storages send to their container:
    `SELECT * FROM c [WHERE c.<time> > since] ORDER BY c.<time> ASC` over one
    partition. The store orders documents with equal times as it likes, so
    the answer is specified by a predicate, and Run may return any order of
    equal times. A partition is given by the time of each of its documents. */
module Query {
  import opened Common

  /** The WHERE clause; without a bound every document qualifies. */
  predicate After(since: Option<int64>, t: int64) {
    since.None? || t > since.value
  }

  ghost predicate Distinct(ids: seq<string>) {
    forall i, j :: 0 <= i < j < |ids| ==> ids[i] != ids[j]
  }

  /** Every id is a document of the partition, and times never decrease. */
  ghost predicate Ascending(times: map<string, int64>, ids: seq<string>) {
    && (forall i :: 0 <= i < |ids| ==> ids[i] in times)
    && (forall i, j :: 0 <= i < j < |ids| ==> times[ids[i]] <= times[ids[j]])
  }

  /** `ids` lists each document that passes the filter exactly once,
      in ascending time order, and nothing else. */
  ghost predicate IsAnswer(times: map<string, int64>, since: Option<int64>, ids: seq<string>) {
    && Ascending(times, ids)
    && Distinct(ids)
    && (forall i :: 0 <= i < |ids| ==> After(since, times[ids[i]]))
    && (forall id :: id in times && After(since, times[id]) ==> id in ids)
  }

  /** Inserts `id` after every id whose time is not later than its own. */
  function InsertByTime(times: map<string, int64>, ids: seq<string>, id: string): (r: seq<string>)
    requires id in times && forall i :: 0 <= i < |ids| ==> ids[i] in times
    ensures |r| == |ids| + 1
  {
    if ids == [] || times[id] < times[ids[0]] then [id] + ids
    else [ids[0]] + InsertByTime(times, ids[1..], id)
  }

  /** Insertion adds exactly `id`. */
  lemma {:induction false} InsertByTimeMembers(times: map<string, int64>, ids: seq<string>, id: string)
    requires id in times && forall i :: 0 <= i < |ids| ==> ids[i] in times
    ensures forall x :: x in InsertByTime(times, ids, id) <==> x in ids || x == id
  {
    if ids != [] && times[id] >= times[ids[0]] {
      InsertByTimeMembers(times, ids[1..], id);
      assert ids == [ids[0]] + ids[1..];
    }
  }

  /** Insertion keeps the ids in ascending time order, and distinct when `id` is new. */
  lemma {:induction false} InsertByTimeSorted(times: map<string, int64>, ids: seq<string>, id: string)
    requires id in times && Ascending(times, ids)
    ensures Ascending(times, InsertByTime(times, ids, id))
    ensures Distinct(ids) && id !in ids ==> Distinct(InsertByTime(times, ids, id))
  {
    InsertByTimeMembers(times, ids, id);
    if ids != [] && times[id] >= times[ids[0]] {
      var rest := InsertByTime(times, ids[1..], id);
      InsertByTimeSorted(times, ids[1..], id);
      InsertByTimeMembers(times, ids[1..], id);
      forall k | 0 <= k < |rest| ensures times[ids[0]] <= times[rest[k]] {
        if rest[k] != id {
          assert rest[k] in ids[1..];
          var m :| 0 <= m < |ids[1..]| && ids[1..][m] == rest[k];
          assert rest[k] == ids[m + 1];
        }
      }
      if Distinct(ids) && id !in ids {
        assert ids[0] !in ids[1..];
        assert ids[0] !in rest;
      }
    }
  }

  /** Executes the query over one partition. */
  method Run(times: map<string, int64>, since: Option<int64>) returns (ids: seq<string>)
    ensures IsAnswer(times, since, ids)
  {
    ids := [];
    var remaining := times.Keys;
    while remaining != {}
      invariant remaining <= times.Keys
      invariant Ascending(times, ids) && Distinct(ids)
      invariant forall x :: x in ids ==> x in times && x !in remaining && After(since, times[x])
      invariant forall id :: id in times && id !in remaining && After(since, times[id]) ==> id in ids
      decreases remaining
    {
      var id :| id in remaining;
      remaining := remaining - {id};
      if After(since, times[id]) {
        InsertByTimeMembers(times, ids, id);
        InsertByTimeSorted(times, ids, id);
        ids := InsertByTime(times, ids, id);
      }
    }
  }
}
