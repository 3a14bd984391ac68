/** One capture pass over a tenant's listings, whichever of its reads fail (crates/tam-analytics/src/lib.rs). */
module Analytics {
  import opened Wrappers

  const STATS_BATCH_MAX: nat := 100

  const CAPTURED_METRICS: seq<string> := ["sales_count", "earnings", "resource_views"]

  type Resource = nat
  type Mapping = nat

  datatype Remote = Tpt(product: Resource) | Elsewhere

  datatype Listing = Listing(mapping: Mapping, remote: Remote)

  datatype Stat = Stat(resource: Resource, value: int)

  datatype Row = Row(mapping: Mapping, metric: string, observedAt: int, value: int)

  datatype Request = Request(metric: string, batch: seq<Resource>)

  type Reader = Request -> Option<seq<Stat>>

  // ------------------------------------------------------------ what is asked about

  /** The mapping each resource is filed under; the last listing naming one wins. */
  function Index(listings: seq<Listing>): map<Resource, Mapping> {
    if listings == [] then map[]
    else
      var (front, last) := (Index(listings[..|listings| - 1]), listings[|listings| - 1]);
      if last.remote.Tpt? then front[last.remote.product := last.mapping] else front
  }

  function Insert(id: Resource, ids: seq<Resource>): (inserted: seq<Resource>)
    ensures forall x :: x in inserted <==> x == id || x in ids
  {
    assert ids != [] ==> ids == [ids[0]] + ids[1..];
    if ids == [] || id < ids[0] then [id] + ids
    else if id == ids[0] then ids
    else [ids[0]] + Insert(id, ids[1..])
  }

  /** An index's resources, least first, as the requests name them. */
  function ResourceIds(listings: seq<Listing>): seq<Resource> {
    if listings == [] then []
    else
      var (front, last) := (ResourceIds(listings[..|listings| - 1]), listings[|listings| - 1]);
      if last.remote.Tpt? then Insert(last.remote.product, front) else front
  }

  ghost predicate Ascending(ids: seq<Resource>) {
    forall i, j | 0 <= i < j < |ids| :: ids[i] < ids[j]
  }

  lemma AscendingTail(ids: seq<Resource>)
    requires ids != [] && Ascending(ids)
    ensures Ascending(ids[1..]) && forall x <- ids[1..] :: ids[0] < x
  {
    var rest := ids[1..];
    assert forall i | 0 <= i < |rest| :: rest[i] == ids[i + 1];
  }

  lemma AscendingCons(first: Resource, rest: seq<Resource>)
    requires Ascending(rest) && forall x <- rest :: first < x
    ensures Ascending([first] + rest)
  {
    assert forall i | 0 <= i < |rest| :: rest[i] in rest;
  }

  lemma {:induction false} InsertKeeps(id: Resource, ids: seq<Resource>)
    requires Ascending(ids)
    ensures Ascending(Insert(id, ids))
  {
    hide Ascending;
    if ids == [] {
      AscendingCons(id, []);
      assert [id] + [] == [id];
    } else {
      AscendingTail(ids);
      if id < ids[0] {
        assert forall x <- ids :: x == ids[0] || x in ids[1..];
        AscendingCons(id, ids);
      } else if id > ids[0] {
        InsertKeeps(id, ids[1..]);
        AscendingCons(ids[0], Insert(id, ids[1..]));
      }
    }
  }

  lemma {:induction false} IdsAreIndexed(listings: seq<Listing>)
    ensures Ascending(ResourceIds(listings))
    ensures forall id :: id in ResourceIds(listings) <==> id in Index(listings)
  {
    if listings != [] {
      var (front, last) := (listings[..|listings| - 1], listings[|listings| - 1]);
      IdsAreIndexed(front);
      if last.remote.Tpt? { InsertKeeps(last.remote.product, ResourceIds(front)); }
    }
  }

  /** The last of the listings that names a resource. */
  ghost predicate NamedLast(listings: seq<Listing>, id: Resource, i: nat) {
    && i < |listings| && listings[i].remote == Tpt(id)
    && forall j | i < j < |listings| :: listings[j].remote != Tpt(id)
  }

  lemma LastIsNone(listings: seq<Listing>, id: Resource, i: nat)
    requires NamedLast(listings, id, i) && listings[|listings| - 1].remote == Tpt(id)
    ensures i == |listings| - 1
  {
  }

  /** A resource's rows go under the mapping of the last listing that names it, and under none if none does. */
  lemma {:induction false} IndexIff(listings: seq<Listing>, id: Resource)
    ensures id in Index(listings) <==> exists i: nat :: NamedLast(listings, id, i)
    ensures forall i: nat | NamedLast(listings, id, i) ::
              id in Index(listings) && Index(listings)[id] == listings[i].mapping
  {
    if listings != [] {
      var (front, last, n) := (listings[..|listings| - 1], listings[|listings| - 1], |listings| - 1);
      IndexIff(front, id);
      if last.remote == Tpt(id) {
        assert NamedLast(listings, id, n);
        forall i: nat | NamedLast(listings, id, i) ensures i == n { LastIsNone(listings, id, i); }
      } else {
        forall i: nat ensures NamedLast(listings, id, i) <==> NamedLast(front, id, i) {
          if NamedLast(front, id, i) { assert forall j | i < j < n :: listings[j] == front[j]; }
          if NamedLast(listings, id, i) { assert i < n && forall j | i < j < n :: front[j] == listings[j]; }
        }
      }
    }
  }

  function Joined(batches: seq<seq<Resource>>): seq<Resource> {
    if batches == [] then [] else batches[0] + Joined(batches[1..])
  }

  /** The ids in requests no larger than the marketplace admits. */
  function Batches(ids: seq<Resource>): (batches: seq<seq<Resource>>)
    ensures forall batch <- batches :: 1 <= |batch| <= STATS_BATCH_MAX
    decreases |ids|
  {
    if ids == [] then []
    else if |ids| <= STATS_BATCH_MAX then [ids]
    else [ids[..STATS_BATCH_MAX]] + Batches(ids[STATS_BATCH_MAX..])
  }

  /** The requests make up the ids, in order, and are no more of them than that takes. */
  lemma {:induction false} BatchesMakeUp(ids: seq<Resource>)
    ensures Joined(Batches(ids)) == ids
    ensures forall i | 0 <= i < |Batches(ids)| :: 1 <= |Batches(ids)[i]| <= 100
    ensures forall i | 0 <= i < |Batches(ids)| - 1 :: |Batches(ids)[i]| == 100
    decreases |ids|
  {
    if 0 < |ids| <= STATS_BATCH_MAX {
      assert Batches(ids)[1..] == [];
    } else if ids != [] {
      var rest := ids[STATS_BATCH_MAX..];
      BatchesMakeUp(rest);
      assert Batches(ids)[1..] == Batches(rest);
      assert forall i | 0 < i < |Batches(ids)| :: Batches(ids)[i] == Batches(rest)[i - 1];
    }
  }

  function Requests(metrics: seq<string>, batches: seq<seq<Resource>>): seq<Request> {
    if metrics == [] then []
    else Requests(metrics[..|metrics| - 1], batches)
         + seq(|batches|, i requires 0 <= i < |batches| => Request(metrics[|metrics| - 1], batches[i]))
  }

  // ------------------------------------------------------------ what is written

  function SnapshotRows(index: map<Resource, Mapping>, metric: string, stats: seq<Stat>, at: int): seq<Row> {
    if stats == [] then []
    else
      var last := stats[|stats| - 1];
      SnapshotRows(index, metric, stats[..|stats| - 1], at)
      + if last.resource in index then [Row(index[last.resource], metric, at, last.value)] else []
  }

  /** The rows of the requests that answered, and how many did not. */
  function Captured(index: map<Resource, Mapping>, reader: Reader, requests: seq<Request>, at: int): (seq<Row>, nat) {
    if requests == [] then ([], 0)
    else
      var (rows, failures) := Captured(index, reader, requests[..|requests| - 1], at);
      var last := requests[|requests| - 1];
      match reader(last)
      case None => (rows, failures + 1)
      case Some(stats) => (rows + SnapshotRows(index, last.metric, stats, at), failures)
  }

  lemma NothingAsked(index: map<Resource, Mapping>, reader: Reader, batches: seq<seq<Resource>>, at: int)
    ensures Captured(index, reader, Requests(CAPTURED_METRICS[..0], batches), at) == ([], 0)
  {
  }

  lemma CaptureStep(index: map<Resource, Mapping>, reader: Reader, requests: seq<Request>, next: Request, at: int)
    ensures var (rows, failures) := Captured(index, reader, requests, at);
            Captured(index, reader, requests + [next], at)
            == match reader(next)
               case None => (rows, failures + 1)
               case Some(stats) => (rows + SnapshotRows(index, next.metric, stats, at), failures)
  {
    hide SnapshotRows;
    assert (requests + [next])[..|requests|] == requests;
  }

  lemma MetricAsked(m: nat, batches: seq<seq<Resource>>, asked: seq<Request>)
    requires m < |CAPTURED_METRICS|
    requires asked == seq(|batches|, i requires 0 <= i < |batches| => Request(CAPTURED_METRICS[m], batches[i]))
    ensures Requests(CAPTURED_METRICS[..m + 1], batches) == Requests(CAPTURED_METRICS[..m], batches) + asked
  {
    hide CAPTURED_METRICS;
    assert CAPTURED_METRICS[..m + 1][..m] == CAPTURED_METRICS[..m];
    assert CAPTURED_METRICS[..m + 1][m] == CAPTURED_METRICS[m];
  }

  method CaptureListings(reader: Reader, listings: seq<Listing>, at: int) returns (rows: seq<Row>, failures: nat)
    ensures (rows, failures)
         == Captured(Index(listings), reader, Requests(CAPTURED_METRICS, Batches(ResourceIds(listings))), at)
  {
    hide Index, ResourceIds, Batches, Captured, SnapshotRows, Requests;
    var index := Index(listings);
    var batches := Batches(ResourceIds(listings));
    rows, failures := [], 0;
    NothingAsked(index, reader, batches, at);
    for m := 0 to |CAPTURED_METRICS|
      invariant (rows, failures) == Captured(index, reader, Requests(CAPTURED_METRICS[..m], batches), at)
    {
      ghost var before := Requests(CAPTURED_METRICS[..m], batches);
      var metric := CAPTURED_METRICS[m];
      ghost var asked := seq(|batches|, i requires 0 <= i < |batches| => Request(metric, batches[i]));
      assert before + asked[..0] == before;
      for b := 0 to |batches|
        invariant (rows, failures) == Captured(index, reader, before + asked[..b], at)
      {
        CaptureStep(index, reader, before + asked[..b], Request(metric, batches[b]), at);
        assert before + asked[..b + 1] == before + asked[..b] + [asked[b]];
        match reader(Request(metric, batches[b])) {
          case Some(stats) => rows := rows + SnapshotRows(index, metric, stats, at);
          case None => failures := failures + 1;
        }
      }
      MetricAsked(m, batches, asked);
      assert asked[..|batches|] == asked;
    }
    assert CAPTURED_METRICS[..|CAPTURED_METRICS|] == CAPTURED_METRICS;
  }

  // ------------------------------------------------------------ each pair asked once

  lemma {:induction false} BatchesCut(ids: seq<Resource>, b: nat)
    requires b < |Batches(ids)|
    ensures b * STATS_BATCH_MAX + |Batches(ids)[b]| <= |ids|
    ensures Batches(ids)[b] == ids[b * STATS_BATCH_MAX..b * STATS_BATCH_MAX + |Batches(ids)[b]|]
    ensures |Batches(ids)[b]| < STATS_BATCH_MAX ==> b == |Batches(ids)| - 1
    ensures b == |Batches(ids)| - 1 ==> b * STATS_BATCH_MAX + |Batches(ids)[b]| == |ids|
    decreases |ids|
  {
    if |ids| > STATS_BATCH_MAX && b > 0 {
      var rest := ids[STATS_BATCH_MAX..];
      BatchesCut(rest, b - 1);
      assert Batches(ids)[b] == Batches(rest)[b - 1];
      var (from, to) := ((b - 1) * STATS_BATCH_MAX, (b - 1) * STATS_BATCH_MAX + |Batches(ids)[b]|);
      assert rest[from..to] == ids[from + STATS_BATCH_MAX..to + STATS_BATCH_MAX];
      assert b * STATS_BATCH_MAX == from + STATS_BATCH_MAX;
    }
  }

  /** Every id is in one batch, its own place decides which. */
  lemma InOneBatch(ids: seq<Resource>, id: Resource, b: nat)
    requires Ascending(ids) && b < |Batches(ids)|
    ensures id in Batches(ids)[b] <==>
            exists i | 0 <= i < |ids| :: ids[i] == id && i / STATS_BATCH_MAX == b
  {
    hide Batches;
    var batch := Batches(ids)[b];
    BatchesCut(ids, b);
    if id in batch {
      var k :| 0 <= k < |batch| && batch[k] == id;
      assert ids[b * STATS_BATCH_MAX + k] == id;
    }
    if i :| 0 <= i < |ids| && ids[i] == id && i / STATS_BATCH_MAX == b {
      assert batch[i - b * STATS_BATCH_MAX] == id;
    }
  }

  /** Where a metric's requests begin. */
  function Offset(m: nat, batches: nat): nat { if m == 0 then 0 else Offset(m - 1, batches) + batches }

  lemma {:induction false} OffsetIs(m: nat, batches: nat)
    ensures Offset(m, batches) == m * batches
  {
    if m > 0 { OffsetIs(m - 1, batches); }
  }

  lemma {:induction false} OffsetGrows(m: nat, k: nat, batches: nat)
    requires m < k
    ensures Offset(m, batches) + batches <= Offset(k, batches)
  {
    if m + 1 < k { OffsetGrows(m, k - 1, batches); }
  }

  lemma {:induction false} RequestCount(metrics: seq<string>, batches: seq<seq<Resource>>)
    ensures |Requests(metrics, batches)| == Offset(|metrics|, |batches|)
  {
    if metrics != [] { RequestCount(metrics[..|metrics| - 1], batches); }
  }

  lemma {:induction false} RequestAt(metrics: seq<string>, batches: seq<seq<Resource>>, m: nat, b: nat)
    requires m < |metrics| && b < |batches|
    ensures |Requests(metrics, batches)| == Offset(|metrics|, |batches|)
    ensures Offset(m, |batches|) + b < |Requests(metrics, batches)|
    ensures Requests(metrics, batches)[Offset(m, |batches|) + b] == Request(metrics[m], batches[b])
  {
    var last := |metrics| - 1;
    RequestCount(metrics[..last], batches);
    RequestCount(metrics, batches);
    if m < last {
      OffsetGrows(m, last, |batches|);
      RequestAt(metrics[..last], batches, m, b);
    }
  }

  /** Every request is one metric's about one batch. */
  lemma {:induction false} RequestFrom(metrics: seq<string>, batches: seq<seq<Resource>>, i: nat)
    returns (m: nat, b: nat)
    requires i < |Requests(metrics, batches)|
    ensures m < |metrics| && b < |batches| && i == Offset(m, |batches|) + b
    ensures Requests(metrics, batches)[i] == Request(metrics[m], batches[b])
  {
    var last := |metrics| - 1;
    RequestCount(metrics[..last], batches);
    if i < |Requests(metrics[..last], batches)| {
      m, b := RequestFrom(metrics[..last], batches, i);
    } else {
      m, b := last, i - Offset(last, |batches|);
    }
  }

  /** Whether a request asks about a resource under a metric, at one place of its batch. */
  predicate AsksAt(requests: seq<Request>, metric: string, id: Resource, i: nat, k: nat) {
    i < |requests| && requests[i].metric == metric && k < |requests[i].batch| && requests[i].batch[k] == id
  }

  /** What a pass asks, in all. */
  function Asked(listings: seq<Listing>): seq<Request> {
    Requests(CAPTURED_METRICS, Batches(ResourceIds(listings)))
  }

  lemma MetricsDiffer(m: nat, n: nat)
    requires m < |CAPTURED_METRICS| && n < |CAPTURED_METRICS| && CAPTURED_METRICS[m] == CAPTURED_METRICS[n]
    ensures m == n
  {
    assert |CAPTURED_METRICS[0]| == 11 && |CAPTURED_METRICS[1]| == 8 && |CAPTURED_METRICS[2]| == 14;
  }

  lemma MetricsAre(metric: string)
    ensures metric in CAPTURED_METRICS <==> metric in {"sales_count", "earnings", "resource_views"}
  {
    assert CAPTURED_METRICS[0] == "sales_count" && CAPTURED_METRICS[1] == "earnings";
    assert CAPTURED_METRICS[2] == "resource_views";
  }

  /** Where an ask stands says which resource it is about, whichever the metric. */
  lemma AskIsPlaced(ids: seq<Resource>, id: Resource, b: nat, k: nat)
    requires b < |Batches(ids)| && k < |Batches(ids)[b]| && Batches(ids)[b][k] == id
    ensures b * STATS_BATCH_MAX + k < |ids| && ids[b * STATS_BATCH_MAX + k] == id && k < STATS_BATCH_MAX
  {
    hide Batches;
    assert Batches(ids)[b] in Batches(ids);
    BatchesCut(ids, b);
  }

  /** Every place of the ids falls in a batch there is. */
  lemma BatchReached(ids: seq<Resource>, at: nat)
    requires at < |ids|
    ensures at / STATS_BATCH_MAX < |Batches(ids)|
  {
    hide Batches;
    BatchesMakeUp(ids);
    var last := |Batches(ids)| - 1;
    BatchesCut(ids, last);
    assert Batches(ids)[last] in Batches(ids);
  }

  lemma AskedSomewhere(listings: seq<Listing>, metric: string, id: Resource)
    requires metric in CAPTURED_METRICS && id in ResourceIds(listings)
    ensures exists i, k :: AsksAt(Asked(listings), metric, id, i, k)
  {
    hide Requests, Batches, ResourceIds, CAPTURED_METRICS;
    var (ids, batches) := (ResourceIds(listings), Batches(ResourceIds(listings)));
    var m :| 0 <= m < |CAPTURED_METRICS| && CAPTURED_METRICS[m] == metric;
    var at :| 0 <= at < |ids| && ids[at] == id;
    IdsAreIndexed(listings);
    var b := at / STATS_BATCH_MAX;
    BatchReached(ids, at);
    InOneBatch(ids, id, b);
    RequestAt(CAPTURED_METRICS, batches, m, b);
    var k :| 0 <= k < |batches[b]| && batches[b][k] == id;
    assert AsksAt(Asked(listings), metric, id, Offset(m, |batches|) + b, k);
  }

  lemma AscendingApart(ids: seq<Resource>, i: nat, j: nat)
    requires Ascending(ids) && i < |ids| && j < |ids| && ids[i] == ids[j]
    ensures i == j
  {
  }

  lemma AskedTogether(listings: seq<Listing>, metric: string, id: Resource, i: nat, k: nat, j: nat, l: nat)
    requires AsksAt(Asked(listings), metric, id, i, k) && AsksAt(Asked(listings), metric, id, j, l)
    ensures i == j && k == l
  {
    hide Requests, Batches, ResourceIds, CAPTURED_METRICS;
    var (ids, batches) := (ResourceIds(listings), Batches(ResourceIds(listings)));
    IdsAreIndexed(listings);
    var m, b := RequestFrom(CAPTURED_METRICS, batches, i);
    var n, c := RequestFrom(CAPTURED_METRICS, batches, j);
    MetricsDiffer(m, n);
    AskIsPlaced(ids, id, b, k);
    AskIsPlaced(ids, id, c, l);
    var (at, to) := (b * STATS_BATCH_MAX + k, c * STATS_BATCH_MAX + l);
    AscendingApart(ids, at, to);
  }

  /**
   A pass asks about every indexed resource under every metric at one place of
   one request, nowhere else, and about nothing that is not indexed.
   */
  lemma AskedOnce(listings: seq<Listing>, metric: string, id: Resource)
    ensures (metric in {"sales_count", "earnings", "resource_views"} && id in Index(listings))
            <==> exists i, k :: AsksAt(Asked(listings), metric, id, i, k)
    ensures forall i, k, j, l ::
              AsksAt(Asked(listings), metric, id, i, k) && AsksAt(Asked(listings), metric, id, j, l) ==>
                i == j && k == l
  {
    MetricsAre(metric);
    hide Requests, Batches, ResourceIds, Index, CAPTURED_METRICS;
    IdsAreIndexed(listings);
    if metric in CAPTURED_METRICS && id in Index(listings) { AskedSomewhere(listings, metric, id); }
    forall i, k | AsksAt(Asked(listings), metric, id, i, k)
      ensures metric in CAPTURED_METRICS && id in Index(listings)
    {
      var m, b := RequestFrom(CAPTURED_METRICS, Batches(ResourceIds(listings)), i);
      AskIsPlaced(ResourceIds(listings), id, b, k);
    }
    forall i, k, j, l | AsksAt(Asked(listings), metric, id, i, k) && AsksAt(Asked(listings), metric, id, j, l)
      ensures i == j && k == l
    {
      AskedTogether(listings, metric, id, i, k, j, l);
    }
  }

  // ------------------------------------------------------------ whichever reads fail

  function AnsweredIn(reader: Reader, requests: seq<Request>): nat {
    if requests == [] then 0
    else AnsweredIn(reader, requests[..|requests| - 1]) + if reader(requests[|requests| - 1]).Some? then 1 else 0
  }

  /** Whether one answered figure is this row. */
  predicate Gives(index: map<Resource, Mapping>, metric: string, stat: Stat, row: Row, at: int) {
    stat.resource in index && row == Row(index[stat.resource], metric, at, stat.value)
  }

  /** The places of a pass's answers whose figure is this row: the request, and where in its answer. */
  ghost function Places(index: map<Resource, Mapping>, reader: Reader, requests: seq<Request>, row: Row, at: int)
    : set<(nat, nat)>
  {
    set i: nat, k: nat | i < |requests| && reader(requests[i]).Some? && k < |reader(requests[i]).value|
                         && Gives(index, requests[i].metric, reader(requests[i]).value[k], row, at) :: (i, k)
  }

  /** And within one answer. */
  ghost function PlacesIn(
    index: map<Resource, Mapping>, metric: string, stats: seq<Stat>, row: Row, at: int, i: nat): set<(nat, nat)>
  {
    set k: nat | k < |stats| && Gives(index, metric, stats[k], row, at) :: (i, k)
  }

  lemma PlacesInGrow(
    index: map<Resource, Mapping>, metric: string, front: seq<Stat>, last: Stat, row: Row, at: int, i: nat)
    ensures PlacesIn(index, metric, front + [last], row, at, i)
         == PlacesIn(index, metric, front, row, at, i)
            + if Gives(index, metric, last, row, at) then {(i, |front|)} else {}
  {
    hide Gives;
    var stats := front + [last];
    assert stats[|front|] == last && forall k: nat | k < |front| :: stats[k] == front[k];
  }

  lemma NotYet(index: map<Resource, Mapping>, metric: string, stats: seq<Stat>, row: Row, at: int, i: nat)
    ensures (i, |stats|) !in PlacesIn(index, metric, stats, row, at, i)
  {
  }

  lemma {:induction false} RowsAreStats(
    index: map<Resource, Mapping>, metric: string, stats: seq<Stat>, row: Row, at: int, i: nat)
    ensures multiset(SnapshotRows(index, metric, stats, at))[row] == |PlacesIn(index, metric, stats, row, at, i)|
  {
    if stats == [] {
      assert PlacesIn(index, metric, stats, row, at, i) == {};
    } else {
      var (front, last) := (stats[..|stats| - 1], stats[|stats| - 1]);
      assert stats == front + [last];
      RowsAreStats(index, metric, front, row, at, i);
      PlacesInGrow(index, metric, front, last, row, at, i);
      NotYet(index, metric, front, row, at, i);
    }
  }

  /** One more request adds its own places. */
  lemma PlacesGrow(
    index: map<Resource, Mapping>, reader: Reader, front: seq<Request>, last: Request, row: Row, at: int)
    ensures var before := Places(index, reader, front, row, at);
            var more := if reader(last).None? then {}
                        else PlacesIn(index, last.metric, reader(last).value, row, at, |front|);
            Places(index, reader, front + [last], row, at) == before + more && before !! more
  {
    hide Gives;
    var requests := front + [last];
    assert requests[|front|] == last && forall i: nat | i < |front| :: requests[i] == front[i];
  }

  /**
   A pass writes exactly the answered figures of resources it holds, each as
   often as it was answered and all at its one instant, and accounts for every
   read: answered and failed together are all it made.
   */
  lemma {:induction false} CapturedExact(
    index: map<Resource, Mapping>, reader: Reader, requests: seq<Request>, at: int, row: Row)
    ensures var (rows, failures) := Captured(index, reader, requests, at);
            && multiset(rows)[row] == |Places(index, reader, requests, row, at)|
            && failures + AnsweredIn(reader, requests) == |requests|
  {
    if requests == [] {
      assert Places(index, reader, requests, row, at) == {};
    } else {
      hide Places, PlacesIn, SnapshotRows;
      var (front, last) := (requests[..|requests| - 1], requests[|requests| - 1]);
      assert requests == front + [last];
      CapturedExact(index, reader, front, at, row);
      PlacesGrow(index, reader, front, last, row, at);
      if reader(last).Some? { RowsAreStats(index, last.metric, reader(last).value, row, at, |front|); }
    }
  }

  /** Every read of a pass, one a metric and batch, is answered or counted as failed. */
  lemma EveryReadCounted(reader: Reader, listings: seq<Listing>, at: int)
    ensures Captured(Index(listings), reader, Asked(listings), at).1 + AnsweredIn(reader, Asked(listings))
         == 3 * |Batches(ResourceIds(listings))|
  {
    hide Captured, AnsweredIn, Requests;
    var batches := Batches(ResourceIds(listings));
    CapturedExact(Index(listings), reader, Asked(listings), at, Row(0, "", at, 0));
    RequestCount(CAPTURED_METRICS, batches);
    OffsetIs(|CAPTURED_METRICS|, |batches|);
  }
}
