/** The train table (the catalog) and the route search over it. */
module TrainTable {
  import opened Records
  import opened Sets

  /** Every train is stored under its own identifier. */
  ghost predicate Keyed(trains: map<int, Train>) {
    forall k :: k in trains ==> trains[k].trainId == k
  }

  /** The route test of the search: both end points equal. */
  predicate OnRoute(t: Train, source: string, destination: string) {
    t.source == source && t.destination == destination
  }

  /** `m` is the least element of `s`. */
  predicate IsLeast(m: int, s: set<int>) {
    m in s && forall x :: x in s ==> m <= x
  }

  /** A non-empty finite set of integers has a least element. */
  lemma {:induction false} MinExists(s: set<int>)
    requires s != {}
    ensures exists m :: IsLeast(m, s)
  {
    HasElement(s);
    var y :| y in s;
    var rest := s - {y};
    if s == {y} {
      assert IsLeast(y, s);
    } else {
      MinExists(rest);
      var m :| IsLeast(m, rest);
      assert forall x :: x in s ==> x == y || x in rest;
      if y < m {
        assert IsLeast(y, s);
      } else {
        assert IsLeast(m, s);
      }
    }
  }

  function Min(s: set<int>): (m: int)
    requires s != {}
    ensures m in s && forall x :: x in s ==> m <= x
  {
    MinExists(s);
    var m :| IsLeast(m, s);
    m
  }

  /** The elements of `s`, each once, in strictly ascending order. */
  function Ascending(s: set<int>): (r: seq<int>)
    ensures forall i, j :: 0 <= i < j < |r| ==> r[i] < r[j]
    ensures forall i :: 0 <= i < |r| ==> r[i] in s
    ensures forall k :: k in s ==> k in r
    decreases s
  {
    if s == {} then []
    else
      var m := Min(s);
      [m] + Ascending(s - {m})
  }

  /** The trains running from `source` to `destination`, in ascending order
      of train identifier; an unknown route gives the empty sequence. */
  function Search(trains: map<int, Train>, source: string, destination: string): (r: seq<Train>)
    requires Keyed(trains)
    ensures forall i :: 0 <= i < |r| ==>
              r[i].trainId in trains && trains[r[i].trainId] == r[i] && OnRoute(r[i], source, destination)
    ensures forall k :: k in trains && OnRoute(trains[k], source, destination) ==> trains[k] in r
    ensures forall i, j :: 0 <= i < j < |r| ==> r[i].trainId < r[j].trainId
  {
    var ids := Ascending(RouteIds(trains, source, destination));
    RouteIdsInTable(trains, source, destination, ids);
    var r := TrainsAt(trains, ids);
    SearchFindsEveryRouteTrain(trains, source, destination, ids, r);
    r
  }

  lemma SearchFindsEveryRouteTrain(trains: map<int, Train>, source: string, destination: string,
                                   ids: seq<int>, r: seq<Train>)
    requires forall k :: k in RouteIds(trains, source, destination) ==> k in ids
    requires forall i :: 0 <= i < |ids| ==> ids[i] in trains
    requires |r| == |ids| && forall i :: 0 <= i < |r| ==> r[i] == trains[ids[i]]
    ensures forall k :: k in trains && OnRoute(trains[k], source, destination) ==> trains[k] in r
  {
    forall k | k in trains && OnRoute(trains[k], source, destination)
      ensures trains[k] in r
    {
      assert k in RouteIds(trains, source, destination);
      var i :| 0 <= i < |ids| && ids[i] == k;
      assert r[i] == trains[k];
    }
  }

  lemma RouteIdsInTable(trains: map<int, Train>, source: string, destination: string, ids: seq<int>)
    requires forall i :: 0 <= i < |ids| ==> ids[i] in RouteIds(trains, source, destination)
    ensures forall i :: 0 <= i < |ids| ==> ids[i] in trains && OnRoute(trains[ids[i]], source, destination)
  {
  }

  /** The identifiers of the trains running from `source` to `destination`. */
  function RouteIds(trains: map<int, Train>, source: string, destination: string): (r: set<int>) {
    set k | k in trains && OnRoute(trains[k], source, destination)
  }

  /** The trains stored under `ids`, in that order. */
  function TrainsAt(trains: map<int, Train>, ids: seq<int>): (r: seq<Train>)
    requires forall i :: 0 <= i < |ids| ==> ids[i] in trains
    ensures |r| == |ids| && forall i :: 0 <= i < |r| ==> r[i] == trains[ids[i]]
  {
    if ids == [] then [] else [trains[ids[0]]] + TrainsAt(trains, ids[1..])
  }
}
