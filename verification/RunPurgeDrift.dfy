/**
 * What the three lists of a drift report hold, said without the maps, filters and sorts that compute
 * them: how often each id stands in each list, in ascending order.
 */
module RunPurgeDrift {
  import opened Prelude
  import opened Domain
  import opened Sorting
  import opened RunPurgeExecution
  import opened RunPurgeSafety

  predicate Names(listing: seq<Artifact>, id: nat) { exists k :: 0 <= k < |listing| && listing[k].id == id }

  ghost predicate LastAt(listing: seq<Artifact>, k: nat, a: Artifact)
    requires k < |listing|
  {
    listing[k] == a && forall j :: k < j < |listing| ==> listing[j].id != a.id
  }

  /** The listing shows this very artifact: of several entries with one id, the last one speaks. */
  ghost predicate ListedAs(listing: seq<Artifact>, a: Artifact) {
    exists k :: 0 <= k < |listing| && LastAt(listing, k, a)
  }

  ghost function CountWhere(artifacts: seq<Artifact>, p: Artifact -> bool): nat {
    if artifacts == [] then 0
    else CountWhere(artifacts[..|artifacts| - 1], p) + if p(artifacts[|artifacts| - 1]) then 1 else 0
  }

  ghost predicate Ascending(ids: seq<nat>) { forall i, j :: 0 <= i < j < |ids| ==> ids[i] <= ids[j] }

  /** Each list holds exactly the ids it should, as often as it should, in ascending order. */
  ghost predicate DriftSays(planned: seq<Artifact>, current: seq<Artifact>, drift: Drift) {
    && Ascending(drift.missing) && Ascending(drift.changed) && Ascending(drift.unexpected)
    && forall id: nat ::
         && multiset(drift.missing)[id] == CountWhere(planned, (a: Artifact) => a.id == id && !Names(current, id))
         && multiset(drift.changed)[id] == CountWhere(planned, (a: Artifact) =>
              a.id == id && Names(current, id) && !ListedAs(current, a))
         && multiset(drift.unexpected)[id] == CountWhere(current, (a: Artifact) => a.id == id && !Names(planned, id))
  }

  lemma {:induction false} ByIdIsLast(listing: seq<Artifact>, id: nat)
    ensures ById(listing, id).Some? <==> Names(listing, id)
    ensures forall a: Artifact :: a.id == id ==> (ById(listing, id) == Some(a) <==> ListedAs(listing, a))
  {
    if listing != [] {
      var n := |listing| - 1;
      ByIdIsLast(listing[..n], id);
      forall a: Artifact | a.id == id ensures ById(listing, id) == Some(a) <==> ListedAs(listing, a) {
        OneMoreEntry(listing, a);
      }
      OneMoreName(listing, id);
    }
  }

  lemma OneMoreName(listing: seq<Artifact>, id: nat)
    requires listing != []
    ensures Names(listing, id) <==> listing[|listing| - 1].id == id || Names(listing[..|listing| - 1], id)
  {
    var n := |listing| - 1;
    assert forall k :: 0 <= k < n ==> listing[..n][k] == listing[k];
  }

  lemma OneMoreEntry(listing: seq<Artifact>, a: Artifact)
    requires listing != []
    ensures var n := |listing| - 1;
            ListedAs(listing, a) <==> listing[n] == a || (listing[n].id != a.id && ListedAs(listing[..n], a))
  {
    var n := |listing| - 1;
    if listing[n] == a {
      assert LastAt(listing, n, a);
    }
    if ListedAs(listing[..n], a) && listing[n].id != a.id {
      var k :| 0 <= k < n && LastAt(listing[..n], k, a);
      assert forall j :: k < j < n ==> listing[j].id == listing[..n][j].id;
      assert LastAt(listing, k, a);
    }
    if ListedAs(listing, a) && listing[n] != a {
      var k :| 0 <= k < |listing| && LastAt(listing, k, a);
      assert LastAt(listing[..n], k, a);
    }
  }

  /** Drift stated without the lookup by id. */
  lemma NoDriftMeaning(planned: seq<Artifact>, current: seq<Artifact>)
    ensures NoDrift(planned, current) <==>
            && (forall a :: a in planned && Names(current, a.id) ==> ListedAs(current, a))
            && (forall c :: c in current ==> Names(planned, c.id))
  {
    hide ById, ListedAs;
    forall a | a in planned
      ensures ById(current, a.id).Some? <==> Names(current, a.id)
      ensures ById(current, a.id) == Some(a) <==> ListedAs(current, a)
    {
      ByIdIsLast(current, a.id);
    }
    forall c | c in current ensures Names(planned, c.id) <==> exists a :: a in planned && a.id == c.id {
      if Names(planned, c.id) {
        var k :| 0 <= k < |planned| && planned[k].id == c.id;
        assert planned[k] in planned;
      }
    }
  }

  lemma {:induction false} CountedIds(artifacts: seq<Artifact>, keep: Artifact -> bool, p: Artifact -> bool, id: nat)
    requires forall a :: p(a) <==> keep(a) && a.id == id
    ensures multiset(IdsOf(Filter(artifacts, keep)))[id] == CountWhere(artifacts, p)
  {
    if artifacts != [] {
      var n := |artifacts| - 1;
      CountedIds(artifacts[..n], keep, p, id);
      var before, last := Filter(artifacts[..n], keep), if keep(artifacts[n]) then [artifacts[n]] else [];
      assert IdsOf(before + last) == IdsOf(before) + IdsOf(last);
      assert IdsOf(last) == if keep(artifacts[n]) then [artifacts[n].id] else [];
    }
  }

  lemma SortedIds(ids: seq<nat>)
    ensures Ascending(Sort(ids, IdLe)) && multiset(Sort(ids, IdLe)) == multiset(ids)
  {
    SortPermutes(ids, IdLe);
    SortSorts(ids, IdLe);
    assert forall i, j :: 0 <= i < j < |ids| ==> IdLe(Sort(ids, IdLe)[i], Sort(ids, IdLe)[j]);
  }

  /** `artifact_drift` for all inputs, duplicates included. */
  lemma DriftIsExact(planned: seq<Artifact>, current: seq<Artifact>)
    ensures DriftSays(planned, current, ArtifactDrift(planned, current))
  {
    hide Sort, Filter, ById, Ascending, ListedAs, Names;
    var isMissing := (a: Artifact) => ById(current, a.id).None?;
    var isChanged := (a: Artifact) => ById(current, a.id).Some? && ById(current, a.id).value != a;
    var isUnexpected := (a: Artifact) => ById(planned, a.id).None?;
    SortedIds(IdsOf(Filter(planned, isMissing)));
    SortedIds(IdsOf(Filter(planned, isChanged)));
    SortedIds(IdsOf(Filter(current, isUnexpected)));
    var drift := ArtifactDrift(planned, current);
    forall id: nat
      ensures multiset(drift.missing)[id] == CountWhere(planned, (a: Artifact) => a.id == id && !Names(current, id))
      ensures multiset(drift.changed)[id] == CountWhere(planned, (a: Artifact) =>
                a.id == id && Names(current, id) && !ListedAs(current, a))
      ensures multiset(drift.unexpected)[id] == CountWhere(current, (a: Artifact) => a.id == id && !Names(planned, id))
    {
      ByIdIsLast(current, id);
      ByIdIsLast(planned, id);
      CountedIds(planned, isMissing, (a: Artifact) => a.id == id && !Names(current, id), id);
      CountedIds(planned, isChanged, (a: Artifact) => a.id == id && Names(current, id) && !ListedAs(current, a), id);
      CountedIds(current, isUnexpected, (a: Artifact) => a.id == id && !Names(planned, id), id);
    }
  }

  /** These counts leave no choice: two reports about the same listings are equal. */
  lemma DriftIsUnique(planned: seq<Artifact>, current: seq<Artifact>, x: Drift, y: Drift)
    requires DriftSays(planned, current, x) && DriftSays(planned, current, y)
    ensures x == y
  {
    SameIds(x.missing, y.missing);
    SameIds(x.changed, y.changed);
    SameIds(x.unexpected, y.unexpected);
  }

  lemma SameIds(xs: seq<nat>, ys: seq<nat>)
    requires Ascending(xs) && Ascending(ys) && forall id: nat :: multiset(xs)[id] == multiset(ys)[id]
    ensures xs == ys
  {
    assert multiset(xs) == multiset(ys);
    assert SortedBy(xs, IdLe) && SortedBy(ys, IdLe);
    SortedIsUnique(xs, ys, IdLe);
  }
}
