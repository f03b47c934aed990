/** Release aggregation: `get_releases_artist` (tracker.py:42-47) tags every release
    group of an artist with the artist record, and `get_releases` (tracker.py:49-58)
    concatenates the lists in the order of the identifiers and sorts them by
    first-release date, newest first, with Python's stable `sorted(..., reverse=True)`.
    The catalog is a function from artist identifier to the artist detail record. */
module Releases {
  import opened Catalog
  import opened StringOrder

  function Date(r: Release): string
  {
    r.group.firstReleaseDate
  }

  /** The release groups of `d`, each pointing back at the stripped artist record. */
  function Tagged(d: ArtistDetail): (r: seq<Release>)
    ensures |r| == |d.releaseGroups|
    ensures forall i :: 0 <= i < |r| ==> r[i] == Release(d.releaseGroups[i], d.info)
    decreases |d.releaseGroups|
  {
    if d.releaseGroups == [] then []
    else
      var n := |d.releaseGroups|;
      Tagged(ArtistDetail(d.info, d.releaseGroups[..n - 1])) + [Release(d.releaseGroups[n - 1], d.info)]
  }

  /** `get_releases_artist` after the payload is decoded: drop the `release-groups`
      field and attach what is left of the record to each release group. */
  method GetReleasesArtist(detail: ArtistDetail) returns (releases: seq<Release>)
    ensures |releases| == |detail.releaseGroups|
    ensures forall i :: 0 <= i < |releases| ==>
              releases[i].group == detail.releaseGroups[i] && releases[i].artist == detail.info
  {
    var groups := detail.releaseGroups;
    var artist := detail.info;
    releases := [];
    for i := 0 to |groups|
      invariant |releases| == i
      invariant forall j :: 0 <= j < i ==> releases[j] == Release(groups[j], artist)
    {
      releases := releases + [Release(groups[i], artist)];
    }
  }

  /** The releases of the artists `ids`, list after list in the order of `ids`. */
  function Flatten(ids: seq<string>, catalog: string -> ArtistDetail): seq<Release>
  {
    if ids == [] then []
    else Flatten(ids[..|ids| - 1], catalog) + Tagged(catalog(ids[|ids| - 1]))
  }

  /** The lists are concatenated in input order. */
  lemma {:induction false} FlattenAppend(a: seq<string>, b: seq<string>, catalog: string -> ArtistDetail)
    ensures Flatten(a + b, catalog) == Flatten(a, catalog) + Flatten(b, catalog)
  {
    if b == [] {
      assert a + b == a;
    } else {
      var b' := b[..|b| - 1];
      assert (a + b)[..|a + b| - 1] == a + b';
      FlattenAppend(a, b', catalog);
    }
  }

  /** Every release in the collection belongs to one of the requested artists and
      carries that artist's record. */
  lemma {:induction false} FlattenOwner(ids: seq<string>, catalog: string -> ArtistDetail, r: Release)
    requires r in Flatten(ids, catalog)
    ensures exists id :: id in ids && r.artist == catalog(id).info && r.group in catalog(id).releaseGroups
  {
    var init := ids[..|ids| - 1];
    var last := ids[|ids| - 1];
    if r in Flatten(init, catalog) {
      FlattenOwner(init, catalog, r);
      var id :| id in init && r.artist == catalog(id).info && r.group in catalog(id).releaseGroups;
      assert id in ids;
    } else {
      var i :| 0 <= i < |Tagged(catalog(last))| && Tagged(catalog(last))[i] == r;
      assert r.group == catalog(last).releaseGroups[i];
      assert last in ids;
    }
  }

  // ---- sorting: Python's sorted(key=date, reverse=True) ----

  /** Newest first: no release is dated strictly before a release listed after it. */
  predicate SortedByDate(rs: seq<Release>)
  {
    forall i, j :: 0 <= i < j < |rs| ==> !Below(Date(rs[i]), Date(rs[j]))
  }

  /** The releases of `rs` dated `d`, in their order in `rs`. */
  function WithDate(rs: seq<Release>, d: string): seq<Release>
  {
    if rs == [] then []
    else (if Date(rs[0]) == d then [rs[0]] else []) + WithDate(rs[1..], d)
  }

  /** Puts `x` in front of the first release that is not newer than it. */
  function Insert(x: Release, rs: seq<Release>): (r: seq<Release>)
    ensures |r| == |rs| + 1
  {
    if rs == [] || !Below(Date(x), Date(rs[0])) then [x] + rs
    else [rs[0]] + Insert(x, rs[1..])
  }

  /** A stable sort on the date, newest first. */
  function SortByDate(rs: seq<Release>): (r: seq<Release>)
    ensures |r| == |rs|
  {
    if rs == [] then [] else Insert(rs[0], SortByDate(rs[1..]))
  }

  lemma {:induction false} InsertPermutes(x: Release, rs: seq<Release>)
    ensures multiset(Insert(x, rs)) == multiset(rs) + multiset{x}
  {
    if rs != [] && Below(Date(x), Date(rs[0])) {
      InsertPermutes(x, rs[1..]);
      assert rs == [rs[0]] + rs[1..];
    }
  }

  /** A release no older than everything in a sorted list can go in front of it. */
  lemma ConsSorted(y: Release, rs: seq<Release>)
    requires SortedByDate(rs)
    requires forall j :: 0 <= j < |rs| ==> !Below(Date(y), Date(rs[j]))
    ensures SortedByDate([y] + rs)
  {
    var r := [y] + rs;
    forall i, j | 0 <= i < j < |r|
      ensures !Below(Date(r[i]), Date(r[j]))
    {
      assert r[j] == rs[j - 1];
      if i > 0 {
        assert r[i] == rs[i - 1];
      }
    }
  }

  lemma {:induction false} InsertSorted(x: Release, rs: seq<Release>)
    requires SortedByDate(rs)
    ensures SortedByDate(Insert(x, rs))
  {
    if rs == [] {
      assert Insert(x, rs) == [x];
    } else if !Below(Date(x), Date(rs[0])) {
      forall j | 0 <= j < |rs|
        ensures !Below(Date(x), Date(rs[j]))
      {
        if j > 0 {
          NotBelowTransitive(Date(x), Date(rs[0]), Date(rs[j]));
        }
      }
      ConsSorted(x, rs);
    } else {
      var tail := Insert(x, rs[1..]);
      InsertSorted(x, rs[1..]);
      InsertPermutes(x, rs[1..]);
      forall j | 0 <= j < |tail|
        ensures !Below(Date(rs[0]), Date(tail[j]))
      {
        var y := tail[j];
        assert y in multiset(tail);
        if y == x {
          BelowAsymmetric(Date(x), Date(rs[0]));
        } else {
          assert y in multiset(rs[1..]);
          var k :| 0 <= k < |rs[1..]| && rs[1..][k] == y;
          assert rs[k + 1] == y;
        }
      }
      ConsSorted(rs[0], tail);
    }
  }

  lemma WithDateCons(y: Release, rs: seq<Release>, d: string)
    ensures WithDate([y] + rs, d) == (if Date(y) == d then [y] else []) + WithDate(rs, d)
  {
    assert ([y] + rs)[0] == y && ([y] + rs)[1..] == rs;
  }

  /** Inserting `x` puts it ahead of every release with the same date. */
  lemma {:induction false} InsertWithDate(x: Release, rs: seq<Release>, d: string)
    ensures WithDate(Insert(x, rs), d) == (if Date(x) == d then [x] else []) + WithDate(rs, d)
  {
    if rs == [] || !Below(Date(x), Date(rs[0])) {
      WithDateCons(x, rs, d);
    } else {
      var tail := Insert(x, rs[1..]);
      assert Insert(x, rs) == [rs[0]] + tail;
      InsertWithDate(x, rs[1..], d);
      WithDateCons(rs[0], tail, d);
      WithDateCons(rs[0], rs[1..], d);
      assert [rs[0]] + rs[1..] == rs;
      if Date(x) == d {
        BelowIrreflexive(d);
      }
    }
  }

  /** The result is a permutation of the input. */
  lemma {:induction false} SortPermutes(rs: seq<Release>)
    ensures multiset(SortByDate(rs)) == multiset(rs)
  {
    if rs != [] {
      SortPermutes(rs[1..]);
      InsertPermutes(rs[0], SortByDate(rs[1..]));
      assert rs == [rs[0]] + rs[1..];
    }
  }

  /** The result is ordered newest first. */
  lemma {:induction false} SortSorted(rs: seq<Release>)
    ensures SortedByDate(SortByDate(rs))
  {
    if rs != [] {
      SortSorted(rs[1..]);
      InsertSorted(rs[0], SortByDate(rs[1..]));
    }
  }

  /** The sort is stable: releases sharing a date keep their input order. */
  lemma {:induction false} SortStable(rs: seq<Release>, d: string)
    ensures WithDate(SortByDate(rs), d) == WithDate(rs, d)
  {
    if rs != [] {
      SortStable(rs[1..], d);
      InsertWithDate(rs[0], SortByDate(rs[1..]), d);
    }
  }

  /** `get_releases`: fetch each artist's releases in the order of `artistIds`,
      append them, and sort the whole collection newest first. */
  method GetReleases(artistIds: seq<string>, catalog: string -> ArtistDetail) returns (releases: seq<Release>)
    ensures releases == SortByDate(Flatten(artistIds, catalog))
    ensures SortedByDate(releases)
    ensures multiset(releases) == multiset(Flatten(artistIds, catalog))
    ensures forall d :: WithDate(releases, d) == WithDate(Flatten(artistIds, catalog), d)
  {
    var allReleases := [];
    for i := 0 to |artistIds|
      invariant allReleases == Flatten(artistIds[..i], catalog)
    {
      var rs := GetReleasesArtist(catalog(artistIds[i]));
      assert rs == Tagged(catalog(artistIds[i]));
      assert artistIds[..i + 1][..i] == artistIds[..i];
      allReleases := allReleases + rs;
    }
    assert artistIds[..|artistIds|] == artistIds;
    releases := SortByDate(allReleases);
    SortSorted(allReleases);
    SortPermutes(allReleases);
    forall d
      ensures WithDate(releases, d) == WithDate(allReleases, d)
    {
      SortStable(allReleases, d);
    }
  }
}
