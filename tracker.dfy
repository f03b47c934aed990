/** The decisions `main` takes (tracker.py:104-135): how the working set is seeded,
    when lookup runs, when the cache file is rewritten, that a failed lookup stops the
    run before anything is fetched, and what is listed otherwise. Command-line parsing
    and file I/O are replaced by parameters and results: `artists` and `ids` are the
    `--artists` and `--ids` lists (empty when the option is absent), `jsonPath` the
    `--json` value, `cacheFile` what that file holds (None when it does not exist),
    `written` what is written back to it, `searched` the names looked up in the
    catalog, `fetched` the identifiers whose releases are fetched. */
module Tracker {
  import opened Catalog
  import opened Resolver
  import opened WorkingSets
  import opened Releases
  import opened Presenter

  /** How a run ends. */
  datatype Outcome =
    | LookupFailed                 // "Couldn't look up all artists, exiting."
    | IdsAttributeError            // line 132 reads `args.artist_ids`, which the parser never defines
    | Listed(lines: seq<string>)   // the release listing printed

  /** `if args.json:`: the option is used only when it holds a non-empty path. */
  predicate PathGiven(jsonPath: Option<string>)
  {
    jsonPath.Some? && jsonPath.value != ""
  }

  /** `{k: None for k in artists}` as a list of pairs. */
  function Unset(names: seq<string>): seq<(string, Option<string>)>
  {
    seq(|names|, i requires 0 <= i < |names| => (names[i], None))
  }

  /** Whether the cache file's mapping is merged in. */
  predicate CacheLoaded(jsonPath: Option<string>, cacheFile: Option<seq<(string, Option<string>)>>)
  {
    PathGiven(jsonPath) && cacheFile.Some?
  }

  /** The working set before lookup: the `--artists` names, unresolved, updated with
      the cache file's mapping when a path is given and the file exists. */
  function Seed(artists: seq<string>, jsonPath: Option<string>, cacheFile: Option<seq<(string, Option<string>)>>)
    : (d: Dict)
    ensures d.Valid()
  {
    var fromArgs := PutAll(Empty, Unset(artists));
    if CacheLoaded(jsonPath, cacheFile) then PutAll(fromArgs, cacheFile.value) else fromArgs
  }

  lemma UnsetEntries(names: seq<string>, k: string)
    ensures k in Names(Unset(names)) <==> k in names
    ensures k in names ==> LastFor(Unset(names), k) == None
  {
    var ps := Unset(names);
    if k in names {
      var i :| 0 <= i < |names| && names[i] == k;
      assert ps[i] in ps;
      UnsetLastFor(names, k);
    }
    if k in Names(ps) {
      var p :| p in ps && p.0 == k;
      var i :| 0 <= i < |ps| && ps[i] == p;
      assert names[i] == k;
    }
  }

  lemma {:induction false} UnsetLastFor(names: seq<string>, k: string)
    requires k in Names(Unset(names))
    ensures LastFor(Unset(names), k) == None
  {
    var ps := Unset(names);
    if ps[|ps| - 1].0 != k {
      assert ps[..|ps| - 1] == Unset(names[..|names| - 1]);
      UnsetLastFor(names[..|names| - 1], k);
    }
  }

  /** Names from `--artists` start unresolved and the cache file's entries override
      them: a name is in the working set iff it was given on the command line or is in
      the loaded cache, and it holds the cache's value when the cache has one. */
  lemma SeedEntries(artists: seq<string>, jsonPath: Option<string>,
                    cacheFile: Option<seq<(string, Option<string>)>>, k: string)
    ensures var d := Seed(artists, jsonPath, cacheFile);
            var cached := CacheLoaded(jsonPath, cacheFile) && k in Names(cacheFile.value);
            && (k in d.vals <==> k in artists || cached)
            && (cached ==> d.vals[k] == LastFor(cacheFile.value, k))
            && (k in artists && !cached ==> d.vals[k] == None)
  {
    UnsetEntries(artists, k);
    var fromArgs := PutAll(Empty, Unset(artists));
    PutAllValue(Empty, Unset(artists), k);
    if CacheLoaded(jsonPath, cacheFile) {
      PutAllValue(fromArgs, cacheFile.value, k);
    }
  }

  /** The order of the working set before lookup: the `--artists` names, each at its
      first occurrence, then the cache file's names that are not among them, in file
      order. This is the order of the identifiers fetched and of the cache written. */
  lemma SeedOrder(artists: seq<string>, jsonPath: Option<string>, cacheFile: Option<seq<(string, Option<string>)>>)
    ensures var fromArgs := NewKeys([], Unset(artists));
            Seed(artists, jsonPath, cacheFile).order ==
              fromArgs + (if CacheLoaded(jsonPath, cacheFile) then NewKeys(fromArgs, cacheFile.value) else [])
  {
    var fromArgs := PutAll(Empty, Unset(artists));
    PutAllOrder(Empty, Unset(artists));
    assert fromArgs.order == NewKeys([], Unset(artists));
    if CacheLoaded(jsonPath, cacheFile) {
      PutAllOrder(fromArgs, cacheFile.value);
      assert Seed(artists, jsonPath, cacheFile) == PutAll(fromArgs, cacheFile.value);
    } else {
      assert Seed(artists, jsonPath, cacheFile) == fromArgs;
    }
  }

  /** `list(d.values())` once every value is an identifier: one identifier per entry,
      every entry's identifier is there, and nothing else is. */
  function IdList(d: Dict): (ids: seq<string>)
    requires d.Valid() && forall k :: k in d.vals ==> d.vals[k].Some?
    ensures |ids| == |d.order|
    ensures forall k :: k in d.vals ==> d.vals[k].value in ids
    ensures forall id :: id in ids ==> exists k :: k in d.vals && d.vals[k] == Some(id)
  {
    var ids := seq(|d.order|, i requires 0 <= i < |d.order| => d.vals[d.order[i]].value);
    assert forall k :: k in d.vals ==> d.vals[k].value in ids by {
      forall k | k in d.vals
        ensures d.vals[k].value in ids
      {
        var i :| 0 <= i < |d.order| && d.order[i] == k;
        assert ids[i] == d.vals[k].value;
      }
    }
    assert forall id :: id in ids ==> exists k :: k in d.vals && d.vals[k] == Some(id) by {
      forall id | id in ids
        ensures exists k :: k in d.vals && d.vals[k] == Some(id)
      {
        var i :| 0 <= i < |ids| && ids[i] == id;
        assert d.order[i] in d.vals && d.vals[d.order[i]] == Some(id);
      }
    }
    ids
  }

  /** The lines printed for the releases of `ids`. */
  function Listing(ids: seq<string>, catalog: string -> ArtistDetail): seq<string>
  {
    var rs := SortByDate(Flatten(ids, catalog));
    seq(|rs|, i requires 0 <= i < |rs| => FormatLine(rs[i]))
  }

  /** Lines formatted one per release of the sorted collection are the listing. */
  lemma ListingLines(ids: seq<string>, catalog: string -> ArtistDetail, releases: seq<Release>, lines: seq<string>)
    requires releases == SortByDate(Flatten(ids, catalog))
    requires |lines| == |releases| && forall i :: 0 <= i < |releases| ==> lines[i] == FormatLine(releases[i])
    ensures lines == Listing(ids, catalog)
  {
  }

  /** One run of `main` after argument parsing. */
  method Run(artists: seq<string>, ids: seq<string>, jsonPath: Option<string>,
             cacheFile: Option<seq<(string, Option<string>)>>,
             search: string -> seq<Candidate>, catalog: string -> ArtistDetail)
    returns (written: Option<seq<(string, Option<string>)>>, searched: seq<string>,
             fetched: seq<string>, outcome: Outcome)
    ensures var d0 := Seed(artists, jsonPath, cacheFile);
            searched == Pending(d0.order, d0.vals)
    // the file is rewritten only when the working set is non-empty, lookup changed it
    // and a path was given; it then holds the whole working set in order
    ensures var d0 := Seed(artists, jsonPath, cacheFile);
            written.Some? <==> |d0.order| > 0 && AnyFound(d0, search) && PathGiven(jsonPath)
    ensures var d0 := Seed(artists, jsonPath, cacheFile);
            written.Some? ==> written.value == Items(Resolved(d0, search))
    // a failed lookup ends the run before anything is fetched
    ensures var d0 := Seed(artists, jsonPath, cacheFile);
            outcome.LookupFailed? <==> |d0.order| > 0 && AnyAmbiguous(d0, search)
    ensures outcome.IdsAttributeError? <==> !outcome.LookupFailed? && |ids| > 0
    ensures !outcome.Listed? ==> fetched == []
    // otherwise every name is resolved and its releases are listed, newest first
    ensures var d1 := Resolved(Seed(artists, jsonPath, cacheFile), search);
            outcome.Listed? ==>
              && (forall k :: k in d1.vals ==> d1.vals[k].Some?)
              && fetched == IdList(d1)
              && outcome.lines == Listing(fetched, catalog)
  {
    ghost var d0 := Seed(artists, jsonPath, cacheFile);
    var kvs := new WorkingSet();
    var rewrite, fail := false, false;
    kvs.UpdateAll(Unset(artists));
    if CacheLoaded(jsonPath, cacheFile) {
      kvs.UpdateAll(cacheFile.value);
    }
    assert kvs.Snapshot() == d0;

    searched := [];
    if |kvs.order| > 0 {
      rewrite, fail, searched := kvs.Lookup(search);
    } else {
      assert kvs.Snapshot() == Resolved(d0, search);
      assert d0.order == [];
    }

    written := None;
    if |kvs.order| > 0 && rewrite && PathGiven(jsonPath) {
      written := Some(Items(kvs.Snapshot()));
    }

    fetched := [];
    if fail {
      outcome := LookupFailed;
      return;
    }
    ResolvedSettles(d0, search);
    var artistIds := IdList(kvs.Snapshot());
    if |ids| > 0 {
      outcome := IdsAttributeError;
      return;
    }
    fetched := artistIds;
    var releases := GetReleases(artistIds, catalog);
    var lines := PrintReleases(releases);
    ListingLines(artistIds, catalog, releases, lines);
    outcome := Listed(lines);
  }

  /** The working set of the example below before lookup: "Artist B" from the command
      line first, then "Artist A" from the cache file. */
  lemma SeedTwoArtists(path: string)
    requires path != ""
    ensures Seed(["Artist B"], Some(path), Some([("Artist A", Some("id-123"))])) ==
            Dict(["Artist B", "Artist A"], map["Artist B" := None, "Artist A" := Some("id-123")])
  {
    var fromArgs := Dict(["Artist B"], map["Artist B" := None]);
    var unset: seq<(string, Option<string>)> := [("Artist B", None)];
    assert Unset(["Artist B"]) == unset;
    assert PutAll(Empty, unset) == fromArgs by {
      assert unset[..0] == [];
    }
    assert PutAll(fromArgs, [("Artist A", Some("id-123"))]) == Put(fromArgs, "Artist A", Some("id-123")) by {
      assert [("Artist A", Some("id-123"))][..0] == [];
    }
    assert "Artist A" !in fromArgs.vals;
  }

  /** Lookup on the example's working set: "Artist B" has exactly one hit and is
      resolved, "Artist A" already holds an identifier and is left alone. */
  lemma ResolveTwoArtists(search: string -> seq<Candidate>)
    requires search("Artist B") == [Candidate("Artist B", "id-456", 100, None)]
    ensures var d0 := Dict(["Artist B", "Artist A"], map["Artist B" := None, "Artist A" := Some("id-123")]);
            && AnyFound(d0, search) && !AnyAmbiguous(d0, search)
            && Resolved(d0, search) ==
               Dict(["Artist B", "Artist A"], map["Artist B" := Some("id-456"), "Artist A" := Some("id-123")])
  {
    var d0 := Dict(["Artist B", "Artist A"], map["Artist B" := None, "Artist A" := Some("id-123")]);
    var c := Candidate("Artist B", "id-456", 100, None);
    assert [c][..0] == [];
    assert Matches("Artist B", [c]) == [Match(c, "Artist B")];
    assert Found("Artist B", d0.vals["Artist B"], search);
    assert !Ambiguous("Artist A", d0.vals["Artist A"], search);
  }

  /** The example's working set after lookup, as written to the cache file and as
      the list of identifiers. */
  lemma ListTwoArtists()
    ensures var d1 := Dict(["Artist B", "Artist A"], map["Artist B" := Some("id-456"), "Artist A" := Some("id-123")]);
            && Items(d1) == [("Artist B", Some("id-456")), ("Artist A", Some("id-123"))]
            && IdList(d1) == ["id-456", "id-123"]
  {
    var d1 := Dict(["Artist B", "Artist A"], map["Artist B" := Some("id-456"), "Artist A" := Some("id-123")]);
    assert Items(d1)[0] == ("Artist B", Some("id-456"));
    assert IdList(d1)[0] == "id-456";
  }

  /** The end-to-end example: the cache holds "Artist A" -> "id-123", "Artist B" is
      given on the command line and the catalog has exactly one hit for it. Lookup
      resolves "Artist B" and reports no failure; the cache file then holds both
      entries, "Artist B" first because the command-line names are inserted first,
      and both identifiers are passed on in that order. */
  lemma TwoArtistExample(search: string -> seq<Candidate>, path: string)
    requires path != ""
    requires search("Artist B") == [Candidate("Artist B", "id-456", 100, None)]
    ensures var d0 := Seed(["Artist B"], Some(path), Some([("Artist A", Some("id-123"))]));
            && AnyFound(d0, search) && !AnyAmbiguous(d0, search)
            && Items(Resolved(d0, search)) == [("Artist B", Some("id-456")), ("Artist A", Some("id-123"))]
            && IdList(Resolved(d0, search)) == ["id-456", "id-123"]
  {
    SeedTwoArtists(path);
    ResolveTwoArtists(search);
    ListTwoArtists();
  }
}
