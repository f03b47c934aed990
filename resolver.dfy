/** Candidate selection of `search_artist` (tracker.py:22-30): which search hits are
    kept and how each is displayed. The HTTP request and JSON decoding are replaced
    by the list of artist records the catalog returned. */
module Resolver {
  import opened Catalog

  /** A hit is kept when its name is exactly the query or its score is perfect. */
  predicate Keep(query: string, c: Candidate)
  {
    c.name == query || c.score == 100
  }

  /** `"name (disambiguation)"` when the note is present and non-empty, else the name. */
  function DisplayName(c: Candidate): string
  {
    if Truthy(c.disambiguation) then c.name + " (" + c.disambiguation.value + ")" else c.name
  }

  /** The display name starts with the name; it is longer exactly when there is a note,
      and then the note can be read back from between the parentheses. */
  lemma DisplayNameShape(c: Candidate)
    ensures |DisplayName(c)| >= |c.name| && DisplayName(c)[..|c.name|] == c.name
    ensures |DisplayName(c)| == |c.name| <==> !Truthy(c.disambiguation)
    ensures Truthy(c.disambiguation) ==>
              var d := DisplayName(c);
              d[|c.name|..|c.name| + 2] == " (" && d[|d| - 1] == ')' &&
              d[|c.name| + 2..|d| - 1] == c.disambiguation.value
  {
  }

  /** The matches `search_artist` returns for the artists `cs`, in catalog order. */
  function Matches(query: string, cs: seq<Candidate>): (r: seq<Match>)
    ensures |r| <= |cs|
  {
    if cs == [] then []
    else
      var last := cs[|cs| - 1];
      Matches(query, cs[..|cs| - 1]) + (if Keep(query, last) then [Match(last, DisplayName(last))] else [])
  }

  /** Every match is a candidate from the list that passes the filter, shown with its
      display name. */
  lemma {:induction false} MatchesSound(query: string, cs: seq<Candidate>, m: Match)
    requires m in Matches(query, cs)
    ensures m.candidate in cs && Keep(query, m.candidate) && m.dispname == DisplayName(m.candidate)
  {
    var init := cs[..|cs| - 1];
    if m in Matches(query, init) {
      MatchesSound(query, init, m);
      assert forall c :: c in init ==> c in cs;
    }
  }

  /** Filtering commutes with concatenation: kept hits keep their relative catalog order. */
  lemma {:induction false} MatchesAppend(query: string, a: seq<Candidate>, b: seq<Candidate>)
    ensures Matches(query, a + b) == Matches(query, a) + Matches(query, b)
  {
    if b == [] {
      assert a + b == a;
    } else {
      var b' := b[..|b| - 1];
      assert (a + b)[..|a + b| - 1] == a + b';
      MatchesAppend(query, a, b');
    }
  }

  /** Every candidate that passes the filter is among the matches, with its display name. */
  lemma {:induction false} MatchesComplete(query: string, cs: seq<Candidate>, c: Candidate)
    requires c in cs && Keep(query, c)
    ensures Match(c, DisplayName(c)) in Matches(query, cs)
  {
    var last := cs[|cs| - 1];
    if c != last {
      assert c in cs[..|cs| - 1] by {
        var i :| 0 <= i < |cs| && cs[i] == c;
        assert i < |cs| - 1;
        assert cs[..|cs| - 1][i] == c;
      }
      MatchesComplete(query, cs[..|cs| - 1], c);
    }
  }

  /** A candidate is kept if and only if it is in the list and passes the filter. */
  lemma MatchesIff(query: string, cs: seq<Candidate>, c: Candidate)
    ensures (exists m :: m in Matches(query, cs) && m.candidate == c) <==> c in cs && Keep(query, c)
  {
    if c in cs && Keep(query, c) {
      MatchesComplete(query, cs, c);
    }
    if exists m :: m in Matches(query, cs) && m.candidate == c {
      var m :| m in Matches(query, cs) && m.candidate == c;
      MatchesSound(query, cs, m);
    }
  }

  /** The loop of `search_artist` over the decoded artist list. */
  method SearchArtist(query: string, artists: seq<Candidate>) returns (matches: seq<Match>)
    ensures matches == Matches(query, artists)
    ensures forall m :: m in matches ==>
              m.candidate in artists && Keep(query, m.candidate) && m.dispname == DisplayName(m.candidate)
  {
    matches := [];
    for i := 0 to |artists|
      invariant matches == Matches(query, artists[..i])
    {
      var artist := artists[i];
      assert artists[..i + 1][..i] == artists[..i];
      if artist.name == query || artist.score == 100 {
        var dispname: string;
        if artist.disambiguation.Some? && artist.disambiguation.value != "" {
          dispname := artist.name + " (" + artist.disambiguation.value + ")";
        } else {
          dispname := artist.name;
        }
        matches := matches + [Match(artist, dispname)];
      }
    }
    assert artists[..|artists|] == artists;
    forall m | m in matches
      ensures m.candidate in artists && Keep(query, m.candidate) && m.dispname == DisplayName(m.candidate)
    {
      MatchesSound(query, artists, m);
    }
  }
}
