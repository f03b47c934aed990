/** The name -> identifier working set of tracker.py: a Python dict that keeps
    insertion order, filled from the command line and the cache file and completed
    in place by `lookup` (tracker.py:68-88). */
module WorkingSets {
  import opened Catalog
  import opened Resolver

  /** A Python dict from artist name to identifier (None stands for JSON null):
      `order` is the key order the dict iterates in. */
  datatype Dict = Dict(order: seq<string>, vals: map<string, Option<string>>)
  {
    /** Keys are listed once each, and exactly the keys of `vals` are listed. */
    ghost predicate Valid()
    {
      (forall i, j :: 0 <= i < j < |order| ==> order[i] != order[j]) &&
      (forall k :: k in vals <==> k in order)
    }
  }

  const Empty: Dict := Dict([], map[])

  /** `d[k] = v` (and `d.update({k: v})`): a new key goes last, an existing key keeps
      its position and only its value changes. */
  function Put(d: Dict, k: string, v: Option<string>): (r: Dict)
    requires d.Valid()
    ensures r.Valid()
    ensures r.vals == d.vals[k := v]
    ensures k in d.vals ==> r.order == d.order
    ensures k !in d.vals ==> r.order == d.order + [k]
  {
    if k in d.vals then Dict(d.order, d.vals[k := v]) else Dict(d.order + [k], d.vals[k := v])
  }

  /** The names of a list of key/value pairs. */
  function Names(ps: seq<(string, Option<string>)>): set<string>
  {
    set p | p in ps :: p.0
  }

  /** The value the last pair named `k` carries. */
  function LastFor(ps: seq<(string, Option<string>)>, k: string): Option<string>
    requires k in Names(ps)
  {
    var last := ps[|ps| - 1];
    if last.0 == k then last.1
    else
      assert k in Names(ps[..|ps| - 1]) by {
        var p :| p in ps && p.0 == k;
        var i :| 0 <= i < |ps| && ps[i] == p;
        assert ps[..|ps| - 1][i] == p;
      }
      LastFor(ps[..|ps| - 1], k)
  }

  /** `d.update(ps)` for pairs applied one after the other. */
  function PutAll(d: Dict, ps: seq<(string, Option<string>)>): (r: Dict)
    requires d.Valid()
    ensures r.Valid()
  {
    if ps == [] then d
    else
      var last := ps[|ps| - 1];
      Put(PutAll(d, ps[..|ps| - 1]), last.0, last.1)
  }

  /** After an update the later pairs win: a key named in `ps` holds its last value
      there, any other key keeps the value it had, and no other key appears. */
  lemma {:induction false} PutAllValue(d: Dict, ps: seq<(string, Option<string>)>, k: string)
    requires d.Valid()
    ensures k in PutAll(d, ps).vals <==> k in d.vals || k in Names(ps)
    ensures k in Names(ps) ==> PutAll(d, ps).vals[k] == LastFor(ps, k)
    ensures k !in Names(ps) && k in d.vals ==> PutAll(d, ps).vals[k] == d.vals[k]
  {
    if ps != [] {
      var init := ps[..|ps| - 1];
      assert ps == init + [ps[|ps| - 1]];
      assert Names(ps) == Names(init) + {ps[|ps| - 1].0};
      PutAllValue(d, init, k);
    }
  }

  /** An update never moves a key that was already there. */
  lemma {:induction false} PutAllKeepsOrder(d: Dict, ps: seq<(string, Option<string>)>)
    requires d.Valid()
    ensures |PutAll(d, ps).order| >= |d.order| && PutAll(d, ps).order[..|d.order|] == d.order
  {
    if ps != [] {
      PutAllKeepsOrder(d, ps[..|ps| - 1]);
    }
  }

  /** The keys of `ps` that are not in `order`, each once, in the order of their
      first occurrence in `ps`. */
  function NewKeys(order: seq<string>, ps: seq<(string, Option<string>)>): (r: seq<string>)
    ensures forall k :: k in r <==> k !in order && k in Names(ps)
    ensures forall i, j :: 0 <= i < j < |r| ==> r[i] != r[j]
  {
    if ps == [] then []
    else
      var init := ps[..|ps| - 1];
      var last := ps[|ps| - 1];
      var r := NewKeys(order, init);
      assert Names(ps) == Names(init) + {last.0} by {
        assert ps == init + [last];
      }
      if last.0 in order || last.0 in r then r else r + [last.0]
  }

  /** `update` appends the keys new to the dict in the order they first appear in the
      pairs, after every key already there. */
  lemma {:induction false} PutAllOrder(d: Dict, ps: seq<(string, Option<string>)>)
    requires d.Valid()
    ensures PutAll(d, ps).order == d.order + NewKeys(d.order, ps)
  {
    if ps != [] {
      PutAllOrder(d, ps[..|ps| - 1]);
    }
  }

  /** `list(d.items())`. */
  function Items(d: Dict): (r: seq<(string, Option<string>)>)
    requires d.Valid()
    ensures |r| == |d.order|
  {
    seq(|d.order|, i requires 0 <= i < |d.order| => (d.order[i], d.vals[d.order[i]]))
  }

  /** Replaying the items of a dict into an empty dict gives it back: what is written
      to the cache file reads back as the same working set, in the same order. */
  lemma ItemsRoundTrip(d: Dict)
    requires d.Valid()
    ensures PutAll(Empty, Items(d)) == d
  {
    PairsRoundTrip(d.order, d.vals);
    assert Items(d) == Pairs(d.order, d.vals);
  }

  function Pairs(ks: seq<string>, m: map<string, Option<string>>): (r: seq<(string, Option<string>)>)
    requires forall k :: k in ks ==> k in m
    ensures |r| == |ks|
  {
    seq(|ks|, i requires 0 <= i < |ks| => (ks[i], m[ks[i]]))
  }

  lemma {:induction false} PairsRoundTrip(ks: seq<string>, m: map<string, Option<string>>)
    requires forall i, j :: 0 <= i < j < |ks| ==> ks[i] != ks[j]
    requires forall k :: k in ks ==> k in m
    ensures PutAll(Empty, Pairs(ks, m)).order == ks
    ensures forall k :: k in PutAll(Empty, Pairs(ks, m)).vals <==> k in ks
    ensures forall k :: k in ks ==> PutAll(Empty, Pairs(ks, m)).vals[k] == m[k]
  {
    if ks != [] {
      var init := ks[..|ks| - 1];
      var last := ks[|ks| - 1];
      PairsRoundTrip(init, m);
      PairsSnoc(ks, m);
      LastIsNew(ks);
      assert init + [last] == ks;
    }
  }

  /** In a list of distinct keys the last key does not occur before. */
  lemma LastIsNew(ks: seq<string>)
    requires ks != [] && forall i, j :: 0 <= i < j < |ks| ==> ks[i] != ks[j]
    ensures ks[|ks| - 1] !in ks[..|ks| - 1]
  {
    var init := ks[..|ks| - 1];
    forall i | 0 <= i < |init|
      ensures init[i] != ks[|ks| - 1]
    {
    }
  }

  lemma PairsSnoc(ks: seq<string>, m: map<string, Option<string>>)
    requires ks != [] && forall k :: k in ks ==> k in m
    ensures PutAll(Empty, Pairs(ks, m)) ==
              Put(PutAll(Empty, Pairs(ks[..|ks| - 1], m)), ks[|ks| - 1], m[ks[|ks| - 1]])
  {
    var ps := Pairs(ks, m);
    assert ps[..|ps| - 1] == Pairs(ks[..|ks| - 1], m);
  }

  // ---- lookup (tracker.py:68-88) ----

  /** An entry `lookup` searches for: its identifier is not truthy. */
  predicate NeedsLookup(v: Option<string>)
  {
    !Truthy(v)
  }

  /** An unresolved entry whose search gives exactly one match. */
  predicate Found(k: string, v: Option<string>, search: string -> seq<Candidate>)
  {
    NeedsLookup(v) && |Matches(k, search(k))| == 1
  }

  /** An unresolved entry whose search gives no match or several. */
  predicate Ambiguous(k: string, v: Option<string>, search: string -> seq<Candidate>)
  {
    NeedsLookup(v) && |Matches(k, search(k))| != 1
  }

  /** The value of entry `k` after `lookup`. */
  function Resolve(k: string, v: Option<string>, search: string -> seq<Candidate>): Option<string>
  {
    if Found(k, v, search) then Some(Matches(k, search(k))[0].candidate.id) else v
  }

  /** The working set after `lookup`. */
  function Resolved(d: Dict, search: string -> seq<Candidate>): (r: Dict)
    ensures r.order == d.order && r.vals.Keys == d.vals.Keys
    ensures d.Valid() ==> r.Valid()
    ensures forall k :: k in d.vals && Truthy(d.vals[k]) ==> r.vals[k] == d.vals[k]
    ensures forall k :: k in d.vals && Ambiguous(k, d.vals[k], search) ==> r.vals[k] == d.vals[k]
    ensures forall k :: k in d.vals && Found(k, d.vals[k], search) ==>
              |Matches(k, search(k))| == 1 && r.vals[k] == Some(Matches(k, search(k))[0].candidate.id)
  {
    Dict(d.order, map k | k in d.vals :: Resolve(k, d.vals[k], search))
  }

  /** `changed`: some entry was resolved by this lookup. */
  predicate AnyFound(d: Dict, search: string -> seq<Candidate>)
  {
    exists k :: k in d.vals && Found(k, d.vals[k], search)
  }

  /** `failure`: some unresolved entry did not have exactly one match. */
  predicate AnyAmbiguous(d: Dict, search: string -> seq<Candidate>)
  {
    exists k :: k in d.vals && Ambiguous(k, d.vals[k], search)
  }

  // The state of `lookup` after visiting the keys `ks`, one key at a time.

  /** The values after visiting `ks`. */
  function ResolvedUpTo(ks: seq<string>, vals: map<string, Option<string>>, search: string -> seq<Candidate>)
    : (r: map<string, Option<string>>)
    requires forall k :: k in ks ==> k in vals
    ensures r.Keys == vals.Keys
  {
    if ks == [] then vals
    else
      var last := ks[|ks| - 1];
      ResolvedUpTo(ks[..|ks| - 1], vals, search)[last := Resolve(last, vals[last], search)]
  }

  /** `changed` after visiting `ks`. */
  predicate FoundUpTo(ks: seq<string>, vals: map<string, Option<string>>, search: string -> seq<Candidate>)
    requires forall k :: k in ks ==> k in vals
  {
    ks != [] && (FoundUpTo(ks[..|ks| - 1], vals, search) || Found(ks[|ks| - 1], vals[ks[|ks| - 1]], search))
  }

  /** `failure` after visiting `ks`. */
  predicate AmbiguousUpTo(ks: seq<string>, vals: map<string, Option<string>>, search: string -> seq<Candidate>)
    requires forall k :: k in ks ==> k in vals
  {
    ks != [] && (AmbiguousUpTo(ks[..|ks| - 1], vals, search) || Ambiguous(ks[|ks| - 1], vals[ks[|ks| - 1]], search))
  }

  /** The names searched for after visiting `ks`, in order. */
  function Pending(ks: seq<string>, vals: map<string, Option<string>>): (r: seq<string>)
    requires forall k :: k in ks ==> k in vals
    ensures |r| <= |ks|
  {
    if ks == [] then []
    else
      var last := ks[|ks| - 1];
      Pending(ks[..|ks| - 1], vals) + (if NeedsLookup(vals[last]) then [last] else [])
  }

  /** After visiting `ks`, a visited key holds its resolved value, any other key its
      original one. */
  lemma {:induction false} ResolvedUpToAt(ks: seq<string>, vals: map<string, Option<string>>,
                                          search: string -> seq<Candidate>, k: string)
    requires forall k :: k in ks ==> k in vals
    requires k in vals
    ensures ResolvedUpTo(ks, vals, search)[k] == if k in ks then Resolve(k, vals[k], search) else vals[k]
  {
    if ks != [] {
      var init := ks[..|ks| - 1];
      assert ks == init + [ks[|ks| - 1]];
      ResolvedUpToAt(init, vals, search, k);
    }
  }

  lemma {:induction false} FoundUpToIff(ks: seq<string>, vals: map<string, Option<string>>, search: string -> seq<Candidate>)
    requires forall k :: k in ks ==> k in vals
    ensures FoundUpTo(ks, vals, search) <==> exists k :: k in ks && Found(k, vals[k], search)
  {
    if ks != [] {
      var init := ks[..|ks| - 1];
      assert ks == init + [ks[|ks| - 1]];
      FoundUpToIff(init, vals, search);
    }
  }

  lemma {:induction false} AmbiguousUpToIff(ks: seq<string>, vals: map<string, Option<string>>, search: string -> seq<Candidate>)
    requires forall k :: k in ks ==> k in vals
    ensures AmbiguousUpTo(ks, vals, search) <==> exists k :: k in ks && Ambiguous(k, vals[k], search)
  {
    if ks != [] {
      var init := ks[..|ks| - 1];
      assert ks == init + [ks[|ks| - 1]];
      AmbiguousUpToIff(init, vals, search);
    }
  }

  /** Visiting every key of a dict in order is `Resolved`, and the two flags are
      `AnyFound` and `AnyAmbiguous`. */
  lemma LookupComplete(d: Dict, search: string -> seq<Candidate>)
    requires d.Valid()
    ensures ResolvedUpTo(d.order, d.vals, search) == Resolved(d, search).vals
    ensures FoundUpTo(d.order, d.vals, search) == AnyFound(d, search)
    ensures AmbiguousUpTo(d.order, d.vals, search) == AnyAmbiguous(d, search)
  {
    ResolvedUpToAll(d, search);
    FoundUpToIff(d.order, d.vals, search);
    AmbiguousUpToIff(d.order, d.vals, search);
  }

  lemma ResolvedUpToAll(d: Dict, search: string -> seq<Candidate>)
    requires d.Valid()
    ensures ResolvedUpTo(d.order, d.vals, search) == Resolved(d, search).vals
  {
    forall k | k in d.vals
      ensures ResolvedUpTo(d.order, d.vals, search)[k] == Resolved(d, search).vals[k]
    {
      ResolvedUpToAt(d.order, d.vals, search, k);
    }
  }


  /** The catalog is asked about a name exactly when its entry is not resolved:
      an entry with a truthy identifier is never searched for. */
  lemma {:induction false} PendingIff(ks: seq<string>, vals: map<string, Option<string>>, k: string)
    requires forall k :: k in ks ==> k in vals
    ensures k in Pending(ks, vals) <==> k in ks && NeedsLookup(vals[k])
  {
    if ks != [] {
      var init := ks[..|ks| - 1];
      assert ks == init + [ks[|ks| - 1]];
      PendingIff(init, vals, k);
    }
  }

  /** Without a failure every entry ends up holding an identifier (no None is left). */
  lemma ResolvedSettles(d: Dict, search: string -> seq<Candidate>)
    requires !AnyAmbiguous(d, search)
    ensures forall k :: k in Resolved(d, search).vals ==> Resolved(d, search).vals[k].Some?
  {
    forall k | k in Resolved(d, search).vals
      ensures Resolved(d, search).vals[k].Some?
    {
      assert !Ambiguous(k, d.vals[k], search);
    }
  }

  /** A second lookup against the same catalog resolves nothing new, reports the same
      failure and leaves the working set as it is, provided the catalog's identifiers
      are non-empty strings. */
  lemma LookupIdempotent(d: Dict, search: string -> seq<Candidate>)
    requires forall k :: k in d.vals && Found(k, d.vals[k], search) ==>
               Matches(k, search(k))[0].candidate.id != ""
    ensures !AnyFound(Resolved(d, search), search)
    ensures AnyAmbiguous(Resolved(d, search), search) == AnyAmbiguous(d, search)
    ensures Resolved(Resolved(d, search), search) == Resolved(d, search)
  {
    var r := Resolved(d, search);
    forall k | k in d.vals
      ensures !Found(k, r.vals[k], search)
      ensures Ambiguous(k, r.vals[k], search) == Ambiguous(k, d.vals[k], search)
      ensures Resolve(k, r.vals[k], search) == r.vals[k]
    {
    }
    assert (map k | k in r.vals :: Resolve(k, r.vals[k], search)) == r.vals;
  }

  /** The state of `lookup` (values, `changed`, `failure`, names searched) after
      visiting the keys `ks`. */
  ghost predicate Visited(ks: seq<string>, vals0: map<string, Option<string>>, search: string -> seq<Candidate>,
                          vals: map<string, Option<string>>, changed: bool, failure: bool, queried: seq<string>)
    requires forall k :: k in ks ==> k in vals0
  {
    && vals == ResolvedUpTo(ks, vals0, search)
    && changed == FoundUpTo(ks, vals0, search)
    && failure == AmbiguousUpTo(ks, vals0, search)
    && queried == Pending(ks, vals0)
  }

  /** Before key `i` is visited it still holds its original value. */
  lemma NotYetVisited(order: seq<string>, i: nat, vals0: map<string, Option<string>>, search: string -> seq<Candidate>)
    requires forall i, j :: 0 <= i < j < |order| ==> order[i] != order[j]
    requires forall k :: k in order ==> k in vals0
    requires i < |order|
    ensures ResolvedUpTo(order[..i], vals0, search)[order[i]] == vals0[order[i]]
  {
    forall j | 0 <= j < i
      ensures order[..i][j] != order[i]
    {
    }
    ResolvedUpToAt(order[..i], vals0, search, order[i]);
  }

  /** Visiting key `i` with the outcome of one pass of the loop body extends the state
      from the first `i` keys to the first `i + 1`. */
  lemma VisitStep(order: seq<string>, i: nat, vals0: map<string, Option<string>>, search: string -> seq<Candidate>,
                  vals: map<string, Option<string>>, changed: bool, failure: bool, queried: seq<string>,
                  v: Option<string>, asked: bool, found: bool, ambiguous: bool)
    requires forall k :: k in order ==> k in vals0
    requires i < |order|
    requires Visited(order[..i], vals0, search, vals, changed, failure, queried)
    requires v == Resolve(order[i], vals0[order[i]], search)
    requires asked == NeedsLookup(vals0[order[i]])
    requires found == Found(order[i], vals0[order[i]], search)
    requires ambiguous == Ambiguous(order[i], vals0[order[i]], search)
    ensures Visited(order[..i + 1], vals0, search, vals[order[i] := v], changed || found, failure || ambiguous,
                    if asked then queried + [order[i]] else queried)
  {
    assert order[..i + 1][..i] == order[..i];
  }

  /** The working set `main` builds and mutates (`kvs`). */
  class WorkingSet {
    var order: seq<string>
    var vals: map<string, Option<string>>

    function Snapshot(): Dict
      reads this
    {
      Dict(order, vals)
    }

    ghost predicate Valid()
      reads this
    {
      Snapshot().Valid()
    }

    /** `kvs = {}`. */
    constructor ()
      ensures Valid() && Snapshot() == Empty
    {
      order := [];
      vals := map[];
    }

    /** `kvs[k] = v`, as done by `kvs.update`. */
    method Update(k: string, v: Option<string>)
      requires Valid()
      modifies this
      ensures Valid()
      ensures Snapshot() == Put(old(Snapshot()), k, v)
    {
      if k !in vals {
        order := order + [k];
      }
      vals := vals[k := v];
    }

    /** `kvs.update(pairs)`: stores the pairs one after the other. */
    method UpdateAll(ps: seq<(string, Option<string>)>)
      requires Valid()
      modifies this
      ensures Valid()
      ensures Snapshot() == PutAll(old(Snapshot()), ps)
    {
      ghost var before := Snapshot();
      for i := 0 to |ps|
        invariant Valid() && Snapshot() == PutAll(before, ps[..i])
      {
        assert ps[..i + 1][..i] == ps[..i];
        Update(ps[i].0, ps[i].1);
      }
      assert ps[..|ps|] == ps;
    }

    /** One pass of the loop of `lookup` for the entry `k` holding `v`: the new value,
        whether the catalog was asked, and whether `k` was resolved or stayed ambiguous. */
    static method Visit(k: string, v: Option<string>, search: string -> seq<Candidate>)
      returns (v': Option<string>, asked: bool, found: bool, ambiguous: bool)
      ensures v' == Resolve(k, v, search)
      ensures asked == NeedsLookup(v) && found == Found(k, v, search) && ambiguous == Ambiguous(k, v, search)
    {
      v', asked, found, ambiguous := v, false, false, false;
      if v.Some? && v.value != "" {
        return;
      }
      asked := true;
      var matches := SearchArtist(k, search(k));
      if |matches| == 1 {
        v' := Some(matches[0].candidate.id);
        found := true;
      } else {
        ambiguous := true;
      }
    }

    /** `lookup(kvs)`: searches for each unresolved name in iteration order, stores the
        identifier of a unique match, and reports whether anything was resolved
        (`changed`) and whether some name stayed ambiguous (`failure`). `queried` lists
        the names searched for, in order. */
    method Lookup(search: string -> seq<Candidate>) returns (changed: bool, failure: bool, queried: seq<string>)
      requires Valid()
      modifies this`vals
      ensures Valid()
      ensures Snapshot() == Resolved(old(Snapshot()), search)
      ensures changed == AnyFound(old(Snapshot()), search)
      ensures failure == AnyAmbiguous(old(Snapshot()), search)
      ensures queried == Pending(old(order), old(vals))
    {
      ghost var d0 := Snapshot();
      changed, failure, queried := false, false, [];
      for i := 0 to |order|
        invariant Visited(order[..i], d0.vals, search, vals, changed, failure, queried)
      {
        var k := order[i];
        NotYetVisited(order, i, d0.vals, search);
        var v, asked, found, ambiguous := Visit(k, vals[k], search);
        VisitStep(order, i, d0.vals, search, vals, changed, failure, queried, v, asked, found, ambiguous);
        vals := vals[k := v];
        changed := changed || found;
        failure := failure || ambiguous;
        if asked {
          queried := queried + [k];
        }
      }
      assert order[..|order|] == order;
      LookupComplete(d0, search);
    }
  }
}
