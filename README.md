# mtracker core, modelled in Dafny

`tracker.py` is a small MusicBrainz client. It takes artist names from the command
line and from a JSON cache file. It resolves each unresolved name to a MusicBrainz
artist identifier, writes the cache back when something was resolved, and then lists
every release group of those artists, newest first.

This project models the decisions the script takes once the catalog has answered. The
MusicBrainz web service is an oracle:

- `search: string -> seq<Candidate>` is the decoded `artists` list of a name search;
- `catalog: string -> ArtistDetail` is the decoded artist record with its release groups.

Modules, one per part of the script:

- `Catalog` (`catalog.dfy`) holds the records the catalog returns and Python's
  truthiness of a dictionary value (a non-empty string).
- `StringOrder` (`string_order.dfy`) defines `Below`, which is Python's `<` on `str`.
  It is proved to be a strict total order.
- `Resolver` (`resolver.dfy`) models `search_artist`. It covers the candidate filter
  (exact name or perfect score) and the `dispname` formatting. The loop is the method
  `SearchArtist`, and it is proved against the function `Matches`.
- `WorkingSets` (`working_set.dfy`) models the working set `kvs`, a Python dict with
  its insertion order, and `lookup`:
  - The value `Dict(order, vals)` with `Put`/`PutAll` models `kvs[k] = v` and
    `kvs.update(...)`. An existing key keeps its place.
  - The class `WorkingSet` holds the same two fields and is updated in place by
    `Update`, `UpdateAll` and `Lookup`.
  - `Lookup` is the loop of `lookup`. It is proved against the function `Resolved`
    and the predicates `AnyFound` (`changed`) and `AnyAmbiguous` (`failure`). It also
    returns the names it searched for, in order.
- `Releases` (`releases.dfy`) models `get_releases_artist` and `get_releases`:
  - per-artist tagging;
  - concatenation in identifier order;
  - Python's stable `sorted(..., reverse=True)` on the date, as the insertion sort
    `SortByDate`. It is proved sorted, a permutation and stable.
- `Presenter` (`presenter.dfy`) models `print_releases`. The lines are returned
  instead of printed.
- `Tracker` (`tracker.dfy`) models `main` after argument parsing, as the method `Run`:
  - seeding from `--artists` and the cache file;
  - `lookup` when the working set is non-empty;
  - the rewrite decision;
  - the early exit on failure;
  - the crash at line 132;
  - fetching and listing.

## Model

| member | source | states |
|---|---|---|
| `Catalog.Truthy` | tracker.py:73 | Python truthiness of a dictionary value (`if v:`): a string that is present and non-empty. The definition is the whole contract. |
| `Resolver.Keep` | tracker.py:24 | The filter: the name equals the query exactly or the score is 100. The definition is the whole contract. |
| `Resolver.DisplayName` | tracker.py:25-28 | `"name (note)"` when the disambiguation is truthy, the bare name otherwise. The definition is the contract; its shape is proved in `DisplayNameShape`. |
| `Resolver.Matches` | tracker.py:22-30 | The kept candidates in catalog order, each with its display name. It never returns more matches than candidates. Its meaning is proved in `MatchesIff`, `MatchesSound`, `MatchesComplete` and `MatchesAppend`. |
| `Resolver.MatchesIff` | tracker.py:23-29 | A candidate gives a match if and only if it is in the catalog's list and its name equals the query or its score is 100. |
| `Resolver.MatchesSound` | tracker.py:24-29 | Every match is a candidate from the list that passes the filter, carrying that candidate's display name. |
| `Resolver.MatchesComplete` | tracker.py:24-29 | Every candidate that passes the filter is among the matches, with its display name. |
| `Resolver.MatchesAppend` | tracker.py:23-29 | Filtering commutes with concatenation, so kept candidates stay in catalog order. |
| `Resolver.DisplayNameShape` | tracker.py:25-28 | The display name starts with the name. It is longer exactly when the disambiguation note is present and non-empty, and the note can then be read back from between " (" and ")". |
| `Resolver.SearchArtist` | tracker.py:22-30 | The loop returns exactly `Matches(query, artists)`, and each match is a kept candidate with its display name. |
| `WorkingSets.Put` | tracker.py:79 | Storing a key keeps the dict well formed and sets that key's value. A new key goes at the end; an existing key keeps its position. |
| `WorkingSets.PutAll` | tracker.py:109 | `dict.update` with a list of pairs keeps the dict well formed (distinct keys, key set equal to the order's elements). |
| `WorkingSets.PutAllValue` | tracker.py:109-115 | After `update`, a key is present iff it was before or is named in the pairs. A named key holds its last value, and any other key keeps its value. |
| `WorkingSets.PutAllKeepsOrder` | tracker.py:109-115 | `update` never moves existing keys: the old order is a prefix of the new one. |
| `WorkingSets.NewKeys` | tracker.py:109-115 | The keys named in the pairs that are not yet in the dict, each once. A key is in the result iff it is named in the pairs and not already present, and no key repeats. |
| `WorkingSets.PutAllOrder` | tracker.py:109-115 | `update` appends the keys new to the dict after the existing ones, in the order they first appear in the pairs. |
| `WorkingSets.Items` | tracker.py:124 | The items dumped to the cache file, one per key in dict order. What they hold is fixed by `ItemsRoundTrip`. |
| `WorkingSets.ItemsRoundTrip` | tracker.py:122-124 | Replaying the items of the working set into an empty dict gives back the same working set, order included, so the cache file is dumped in full and in order. |
| `WorkingSets.Resolved` | tracker.py:72-84 | Lookup keeps the order and the key set. Truthy entries and entries with zero or several matches are unchanged, and an unresolved entry with exactly one match gets that match's id. |
| `WorkingSets.LookupComplete` | tracker.py:70-88 | Visiting the keys one by one in dict order ends in `Resolved`, with `changed` equal to `AnyFound` and `failure` equal to `AnyAmbiguous`. |
| `WorkingSets.FoundUpToIff` | tracker.py:77-80 | `changed` after some keys iff one of them was unresolved and had exactly one match. |
| `WorkingSets.AmbiguousUpToIff` | tracker.py:83-84 | `failure` after some keys iff one of them was unresolved and did not have exactly one match. |
| `WorkingSets.ResolvedUpToAt` | tracker.py:72-79 | After some keys are visited, a visited key holds its resolved value and any other key its original value. |
| `WorkingSets.PendingIff` | tracker.py:72-76 | The catalog is searched for a name iff its entry is not truthy. Entries that already hold an identifier are never searched for. |
| `WorkingSets.ResolvedSettles` | tracker.py:126-130 | When no entry is ambiguous, every value after lookup holds an identifier. |
| `WorkingSets.LookupIdempotent` | tracker.py:68-88 | If the catalog's ids are non-empty, a second lookup resolves nothing new, reports the same failure and leaves the working set unchanged. |
| `WorkingSets.WorkingSet.constructor` | tracker.py:104 | `kvs = {}` starts empty. |
| `WorkingSets.WorkingSet.Update` | tracker.py:79 | `kvs[k] = v` in place; the new state is `Put` of the old one. |
| `WorkingSets.WorkingSet.UpdateAll` | tracker.py:109 | `kvs.update(pairs)` in place; the new state is `PutAll` of the old one. |
| `WorkingSets.WorkingSet.Visit` | tracker.py:73-84 | One pass of the loop body: the new value is `Resolve`, the catalog is asked iff the value is not truthy, and `found`/`ambiguous` are `Found`/`Ambiguous`. |
| `WorkingSets.WorkingSet.Lookup` | tracker.py:68-88 | In place, the working set becomes `Resolved(old)`. `changed` is `AnyFound(old)`, `failure` is `AnyAmbiguous(old)`, and the names searched are the non-truthy entries in dict order. |
| `Releases.Tagged` | tracker.py:43-47 | One release per release group, in order, each carrying the artist record without its release groups. |
| `Releases.GetReleasesArtist` | tracker.py:43-47 | The loop attaches the stripped artist record to every release group, in order. |
| `Releases.Flatten` | tracker.py:51-54 | The per-artist lists `extend`ed one after the other. The definition is the contract; `FlattenAppend` and `FlattenOwner` state its properties. |
| `Releases.Insert` | tracker.py:55-57 | One step of the stand-in for `sorted`: one element is added in front of the first release that is not newer. Its order and permutation facts are proved in the sort lemmas. |
| `Releases.SortByDate` | tracker.py:55-57 | `sorted(key=date, reverse=True)` keeps the length. It is proved sorted by `SortSorted`, a permutation by `SortPermutes` and stable by `SortStable`. |
| `Releases.FlattenAppend` | tracker.py:51-54 | Per-artist lists are concatenated in the order of the identifiers. |
| `Releases.FlattenOwner` | tracker.py:51-54 | Every collected release is a release group of one of the requested artists and carries that artist's record. |
| `Releases.SortSorted` | tracker.py:55-57 | The sorted list is newest first: no release is dated strictly before a later one. |
| `Releases.SortPermutes` | tracker.py:55-57 | Sorting is a permutation of the collected releases. |
| `Releases.SortStable` | tracker.py:55-57 | Releases with the same date keep their collected order, as Python's stable `sorted` does with `reverse=True`. |
| `Releases.GetReleases` | tracker.py:49-58 | The result is the sorted concatenation. It is sorted newest first, a permutation of the concatenation, and keeps the concatenated order among equal dates. |
| `StringOrder.Below` | tracker.py:55-57 | Python's `<` on `str`: lexicographic by character, a proper prefix first. The definition is the contract; the next four lemmas prove it a strict total order. |
| `StringOrder.BelowIrreflexive` | tracker.py:55-57 | No date string is below itself. |
| `StringOrder.BelowTransitive` | tracker.py:55-57 | String order is transitive. |
| `StringOrder.BelowTotal` | tracker.py:55-57 | Any two date strings are equal or ordered one way or the other. |
| `StringOrder.NotBelowTransitive` | tracker.py:55-57 | "Not older than" is transitive, which is what makes the descending order consistent. |
| `Presenter.LeftJustify` | tracker.py:64 | `ljust(10)` never truncates. It keeps the string as a prefix, pads with spaces only, and reaches at least the width. |
| `Presenter.FormatLineFields` | tracker.py:63-66 | A line splits back into its fields: the padded date, a space, the artist name, " - ", and the title. |
| `Presenter.FormatLine` | tracker.py:63-66 | `"{} {} - {}"` of the date `ljust(10)`, the artist name and the title. The definition is the contract; `FormatLineFields` proves how the line splits. |
| `Presenter.PrintReleases` | tracker.py:60-66 | One line per release, in order, each formatted by `FormatLine`. |
| `Tracker.PathGiven` | tracker.py:111 | `if args.json:`: a path is given and is not empty. The same test guards the rewrite at line 122. The definition is the whole contract. |
| `Tracker.Unset` | tracker.py:109 | `{k: None for k in args.artists}` as a list of pairs. The definition is the contract; `SeedEntries` and `SeedOrder` use it. |
| `Tracker.CacheLoaded` | tracker.py:111-117 | The cache mapping is merged iff a path is given and the file exists. The definition is the whole contract. |
| `Tracker.Seed` | tracker.py:104-117 | The working set before lookup is well formed. |
| `Tracker.SeedEntries` | tracker.py:108-117 | A name is in the working set iff it came from `--artists` or the loaded cache file. A cached name holds the cache's value, and a command-line name that is not cached starts unresolved. |
| `Tracker.SeedOrder` | tracker.py:108-115 | The working set's order before lookup is each `--artists` name at its first occurrence, then the cache file's names not among them, in file order. |
| `Tracker.IdList` | tracker.py:130 | `list(kvs.values())` once every value is an identifier. It has one identifier per entry, every entry's identifier is in it, and every identifier in it belongs to some entry. |
| `Tracker.Run` | tracker.py:104-135 | The cache file is rewritten iff the working set is non-empty, lookup changed something and a path was given; it then holds every item in order. Lookup failure ends the run iff some entry is ambiguous, and nothing is fetched. Otherwise a given `--ids` raises AttributeError. Otherwise every value is an id, those ids are fetched in dict order, and the listing is printed. The catalog is searched for exactly the unresolved names. |
| `Tracker.TwoArtistExample` | tracker.py:104-130 | With "Artist B" on the command line, "Artist A" cached as "id-123", and one perfect hit for "Artist B", lookup resolves B without failure. The cache is rewritten as B then A, and the identifiers are listed as "id-456", "id-123". |

## Left out

- The HTTP requests, URL quoting and the unbounded retry loop with `time.sleep(5)`
  (tracker.py:12-20, 34-41) are not modelled. The catalog is the two oracle
  functions. A missing `artists` field in a search response is the empty list.
- JSON decoding of responses (tracker.py:21, 42) is not modelled. Records are the
  datatypes of `Catalog`, and a payload missing `release-groups` (a `KeyError`) is
  not represented.
- The cache file is a parameter (tracker.py:111-117, 122-124). `None` stands for a
  missing file, which is the `FileNotFoundError` case. The rewrite is returned as the
  list of items that would be dumped. Cache values are string or null only; other
  JSON values are not modelled.
- Argument parsing, logging setup and `-v` (tracker.py:92-102) are not modelled.
  Option lists are sequences, with an empty sequence for an absent option.
- The candidate lines printed by `lookup` (tracker.py:75, 81-82, 85-87) and the
  failure message are not modelled. Only the names searched and the outcome are
  returned.
- `get_releases_artist` gives every release the same artist dict object
  (tracker.py:44-46). The model copies an immutable record into each release, so the
  aliasing is not captured.
- The `--ids` path (tracker.py:131-132) is modelled only as the `AttributeError` it
  raises. No merge of identifiers is invented.
- `SortByDate` is an insertion sort that stands in for Python's `sorted`. Only its
  result is modelled: the ordering, permutation and stability, not Timsort.
- `Below` compares strings by character code. Python compares code points, so this
  is the same for the ASCII date strings the catalog sends.
