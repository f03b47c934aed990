/** The records the MusicBrainz catalog hands back, as far as the tracker reads them. */
module Catalog {

  datatype Option<+T> = None | Some(value: T)

  /** An artist record from a name search: its name, MusicBrainz id, match score
      (0..100) and the optional disambiguation note. */
  datatype Candidate = Candidate(name: string, id: string, score: int, disambiguation: Option<string>)

  /** A kept search hit: the candidate together with the display name computed for it. */
  datatype Match = Match(candidate: Candidate, dispname: string)

  /** One release group as listed in an artist's detail record. */
  datatype ReleaseGroup = ReleaseGroup(title: string, firstReleaseDate: string)

  /** The artist detail record with its `release-groups` field removed. */
  datatype ArtistInfo = ArtistInfo(id: string, name: string)

  /** The artist detail record as the catalog returns it with release groups included. */
  datatype ArtistDetail = ArtistDetail(info: ArtistInfo, releaseGroups: seq<ReleaseGroup>)

  /** A release group carrying a back-reference to the artist it was fetched for. */
  datatype Release = Release(group: ReleaseGroup, artist: ArtistInfo)

  /** Python truthiness of a dictionary value: a non-empty string. */
  predicate Truthy(v: Option<string>)
  {
    v.Some? && v.value != ""
  }
}
