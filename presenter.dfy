/** `print_releases` (tracker.py:60-66): one line per release, the date left-justified
    to ten columns, then the artist name and the title. The console is replaced by
    the returned list of lines. */
module Presenter {
  import opened Catalog
  import opened Releases

  const DATE_WIDTH: nat := 10

  /** Python's `s.ljust(width)`: pads with spaces on the right up to `width`, never
      truncates. */
  function LeftJustify(s: string, width: nat): (r: string)
    ensures |r| == if |s| >= width then |s| else width
    ensures r[..|s|] == s
    ensures forall i :: |s| <= i < |r| ==> r[i] == ' '
  {
    if |s| >= width then s else s + seq(width - |s|, _ => ' ')
  }

  /** `"{} {} - {}".format(date.ljust(10), artist name, title)`. */
  function FormatLine(r: Release): string
  {
    LeftJustify(Date(r), DATE_WIDTH) + " " + r.artist.name + " - " + r.group.title
  }

  /** The line splits back into its fields: the date in front followed by padding
      spaces, then the artist name after a single space, then " - " and the title. When
      the date fits the column, the artist name starts at column 11. */
  lemma FormatLineFields(r: Release)
    ensures var line := FormatLine(r);
            var w := if |Date(r)| >= DATE_WIDTH then |Date(r)| else DATE_WIDTH;
            var n := |r.artist.name|;
            |line| == w + 1 + n + 3 + |r.group.title| &&
            line[..|Date(r)|] == Date(r) &&
            (forall i :: |Date(r)| <= i < w ==> line[i] == ' ') &&
            line[w] == ' ' &&
            line[w + 1..w + 1 + n] == r.artist.name &&
            line[w + 1 + n..w + 4 + n] == " - " &&
            line[w + 4 + n..] == r.group.title
  {
    var pad := LeftJustify(Date(r), DATE_WIDTH);
    var line := FormatLine(r);
    var w := |pad|;
    var n := |r.artist.name|;
    assert line == pad + " " + r.artist.name + " - " + r.group.title;
    assert line[..w] == pad;
    assert line[..|Date(r)|] == pad[..|Date(r)|];
    assert line[w + 1..w + 1 + n] == r.artist.name;
    assert line[w + 1 + n..w + 4 + n] == " - ";
    assert line[w + 4 + n..] == r.group.title;
  }

  /** `print_releases`: the lines printed, one per release, in order. */
  method PrintReleases(releases: seq<Release>) returns (lines: seq<string>)
    ensures |lines| == |releases|
    ensures forall i :: 0 <= i < |releases| ==> lines[i] == FormatLine(releases[i])
  {
    lines := [];
    for i := 0 to |releases|
      invariant |lines| == i
      invariant forall j :: 0 <= j < i ==> lines[j] == FormatLine(releases[j])
    {
      var release := releases[i];
      var padded := LeftJustify(release.group.firstReleaseDate, DATE_WIDTH);
      lines := lines + [padded + " " + release.artist.name + " - " + release.group.title];
    }
  }
}
