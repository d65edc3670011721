/** fetch_artists.py: the table of top artists from a genre search, the
    related artists of each, and the bucketing of those related names back onto
    the main artists' rows. The HTTP calls are left out: each response is an
    input (`items` for the search, `related` from URL to names for the
    related-artists endpoint). */
module Artists {
  import opened Wrappers
  import opened Text
  import opened Catalog

  /** Lines 21-23: the one search the table is built from. */
  const SearchEndpoint := "https://api.spotify.com/v1/search"
  const TopQuery := "?q=genre=reggeaton&type=artist&limit=30&market=NL"

  /** Related artists attached to one main artist (line 102). */
  const PerArtist := 20

  /** One row of the artist table (lines 29-34). */
  datatype ArtistRecord = ArtistRecord(artistName: string, spotifyId: string, popularity: int, genres: string)

  /** Line 33: the genres joined with a comma and a space. */
  const GenreSeparator := ", "

  function RecordOf(a: Artist): ArtistRecord
  {
    ArtistRecord(a.name, a.id, a.popularity, Join(a.genres, GenreSeparator))
  }

  /** `top_artists` (lines 21-37): one record per returned artist, in response order. */
  method TopArtists(items: seq<Artist>) returns (url: string, records: seq<ArtistRecord>)
    ensures url == SearchEndpoint + TopQuery
    ensures |records| == |items|
    ensures forall i :: 0 <= i < |items| ==>
      records[i].artistName == items[i].name && records[i].spotifyId == items[i].id
      && records[i].popularity == items[i].popularity
      && records[i].genres == Join(items[i].genres, GenreSeparator)
  {
    url := SearchEndpoint + TopQuery;
    records := [];
    for i := 0 to |items|
      invariant |records| == i
      invariant forall j :: 0 <= j < i ==> records[j] == RecordOf(items[j])
    {
      var artist := items[i];
      records := records + [ArtistRecord(artist.name, artist.id, artist.popularity, Join(artist.genres, GenreSeparator))];
    }
  }

  /** The pieces `", "`-joined genres split back into on `','`: the first genre,
      then every later genre behind the space of its separator. */
  function Spaced(parts: seq<string>): (r: seq<string>)
    requires parts != []
    ensures |r| == |parts| && r[0] == parts[0]
    ensures forall i :: 1 <= i < |parts| ==> r[i] == " " + parts[i]
  {
    [parts[0]] + seq(|parts| - 1, i requires 0 <= i < |parts| - 1 => " " + parts[i + 1])
  }

  lemma SpacedSnoc(parts: seq<string>, x: string)
    requires parts != []
    ensures Spaced(parts + [x]) == Spaced(parts) + [" " + x]
  {
  }

  /** Joining with `", "` is joining the spaced pieces with `","`. */
  lemma {:induction false} JoinCommaSpace(parts: seq<string>)
    requires parts != []
    ensures Join(parts, GenreSeparator) == Join(Spaced(parts), ",")
  {
    if |parts| > 1 {
      var init := parts[..|parts| - 1];
      var last := parts[|parts| - 1];
      assert parts == init + [last];
      JoinCommaSpace(init);
      SpacedSnoc(init, last);
      JoinSnoc(Spaced(init), " " + last, ",");
      assert Join(parts, GenreSeparator) == Join(init, GenreSeparator) + GenreSeparator + last;
    }
  }

  /** The `Genres` cell keeps the genre list: when no genre holds a comma,
      splitting the cell on `','` gives the genres back, each later one behind
      one space. */
  lemma GenresRecoverable(a: Artist)
    requires a.genres != []
    requires forall i :: 0 <= i < |a.genres| ==> ',' !in a.genres[i]
    ensures Split(RecordOf(a).genres, ',') == Spaced(a.genres)
  {
    JoinCommaSpace(a.genres);
    var s := Spaced(a.genres);
    forall i | 0 <= i < |s|
      ensures ',' !in s[i]
    {
      if i > 0 {
        assert s[i] == " " + a.genres[i];
      }
    }
    SplitJoin(s, ',');
  }

  /** Line 72. */
  function RelatedUrl(id: string): string
  {
    "https://api.spotify.com/v1/artists/" + id + "/related-artists"
  }

  /** All names, group after group, each group in its own order. */
  function Flatten(groups: seq<seq<string>>): seq<string>
  {
    if groups == [] then [] else Flatten(groups[..|groups| - 1]) + groups[|groups| - 1]
  }

  /** The related-artist names of every main artist, in table order. */
  function RelatedGroups(artists: seq<ArtistRecord>, related: string -> seq<string>): (r: seq<seq<string>>)
    ensures |r| == |artists|
    ensures forall i :: 0 <= i < |artists| ==> r[i] == related(RelatedUrl(artists[i].spotifyId))
  {
    seq(|artists|, i requires 0 <= i < |artists| => related(RelatedUrl(artists[i].spotifyId)))
  }

  /** `get_related_artists` (lines 69-86). A table built from no artists has no
      `Spotify ID` column, so reading it raises KeyError. */
  method GetRelatedArtists(artists: seq<ArtistRecord>, related: string -> seq<string>) returns (r: Result<seq<string>>)
    ensures artists == [] <==> r.Raised?
    ensures r.Raised? ==> r.error == KeyError
    ensures r.Ok? ==> r.value == Flatten(RelatedGroups(artists, related))
  {
    if artists == [] {
      return Raised(KeyError);
    }
    var names := [];
    ghost var groups := RelatedGroups(artists, related);
    for i := 0 to |artists|
      invariant names == Flatten(groups[..i])
    {
      assert groups[..i + 1][..i] == groups[..i];
      var url := RelatedUrl(artists[i].spotifyId);
      var response := related(url);
      for j := 0 to |response|
        invariant names == Flatten(groups[..i]) + response[..j]
      {
        assert response[..j + 1] == response[..j] + [response[j]];
        names := names + [response[j]];
      }
      assert response[..|response|] == response;
    }
    assert groups[..|artists|] == groups;
    return Ok(names);
  }

  /** Lines 103-105: a name is added to a cell behind `", "` when the cell
      already holds something, and bare otherwise. */
  function Append(cell: string, name: string): (r: string)
    ensures cell == "" ==> r == name
    ensures cell != "" ==> r == cell + ", " + name
  {
    (if cell != "" then cell + ", " else cell) + name
  }

  /** The cell after adding each of `names` in turn. */
  function Fill(cell: string, names: seq<string>): string
  {
    if names == [] then cell else Append(Fill(cell, names[..|names| - 1]), names[|names| - 1])
  }

  /** The `Related Artists` column after the first `|names|` loop rounds over a
      table of `n` rows: all cells start empty, and name `idx` goes into cell
      `idx / 20`. */
  function Cells(names: seq<string>, n: nat): (r: seq<string>)
    ensures |r| == n
  {
    if names == [] then seq(n, _ => "")
    else
      var cells := Cells(names[..|names| - 1], n);
      var connector := (|names| - 1) / PerArtist;
      if connector < n then cells[connector := Append(cells[connector], names[|names| - 1])] else cells
  }

  /** The names that land in cell `k`: positions `20k` to `20k + 19`. */
  function Bucket(names: seq<string>, k: nat): seq<string>
  {
    names[Min(PerArtist * k, |names|)..Min(PerArtist * k + PerArtist, |names|)]
  }

  function Min(a: int, b: int): int
  {
    if a < b then a else b
  }

  /** The main-artist table and the `Related Artists` column `order_rel_artists`
      adds to it in place. The column is `[]` while the table does not have it. */
  class ArtistTable {
    var rows: seq<ArtistRecord>
    var related: seq<string>

    constructor (records: seq<ArtistRecord>)
      ensures rows == records && related == []
    {
      rows := records;
      related := [];
    }

    /** `order_rel_artists` (lines 99-105). The column is set to `""` in every
        row first. With no rows, the print on line 100 reads a missing label;
        with no names, the name column is missing (line 101); name `idx` past
        the last bucket makes the `.loc` read on line 103 fail. Each raises
        KeyError, and the cells already filled stay as they are. */
    method OrderRelArtists(names: seq<string>) returns (error: Option<PyError>)
      modifies this
      ensures rows == old(rows)
      ensures error.Some? <==> rows == [] || names == [] || |names| > PerArtist * |rows|
      ensures error.Some? ==> error.value == KeyError
      ensures related == Cells(names[..Min(|names|, PerArtist * |rows|)], |rows|)
    {
      error := None;
      related := seq(|rows|, _ => "");
      if rows == [] {
        return Some(KeyError);
      }
      if names == [] {
        return Some(KeyError);
      }
      for idx := 0 to |names|
        invariant rows == old(rows)
        invariant idx <= PerArtist * |rows|
        invariant related == Cells(names[..idx], |rows|)
      {
        assert names[..idx + 1][..idx] == names[..idx];
        var connector := idx / PerArtist;
        if connector >= |rows| {
          assert idx == PerArtist * |rows|;
          return Some(KeyError);
        }
        related := related[connector := Append(related[connector], names[idx])];
      }
      assert names[..|names|] == names;
    }
  }

  /** A cell whose first name is not empty is the `", "`-join of its names: no
      leading separator, one separator between neighbours. */
  lemma {:induction false} FillJoin(names: seq<string>)
    requires names != [] && names[0] != ""
    ensures Fill("", names) == Join(names, ", ") && Fill("", names) != ""
  {
    if |names| > 1 {
      var init := names[..|names| - 1];
      var last := names[|names| - 1];
      assert names == init + [last];
      FillJoin(init);
      JoinSnoc(init, last, ", ");
    }
  }

  /** An empty name at the head of a bucket leaves no trace in the cell. */
  lemma {:induction false} FillEmptyHead(names: seq<string>)
    ensures Fill("", [""] + names) == Fill("", names)
  {
    if names != [] {
      var init := names[..|names| - 1];
      var last := names[|names| - 1];
      assert names == init + [last];
      assert [""] + names == ([""] + init) + [last];
      assert ([""] + names)[..|names|] == [""] + init;
      FillEmptyHead(init);
    } else {
      assert ([""])[..0] == [];
    }
  }

  /** Cell `k` of a table of `n` rows holds exactly the names of bucket `k`. */
  lemma {:induction false} CellsBucket(names: seq<string>, n: nat, k: nat)
    requires k < n
    ensures Cells(names, n)[k] == Fill("", Bucket(names, k))
  {
    if names != [] {
      var init := names[..|names| - 1];
      var last := names[|names| - 1];
      var m := |init|;
      assert names == init + [last];
      CellsBucket(init, n, k);
      var connector := m / PerArtist;
      var lo, hi := PerArtist * k, PerArtist * k + PerArtist;
      if k == connector {
        assert lo <= m < hi;
        assert Min(lo, m + 1) == lo && Min(hi, m + 1) == m + 1;
        assert Min(lo, m) == lo && Min(hi, m) == m;
        assert init[lo..m] == names[lo..m];
        assert names[lo..m + 1] == names[lo..m] + [last];
        assert Bucket(names, k) == Bucket(init, k) + [last];
        assert Bucket(names, k)[..|Bucket(names, k)| - 1] == Bucket(init, k);
      } else if k < connector {
        assert hi <= m;
        assert Min(lo, m + 1) == lo && Min(hi, m + 1) == hi;
        assert Min(lo, m) == lo && Min(hi, m) == hi;
        assert init[lo..hi] == names[lo..hi];
        assert Bucket(names, k) == Bucket(init, k);
      } else {
        assert m < lo;
        assert Min(lo, m + 1) == m + 1 && Min(hi, m + 1) == m + 1;
        assert Min(lo, m) == m && Min(hi, m) == m;
        assert Bucket(names, k) == Bucket(init, k) == [];
      }
    }
  }

  /** The flattened list holds every group in turn. */
  lemma {:induction false} FlattenLength(groups: seq<seq<string>>)
    requires forall i :: 0 <= i < |groups| ==> |groups[i]| == PerArtist
    ensures |Flatten(groups)| == PerArtist * |groups|
  {
    if groups != [] {
      FlattenLength(groups[..|groups| - 1]);
    }
  }

  /** With twenty related artists per main artist, as the endpoint returns,
      bucket `k` of the flattened names is exactly artist `k`'s list. */
  lemma {:induction false} FlattenBucket(groups: seq<seq<string>>, k: nat)
    requires forall i :: 0 <= i < |groups| ==> |groups[i]| == PerArtist
    requires k < |groups|
    ensures Bucket(Flatten(groups), k) == groups[k]
  {
    var init := groups[..|groups| - 1];
    var last := groups[|groups| - 1];
    FlattenLength(init);
    var before := Flatten(init);
    assert Flatten(groups) == before + last;
    var lo, hi := PerArtist * k, PerArtist * k + PerArtist;
    if k < |init| {
      FlattenBucket(init, k);
      assert hi <= |before|;
      assert Min(lo, |before|) == lo && Min(hi, |before|) == hi;
      assert Min(lo, |before| + |last|) == lo && Min(hi, |before| + |last|) == hi;
      assert (before + last)[lo..hi] == before[lo..hi];
      assert init[k] == groups[k];
    } else {
      assert lo == |before| && |last| == PerArtist;
      assert Min(lo, |before| + |last|) == lo && Min(hi, |before| + |last|) == hi;
      assert (before + last)[lo..hi] == last;
    }
  }

  /** The end-to-end promise of lines 71-105: when each main artist has twenty
      related artists, the first of them named, that artist's `Related Artists`
      cell is the `", "`-join of its own related names. */
  lemma RelatedCell(groups: seq<seq<string>>, k: nat)
    requires forall i :: 0 <= i < |groups| ==> |groups[i]| == PerArtist
    requires k < |groups| && groups[k][0] != ""
    ensures Cells(Flatten(groups), |groups|)[k] == Join(groups[k], ", ")
  {
    CellsBucket(Flatten(groups), |groups|, k);
    FlattenBucket(groups, k);
    FillJoin(groups[k]);
  }
}
