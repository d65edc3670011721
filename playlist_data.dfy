/** fetch_playlist_data.py: the `{id: [popularity, name]}` lookup built from a
    playlist's items, the in-place merge of that lookup into the per-track
    feature maps, and the CSV rows written under a fixed header. The GET
    request is replaced by its parsed `items`, and the file by the rows
    handed to the writer. */
module PlaylistData {
  import opened Wrappers
  import opened Dict
  import opened Catalog

  /** A value of `song_id_pop`: `[popularity, name]`. */
  datatype PopName = PopName(popularity: int, name: string)

  /** A field of a track's map: an audio feature, a popularity or a name. */
  datatype Cell = Real(x: real) | Int(n: int) | Str(s: string)

  // ---------------------------------------------------------------------------
  // get_playlist_tracks

  function PlaylistTracksUrl(playlistId: string): string
  {
    "https://api.spotify.com/v1/playlists/" + playlistId + "/tracks?market=BE"
  }

  /** `song_id_pop` after the items before the end of `items`, or the TypeError
      of the first `null` track. */
  function Lookup(items: seq<Option<Track>>): Result<Dict<string, PopName>>
  {
    if items == [] then Ok([])
    else
      var before := Lookup(items[..|items| - 1]);
      var last := items[|items| - 1];
      if before.Raised? then before
      else if last.None? then Raised(TypeError)
      else Ok(Set(before.value, last.value.id, PopName(last.value.popularity, last.value.name)))
  }

  /** Lines 30-40, with `items` the parsed `items` list. */
  method GetPlaylistTracks(playlistId: string, items: seq<Option<Track>>)
    returns (url: string, songIdPop: Result<Dict<string, PopName>>)
    ensures url == PlaylistTracksUrl(playlistId)
    ensures songIdPop == Lookup(items)
  {
    url := "https://api.spotify.com/v1/playlists/" + playlistId + "/tracks?market=BE";
    var table: Dict<string, PopName> := [];
    for i := 0 to |items|
      invariant Lookup(items[..i]) == Ok(table)
    {
      assert items[..i + 1][..i] == items[..i];
      if items[i].None? {
        LookupRaisedStays(items, i + 1);
        songIdPop := Raised(TypeError);
        return;
      }
      var track := items[i].value;
      table := Set(table, track.id, PopName(track.popularity, track.name));
    }
    assert items[..|items|] == items;
    songIdPop := Ok(table);
  }

  /** An error raised by a prefix is the error of the whole list. */
  lemma {:induction false} LookupRaisedStays(items: seq<Option<Track>>, n: nat)
    requires n <= |items| && Lookup(items[..n]).Raised?
    ensures Lookup(items) == Lookup(items[..n])
  {
    if n < |items| {
      var m := |items| - 1;
      assert items[..m][..n] == items[..n];
      LookupRaisedStays(items[..m], n);
      assert items[..m] == items[..|items| - 1];
    } else {
      assert items[..n] == items;
    }
  }

  /** The value of the last present item carrying id `k`, if any. */
  function LastWith(items: seq<Option<Track>>, k: string): Option<PopName>
  {
    if items == [] then None
    else
      var last := items[|items| - 1];
      if last.Some? && last.value.id == k then Some(PopName(last.value.popularity, last.value.name))
      else LastWith(items[..|items| - 1], k)
  }

  /** The lookup fails exactly when some item has a `null` track. */
  lemma {:induction false} LookupFails(items: seq<Option<Track>>)
    ensures Lookup(items).Raised? <==> exists i :: 0 <= i < |items| && items[i].None?
    ensures Lookup(items).Raised? ==> Lookup(items).error == TypeError
  {
    if items != [] {
      var init := items[..|items| - 1];
      LookupFails(init);
      if exists i :: 0 <= i < |init| && init[i].None? {
        var i :| 0 <= i < |init| && init[i].None?;
        assert items[i].None?;
      }
      if exists i :: 0 <= i < |items| && items[i].None? {
        var i :| 0 <= i < |items| && items[i].None?;
        if i < |init| {
          assert init[i].None?;
        }
      }
    }
  }

  /** Every id maps to the popularity and name of the last item with that id;
      ids of no item are absent; no key is repeated. */
  lemma {:induction false} LookupGet(items: seq<Option<Track>>, k: string)
    requires Lookup(items).Ok?
    ensures Get(Lookup(items).value, k) == LastWith(items, k)
    ensures KeysDistinct(Lookup(items).value)
  {
    if items != [] {
      var init := items[..|items| - 1];
      LookupGet(init, k);
      var last := items[|items| - 1].value;
      SetGet(Lookup(init).value, last.id, PopName(last.popularity, last.name), k);
      SetDistinct(Lookup(init).value, last.id, PopName(last.popularity, last.name));
    }
  }

  // ---------------------------------------------------------------------------
  // playlist_to_csv

  /** The CSV header, and the only fields a row may have. */
  const Head: seq<string> := [
    "name", "id", "popularity", "danceability", "energy", "loudness",
    "speechiness", "acousticness", "instrumentalness", "liveness", "valence", "tempo"
  ]

  /** A track's map after lines 85-86: `name`, then `popularity`, assigned. */
  function Updated(features: Dict<string, Cell>, info: PopName): Dict<string, Cell>
  {
    Set(Set(features, "name", Str(info.name)), "popularity", Int(info.popularity))
  }

  /** One iteration of lines 82-86. */
  function MergeOne(playlist: Dict<string, Dict<string, Cell>>, id: string, info: PopName): Dict<string, Dict<string, Cell>>
  {
    match Get(playlist, id)
    case None => playlist
    case Some(features) => Set(playlist, id, Updated(features, info))
  }

  /** `playlist` after the merge loop over the lookup's items. */
  function Merged(playlist: Dict<string, Dict<string, Cell>>, lookup: Dict<string, PopName>): Dict<string, Dict<string, Cell>>
  {
    if lookup == [] then playlist
    else
      var last := lookup[|lookup| - 1];
      MergeOne(Merged(playlist, lookup[..|lookup| - 1]), last.0, last.1)
  }

  /** `row = {"id": track_id}; row.update(features)`. */
  function RowOf(id: string, features: Dict<string, Cell>): Dict<string, Cell>
  {
    if features == [] then [("id", Str(id))]
    else
      var last := features[|features| - 1];
      Set(RowOf(id, features[..|features| - 1]), last.0, last.1)
  }

  /** What `DictWriter.writerow` writes for a row: the row's value per header
      field, empty where the row has none; a field outside the header raises
      ValueError. */
  function Line(row: Dict<string, Cell>): Result<seq<Option<Cell>>>
  {
    if forall i :: 0 <= i < |row| ==> row[i].0 in Head then Ok(seq(|Head|, h requires 0 <= h < |Head| => Get(row, Head[h])))
    else Raised(ValueError)
  }

  /** The lines written for the tracks of `playlist`, in order, up to the first
      that fails, and that failure. */
  function Lines(playlist: Dict<string, Dict<string, Cell>>): (seq<seq<Option<Cell>>>, Option<PyError>)
  {
    if playlist == [] then ([], None)
    else
      var (before, failure) := Lines(playlist[..|playlist| - 1]);
      var last := playlist[|playlist| - 1];
      if failure.Some? then (before, failure)
      else match Line(RowOf(last.0, last.1))
        case Raised(e) => (before, Some(e))
        case Ok(line) => (before + [line], None)
  }

  /** The per-track maps `playlist_to_csv` receives and updates in place. */
  class PlaylistTable {
    var tracks: Dict<string, Dict<string, Cell>>

    constructor (playlist: Dict<string, Dict<string, Cell>>)
      ensures tracks == playlist
    {
      tracks := playlist;
    }

    /** Lines 82-86. */
    method MergeLookup(songNamesPop: Dict<string, PopName>)
      modifies this
      ensures tracks == Merged(old(tracks), songNamesPop)
    {
      for i := 0 to |songNamesPop|
        invariant tracks == Merged(old(tracks), songNamesPop[..i])
      {
        assert songNamesPop[..i + 1][..i] == songNamesPop[..i];
        var (trackId, trackInfo) := songNamesPop[i];
        var popularity, songName := trackInfo.popularity, trackInfo.name;
        var present := Get(tracks, trackId);
        if present.Some? {
          var features := present.value;
          features := Set(features, "name", Str(songName));
          features := Set(features, "popularity", Int(popularity));
          tracks := Set(tracks, trackId, features);
        }
      }
      assert songNamesPop[..|songNamesPop|] == songNamesPop;
    }

    /** Lines 95-99: the rows handed to the writer after the header, and the
        exception that stops the loop, if any. */
    method WriteRows() returns (rows: seq<seq<Option<Cell>>>, failure: Option<PyError>)
      ensures (rows, failure) == Lines(tracks)
    {
      rows := [];
      failure := None;
      for i := 0 to |tracks|
        invariant Lines(tracks[..i]) == (rows, None)
      {
        assert tracks[..i + 1][..i] == tracks[..i];
        var (trackId, features) := tracks[i];
        var row := BuildRow(trackId, features);
        var line := Line(row);
        if line.Raised? {
          LinesFailureStays(tracks, i + 1);
          failure := Some(line.error);
          return;
        }
        rows := rows + [line.value];
      }
      assert tracks[..|tracks|] == tracks;
    }
  }

  /** `row = {"id": track_id}` then `row.update(features)`, key by key. */
  method BuildRow(trackId: string, features: Dict<string, Cell>) returns (row: Dict<string, Cell>)
    ensures row == RowOf(trackId, features)
  {
    row := [("id", Str(trackId))];
    for j := 0 to |features|
      invariant row == RowOf(trackId, features[..j])
    {
      assert features[..j + 1][..j] == features[..j];
      row := Set(row, features[j].0, features[j].1);
    }
    assert features[..|features|] == features;
  }

  /** A failure on a prefix of the tracks is the failure of the whole table. */
  lemma {:induction false} LinesFailureStays(playlist: Dict<string, Dict<string, Cell>>, n: nat)
    requires n <= |playlist| && Lines(playlist[..n]).1.Some?
    ensures Lines(playlist) == Lines(playlist[..n])
  {
    if n < |playlist| {
      var m := |playlist| - 1;
      assert playlist[..m][..n] == playlist[..n];
      LinesFailureStays(playlist[..m], n);
      assert playlist[..m] == playlist[..|playlist| - 1];
    } else {
      assert playlist[..n] == playlist;
    }
  }

  // ---------------------------------------------------------------------------
  // Properties of the merge and of the rows

  /** A dict entry appended at the end is found only when no earlier entry has the key. */
  lemma {:induction false} GetSnoc<K, V>(d: Dict<K, V>, k: K, v: V, k': K)
    ensures Get(d + [(k, v)], k') == if Get(d, k').Some? then Get(d, k') else if k == k' then Some(v) else None
  {
    if |d| > 0 {
      assert (d + [(k, v)])[1..] == d[1..] + [(k, v)];
      GetSnoc(d[1..], k, v, k');
    }
  }

  /** The merge adds no key and removes none. */
  lemma {:induction false} MergedKeys(playlist: Dict<string, Dict<string, Cell>>, lookup: Dict<string, PopName>)
    ensures Keys(Merged(playlist, lookup)) == Keys(playlist)
  {
    if lookup != [] {
      var before := Merged(playlist, lookup[..|lookup| - 1]);
      MergedKeys(playlist, lookup[..|lookup| - 1]);
      var last := lookup[|lookup| - 1];
      if Get(before, last.0).Some? {
        SetKeys(before, last.0, Updated(Get(before, last.0).value, last.1));
      }
    }
  }

  /** After the merge, a track present in the lookup has had `name` and
      `popularity` assigned from it; every other track is as it was; ids of the
      lookup that are not tracks are ignored. */
  lemma {:induction false} MergedGet(playlist: Dict<string, Dict<string, Cell>>, lookup: Dict<string, PopName>, k: string)
    requires KeysDistinct(lookup)
    ensures Get(Merged(playlist, lookup), k) ==
      match Get(playlist, k)
      case None => None
      case Some(features) =>
        match Get(lookup, k)
        case None => Some(features)
        case Some(info) => Some(Updated(features, info))
  {
    if lookup != [] {
      var init := lookup[..|lookup| - 1];
      var last := lookup[|lookup| - 1];
      assert KeysDistinct(init);
      var before := Merged(playlist, init);
      MergedGet(playlist, init, k);
      MergedGet(playlist, init, last.0);
      assert lookup == init + [last];
      GetSnoc(init, last.0, last.1, k);
      GetSnoc(init, last.0, last.1, last.0);
      assert Get(init, last.0).None?;
      if Get(before, last.0).Some? {
        SetGet(before, last.0, Updated(Get(before, last.0).value, last.1), k);
      }
    }
  }

  /** Assigning `name` and `popularity` changes those two fields and no other. */
  lemma UpdatedFields(features: Dict<string, Cell>, info: PopName, field: string)
    ensures Get(Updated(features, info), field) ==
      if field == "popularity" then Some(Int(info.popularity))
      else if field == "name" then Some(Str(info.name))
      else Get(features, field)
  {
    SetGet(features, "name", Str(info.name), field);
    SetGet(Set(features, "name", Str(info.name)), "popularity", Int(info.popularity), field);
  }

  /** A row holds the track's own fields, and its id under `id` unless the
      track has an `id` field of its own, which `update` lets win. */
  lemma {:induction false} RowOfGet(id: string, features: Dict<string, Cell>, field: string)
    requires KeysDistinct(features)
    ensures Get(RowOf(id, features), field) ==
      if Get(features, field).Some? then Get(features, field)
      else if field == "id" then Some(Str(id))
      else None
  {
    if features != [] {
      var init := features[..|features| - 1];
      var last := features[|features| - 1];
      assert KeysDistinct(init);
      RowOfGet(id, init, field);
      assert Get(init, last.0).None?;
      SetGet(RowOf(id, init), last.0, last.1, field);
      assert features == init + [last];
      GetSnoc(init, last.0, last.1, field);
    }
  }

  /** The fields of a row: `id` and the track's own. */
  lemma {:induction false} RowOfKeys(id: string, features: Dict<string, Cell>, field: string)
    ensures field in Keys(RowOf(id, features)) <==> field == "id" || field in Keys(features)
  {
    if features != [] {
      var init := features[..|features| - 1];
      var last := features[|features| - 1];
      RowOfKeys(id, init, field);
      SetKeys(RowOf(id, init), last.0, last.1);
      assert features == init + [last];
      KeysAppend(init, [last]);
    }
  }

  /** Every field of a track is a header field. */
  predicate TrackInHead(features: Dict<string, Cell>)
  {
    forall j :: 0 <= j < |features| ==> features[j].0 in Head
  }

  /** Every field of every track is a header field. */
  predicate FieldsInHead(playlist: Dict<string, Dict<string, Cell>>)
  {
    forall i :: 0 <= i < |playlist| ==> TrackInHead(playlist[i].1)
  }

  /** A row whose track fields are all in the header is written whole. */
  lemma RowWritten(id: string, features: Dict<string, Cell>)
    requires TrackInHead(features)
    ensures Line(RowOf(id, features)).Ok?
  {
    var row := RowOf(id, features);
    forall i | 0 <= i < |row| ensures row[i].0 in Head {
      assert Keys(row)[i] == row[i].0;
      RowOfKeys(id, features, row[i].0);
      if row[i].0 != "id" {
        var j :| 0 <= j < |features| && Keys(features)[j] == row[i].0;
      }
    }
  }

  /** One more track after tracks that were all written adds its own line. */
  lemma LinesStep(init: Dict<string, Dict<string, Cell>>, last: (string, Dict<string, Cell>))
    requires Lines(init).1 == None
    requires Line(RowOf(last.0, last.1)).Ok?
    ensures Lines(init + [last]) == (Lines(init).0 + [Line(RowOf(last.0, last.1)).value], None)
  {
    var playlist := init + [last];
    assert playlist[..|playlist| - 1] == init;
    assert playlist[|playlist| - 1] == last;
  }

  /** When every field is a header field, one line per track is written, in
      table order, and each column holds the track's value for that header
      field (the id under `id`), empty where the track has none. */
  lemma {:induction false} LinesComplete(playlist: Dict<string, Dict<string, Cell>>)
    requires FieldsInHead(playlist)
    ensures Lines(playlist).1 == None && |Lines(playlist).0| == |playlist|
    ensures forall i :: 0 <= i < |playlist| ==>
      Line(RowOf(playlist[i].0, playlist[i].1)).Ok? &&
      Lines(playlist).0[i] == Line(RowOf(playlist[i].0, playlist[i].1)).value
  {
    if playlist != [] {
      var n := |playlist| - 1;
      var init := playlist[..n];
      var last := playlist[n];
      assert playlist == init + [last];
      assert FieldsInHead(init) by {
        forall i | 0 <= i < |init| ensures TrackInHead(init[i].1) {
          assert init[i] == playlist[i];
        }
      }
      LinesComplete(init);
      assert TrackInHead(last.1);
      RowWritten(last.0, last.1);
      LinesStep(init, last);
      forall i | 0 <= i < |playlist|
        ensures Line(RowOf(playlist[i].0, playlist[i].1)).Ok?
        ensures Lines(playlist).0[i] == Line(RowOf(playlist[i].0, playlist[i].1)).value
      {
        if i < n {
          assert playlist[i] == init[i];
        }
      }
    }
  }

  /** Column `h` of a written row: the track's value for that header field,
      or under `id` (column 1) the track key when the track has no `id` field. */
  lemma LineCell(id: string, features: Dict<string, Cell>, h: nat)
    requires KeysDistinct(features)
    requires TrackInHead(features)
    requires h < |Head|
    ensures Line(RowOf(id, features)).Ok?
    ensures Line(RowOf(id, features)).value[h] ==
      if Get(features, Head[h]).Some? then Get(features, Head[h])
      else if Head[h] == "id" then Some(Str(id))
      else None
  {
    RowWritten(id, features);
    RowOfGet(id, features, Head[h]);
  }
}
