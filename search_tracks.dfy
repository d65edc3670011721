/** search_tracks.py: the comma-terminated id string sent to the batch
    endpoints, `multiple_audio_feat` (response records paired with the ids by
    position, nine features kept) and `multiple_song_info`. The GET requests are
    replaced by their parsed responses, passed in. */
module SearchTracks {
  import opened Wrappers
  import Text
  import opened Dict
  import opened Catalog

  // ---------------------------------------------------------------------------
  // The id string

  /** `ids_string` after its loop: every id followed by a comma, in key order. */
  function IdsText(ids: seq<string>): (s: string)
    ensures |s| == Text.TotalLength(ids) + |ids|
  {
    if ids == [] then "" else IdsText(ids[..|ids| - 1]) + ids[|ids| - 1] + ","
  }

  /** Lines 121-123 (and 52-55): `ids_string += str(id) + ","` for every key. */
  method BuildIdsString(ids: seq<string>) returns (idsString: string)
    ensures idsString == IdsText(ids)
  {
    idsString := "";
    for i := 0 to |ids|
      invariant idsString == IdsText(ids[..i])
    {
      idsString := idsString + ids[i] + ",";
      assert ids[..i + 1][..i] == ids[..i];
    }
    assert ids[..|ids|] == ids;
  }

  /** The id string is the ids joined by commas with an empty last piece: the
      trailing comma. */
  lemma {:induction false} IdsTextJoin(ids: seq<string>)
    ensures IdsText(ids) == Text.Join(ids + [""], ",")
  {
    if ids != [] {
      var init := ids[..|ids| - 1];
      var last := ids[|ids| - 1];
      assert ids == init + [last];
      assert IdsText(ids) == IdsText(init) + last + ",";
      IdsTextJoin(init);
      Text.JoinSnoc(ids, "", ",");
      if init == [] {
        assert Text.Join(ids, ",") == last;
      } else {
        Text.JoinSnoc(init, last, ",");
        Text.JoinSnoc(init, "", ",");
      }
    }
  }

  /** Splitting the id string on commas gives the ids back, in order, followed
      by the empty piece after the trailing comma (ids hold no comma). */
  lemma IdsTextSplits(ids: seq<string>)
    requires forall i :: 0 <= i < |ids| ==> ',' !in ids[i]
    ensures Text.Split(IdsText(ids), ',') == ids + [""]
  {
    IdsTextJoin(ids);
    assert forall i :: 0 <= i < |ids + [""]| ==> ',' !in (ids + [""])[i];
    Text.SplitJoin(ids + [""], ',');
  }

  function TracksUrl(ids: seq<string>): string
  {
    "https://api.spotify.com/v1/tracks?market=US&ids=" + IdsText(ids)
  }

  function AudioFeaturesUrl(ids: seq<string>): string
  {
    "https://api.spotify.com/v1/audio-features?market=US&ids=" + IdsText(ids)
  }

  // ---------------------------------------------------------------------------
  // multiple_audio_feat

  /** The features copied from a response record, in this order. */
  const AudioFeatureNames: seq<string> := [
    "danceability", "energy", "loudness", "speechiness", "acousticness",
    "instrumentalness", "liveness", "valence", "tempo"
  ]

  /** `if result_k:` holds for a record that is present and not empty. */
  predicate Truthy<V>(rec: Option<map<string, V>>)
  {
    rec.Some? && |rec.value| > 0
  }

  /** The listed features the record has, in list order, with its values. */
  function Whitelist<V>(rec: map<string, V>, names: seq<string>): (d: Dict<string, V>)
    ensures forall k :: k in Keys(d) <==> k in names && k in rec
    ensures forall i :: 0 <= i < |d| ==> d[i].0 in rec && d[i].1 == rec[d[i].0]
  {
    if names == [] then []
    else
      var last := names[|names| - 1];
      var init := Whitelist(rec, names[..|names| - 1]);
      var step: Dict<string, V> := if last in rec then [(last, rec[last])] else [];
      KeysAppend(init, step);
      init + step
  }

  /** What ends up under the `j`-th id: the whitelisted `j`-th record when it is
      truthy, the initial empty map otherwise. */
  function FeatureEntry<V>(response: seq<Option<map<string, V>>>, j: nat): Dict<string, V>
  {
    if j < |response| && Truthy(response[j]) then Whitelist(response[j].value, AudioFeatureNames) else []
  }

  /** A truthy record past the last id: `ids_list[i]` raises IndexError. */
  predicate Overflows<V>(ids: seq<string>, response: seq<Option<map<string, V>>>)
  {
    exists i :: |ids| <= i < |response| && Truthy(response[i])
  }

  /** `playlist_info` when the loop completes, else the error. */
  function AudioFeatureTable<V>(ids: seq<string>, response: seq<Option<map<string, V>>>): Result<Dict<string, Dict<string, V>>>
  {
    if Overflows(ids, response) then Raised(IndexError)
    else Ok(seq(|ids|, j requires 0 <= j < |ids| => (ids[j], FeatureEntry(response, j))))
  }

  lemma AudioFeatureNamesDistinct()
    ensures Distinct(AudioFeatureNames)
  {
  }

  /** Lines 140-144 on the map stored under the record's id, which starts
      empty: each listed feature the record has is stored, in list order. */
  method CopyFeatures<V>(rec: map<string, V>, features: seq<string>) returns (trackInfo: Dict<string, V>)
    requires Distinct(features)
    ensures trackInfo == Whitelist(rec, features)
  {
    trackInfo := [];
    for f := 0 to |features|
      invariant trackInfo == Whitelist(rec, features[..f])
    {
      assert features[..f + 1][..f] == features[..f];
      var key := features[f];
      if key in rec {
        var audioValue := rec[key];
        assert key !in Keys(trackInfo);
        SetAbsent(trackInfo, key, audioValue);
        trackInfo := Set(trackInfo, key, audioValue);
      }
    }
    assert features[..|features|] == features;
  }

  /** `playlist_info` once the records before position `i` are stored. */
  function Filled<V>(ids: seq<string>, response: seq<Option<map<string, V>>>, i: nat): Dict<string, Dict<string, V>>
  {
    seq(|ids|, j requires 0 <= j < |ids| => (ids[j], if j < i then FeatureEntry(response, j) else []))
  }

  /** Lines 106-144, with `response` the parsed `audio_features` list. */
  method MultipleAudioFeat<V>(ids: seq<string>, response: seq<Option<map<string, V>>>)
    returns (url: string, info: Result<Dict<string, Dict<string, V>>>)
    requires Distinct(ids)
    ensures url == AudioFeaturesUrl(ids)
    ensures info == AudioFeatureTable(ids, response)
  {
    var playlistInfo: Dict<string, Dict<string, V>> := seq(|ids|, j requires 0 <= j < |ids| => (ids[j], []));
    var features := AudioFeatureNames;
    var idsString := BuildIdsString(ids);
    url := "https://api.spotify.com/v1/audio-features?market=US&ids=" + idsString;
    assert playlistInfo == Filled(ids, response, 0);
    for i := 0 to |response|
      invariant forall j :: |ids| <= j < i ==> !Truthy(response[j])
      invariant playlistInfo == Filled(ids, response, i)
    {
      var overflow;
      playlistInfo, overflow := StoreRecord(ids, response, i, playlistInfo, features);
      if overflow {
        OverflowAt(ids, response, i);
        info := Raised(IndexError);
        return;
      }
    }
    FilledDone(ids, response);
    info := Ok(playlistInfo);
  }

  /** One round of the loop at lines 135-144: a truthy record is copied under
      its id, and one past the last id raises IndexError at `ids_list[i]`. */
  method StoreRecord<V>(ids: seq<string>, response: seq<Option<map<string, V>>>, i: nat,
                        playlistInfo: Dict<string, Dict<string, V>>, features: seq<string>)
    returns (next: Dict<string, Dict<string, V>>, overflow: bool)
    requires Distinct(ids) && i < |response| && features == AudioFeatureNames
    requires playlistInfo == Filled(ids, response, i)
    ensures overflow <==> i >= |ids| && Truthy(response[i])
    ensures !overflow ==> next == Filled(ids, response, i + 1)
  {
    var resultK := response[i];
    if Truthy(resultK) {
      if i >= |ids| {
        return playlistInfo, true;
      }
      var trackId := ids[i];
      AudioFeatureNamesDistinct();
      var trackInfo := CopyFeatures(resultK.value, features);
      FilledStore(ids, response, i);
      return Set(playlistInfo, trackId, trackInfo), false;
    }
    FilledSkip(ids, response, i);
    return playlistInfo, false;
  }

  /** Storing the record at position `i` moves `Filled` one position on. */
  lemma FilledStep<V>(ids: seq<string>, response: seq<Option<map<string, V>>>, i: nat)
    requires i < |response|
    ensures Filled(ids, response, i + 1) ==
      if i < |ids| && Truthy(response[i])
      then Filled(ids, response, i)[i := (ids[i], Whitelist(response[i].value, AudioFeatureNames))]
      else Filled(ids, response, i)
  {
  }

  /** A record that is not stored leaves `Filled` as it was. */
  lemma FilledSkip<V>(ids: seq<string>, response: seq<Option<map<string, V>>>, i: nat)
    requires i < |response| && !Truthy(response[i])
    ensures Filled(ids, response, i + 1) == Filled(ids, response, i)
  {
    FilledStep(ids, response, i);
  }

  /** A truthy record past the last id makes the whole call fail. */
  lemma OverflowAt<V>(ids: seq<string>, response: seq<Option<map<string, V>>>, i: nat)
    requires |ids| <= i < |response| && Truthy(response[i])
    ensures AudioFeatureTable(ids, response) == Raised(IndexError)
  {
  }

  /** Storing a truthy record under its id is that step. */
  lemma FilledStore<V>(ids: seq<string>, response: seq<Option<map<string, V>>>, i: nat)
    requires Distinct(ids) && i < |ids| && i < |response| && Truthy(response[i])
    ensures Set(Filled(ids, response, i), ids[i], Whitelist(response[i].value, AudioFeatureNames))
      == Filled(ids, response, i + 1)
  {
    FilledDistinct(ids, response, i);
    SetAt(Filled(ids, response, i), i, Whitelist(response[i].value, AudioFeatureNames));
    FilledStep(ids, response, i);
  }

  /** Once every record is stored, `Filled` is the table of the specification. */
  lemma FilledDone<V>(ids: seq<string>, response: seq<Option<map<string, V>>>)
    requires !Overflows(ids, response)
    ensures AudioFeatureTable(ids, response) == Ok(Filled(ids, response, |response|))
  {
    var table := AudioFeatureTable(ids, response).value;
    var filled := Filled(ids, response, |response|);
    forall j | 0 <= j < |ids| ensures table[j] == filled[j] {
      if j >= |response| {
        assert FeatureEntry(response, j) == [];
      }
    }
    assert table == filled;
  }

  lemma FilledDistinct<V>(ids: seq<string>, response: seq<Option<map<string, V>>>, i: nat)
    requires Distinct(ids)
    ensures KeysDistinct(Filled(ids, response, i)) && |Filled(ids, response, i)| == |ids|
    ensures forall j :: 0 <= j < |ids| ==> Filled(ids, response, i)[j].0 == ids[j]
  {
  }

  /** The table has one entry per id, in id order. */
  lemma AudioFeatureKeys<V>(ids: seq<string>, response: seq<Option<map<string, V>>>)
    requires AudioFeatureTable(ids, response).Ok?
    ensures Keys(AudioFeatureTable(ids, response).value) == ids
  {
  }

  /** A feature sits under the `j`-th id exactly when the `j`-th record is
      truthy, the feature is one of the nine, and the record has it; its value
      is the record's. */
  lemma FeatureEntryContents<V>(ids: seq<string>, response: seq<Option<map<string, V>>>, j: nat, k: string, v: V)
    requires AudioFeatureTable(ids, response).Ok? && j < |ids|
    ensures (k, v) in AudioFeatureTable(ids, response).value[j].1 <==>
      j < |response| && Truthy(response[j]) && k in AudioFeatureNames &&
      k in response[j].value && v == response[j].value[k]
  {
    if j < |response| && Truthy(response[j]) {
      var d := Whitelist(response[j].value, AudioFeatureNames);
      if (k, v) in d {
        var i :| 0 <= i < |d| && d[i] == (k, v);
        assert Keys(d)[i] == k;
      }
      if k in AudioFeatureNames && k in response[j].value && v == response[j].value[k] {
        assert k in Keys(d);
        var i :| 0 <= i < |d| && Keys(d)[i] == k;
      }
    }
  }

  /** The call fails exactly when a truthy record has no id at its position. */
  lemma AudioFeatureFails<V>(ids: seq<string>, response: seq<Option<map<string, V>>>)
    ensures AudioFeatureTable(ids, response).Raised? <==>
      (|response| > |ids| && exists i :: |ids| <= i < |response| && response[i].Some? && response[i].value != map[])
  {
    if AudioFeatureTable(ids, response).Raised? {
      var i :| |ids| <= i < |response| && Truthy(response[i]);
      assert response[i].value != map[];
    }
    if exists i :: |ids| <= i < |response| && response[i].Some? && response[i].value != map[] {
      var i :| |ids| <= i < |response| && response[i].Some? && response[i].value != map[];
      assert |response[i].value| > 0;
    }
  }

  // ---------------------------------------------------------------------------
  // multiple_song_info

  /** The value stored per id: `[song_name, artist_name]`. */
  datatype SongInfo = SongInfo(name: string, artist: string)

  /** The exception reading `result["tracks"][k]["artists"][0]` raises, if any:
      past the end of the list, a `null` track, or a track without artists. */
  function TrackFailure(tracks: seq<Option<Track>>, k: nat): Option<PyError>
  {
    if k >= |tracks| then Some(IndexError)
    else if tracks[k].None? then Some(TypeError)
    else if tracks[k].value.artists == [] then Some(IndexError)
    else None
  }

  /** The exception of the first failing position below `n`, if any. */
  function FirstFailure(tracks: seq<Option<Track>>, n: nat): (e: Option<PyError>)
    ensures e.None? <==> forall k :: 0 <= k < n ==> TrackFailure(tracks, k).None?
  {
    if n == 0 then None
    else
      var before := FirstFailure(tracks, n - 1);
      if before.Some? then before else TrackFailure(tracks, n - 1)
  }

  /** Name and first artist of a track that has one. */
  function InfoOf(t: Option<Track>): SongInfo
    requires t.Some? && t.value.artists != []
  {
    SongInfo(t.value.name, t.value.artists[0].name)
  }

  /** Every id of `ids` paired with the same value. */
  function AllTo(ids: seq<string>, v: SongInfo): (d: Dict<string, SongInfo>)
    ensures Keys(d) == ids
    ensures forall i :: 0 <= i < |d| ==> d[i].1 == v
  {
    seq(|ids|, j requires 0 <= j < |ids| => (ids[j], v))
  }

  /** One more id adds its own entry at the end. */
  lemma AllToSnoc(ids: seq<string>, i: nat, v: SongInfo)
    requires i < |ids|
    ensures AllTo(ids[..i + 1], v) == AllTo(ids[..i], v) + [(ids[i], v)]
  {
    assert ids[..i + 1] == ids[..i] + [ids[i]];
  }

  /** `songs` as lines 65-73 leave it, or the exception they raise: the inner
      loop reads tracks `0 .. len(ids) - 1` for every id, so each id ends up
      with the last of them. */
  function SongTable(ids: seq<string>, tracks: seq<Option<Track>>): Result<Dict<string, SongInfo>>
  {
    if |ids| == 0 then Ok([])
    else match FirstFailure(tracks, |ids|)
      case Some(e) => Raised(e)
      case None => Ok(AllTo(ids, InfoOf(tracks[|ids| - 1])))
  }

  /** A failure at `k` after none before it is the first failure of any longer prefix. */
  lemma {:induction false} FirstFailureAt(tracks: seq<Option<Track>>, k: nat, n: nat)
    requires k < n && FirstFailure(tracks, k).None? && TrackFailure(tracks, k).Some?
    ensures FirstFailure(tracks, n) == TrackFailure(tracks, k)
  {
    if n > k + 1 {
      FirstFailureAt(tracks, k, n - 1);
    }
  }

  /** Lines 50-73, with `tracks` the parsed `tracks` list of the response. */
  method MultipleSongInfo(ids: seq<string>, tracks: seq<Option<Track>>)
    returns (url: string, songs: Result<Dict<string, SongInfo>>)
    requires Distinct(ids)
    ensures url == TracksUrl(ids)
    ensures songs == SongTable(ids, tracks)
  {
    var table: Dict<string, SongInfo> := [];
    var idsString := BuildIdsString(ids);
    url := "https://api.spotify.com/v1/tracks?market=US&ids=" + idsString;
    for i := 0 to |ids|
      invariant i > 0 ==> FirstFailure(tracks, |ids|).None?
      invariant i == 0 ==> table == []
      invariant i > 0 ==> table == AllTo(ids[..i], InfoOf(tracks[|ids| - 1]))
    {
      var id := ids[i];
      var base := table;
      assert id !in Keys(base) by {
        if i > 0 {
          assert Keys(base) == ids[..i];
        }
      }
      for k := 0 to |ids|
        invariant FirstFailure(tracks, k).None?
        invariant k == 0 ==> table == base
        invariant k > 0 ==> table == base + [(id, InfoOf(tracks[k - 1]))]
      {
        if k >= |tracks| || tracks[k].None? || tracks[k].value.artists == [] {
          FirstFailureAt(tracks, k, |ids|);
          songs := Raised(TrackFailure(tracks, k).value);
          return;
        }
        var artistName := tracks[k].value.artists[0].name;
        var songName := tracks[k].value.name;
        if k == 0 {
          SetAbsent(table, id, SongInfo(songName, artistName));
        } else {
          SetLast(base, id, InfoOf(tracks[k - 1]), SongInfo(songName, artistName));
        }
        table := Set(table, id, SongInfo(songName, artistName));
      }
      AllToSnoc(ids, i, InfoOf(tracks[|ids| - 1]));
    }
    assert ids[..|ids|] == ids;
    songs := Ok(table);
  }

  /** The call succeeds exactly when each of the first `len(ids)` tracks is
      present and has an artist. */
  lemma SongTableSucceeds(ids: seq<string>, tracks: seq<Option<Track>>)
    ensures SongTable(ids, tracks).Ok? <==>
      forall k :: 0 <= k < |ids| ==> k < |tracks| && tracks[k].Some? && tracks[k].value.artists != []
  {
    if SongTable(ids, tracks).Ok? && |ids| > 0 {
      forall k | 0 <= k < |ids| ensures k < |tracks| && tracks[k].Some? && tracks[k].value.artists != [] {
        assert TrackFailure(tracks, k).None?;
      }
    }
  }

  /** Every id becomes a key, in order, and all of them hold the name and first
      artist of track `len(ids) - 1`. */
  lemma SongTableLastTrack(ids: seq<string>, tracks: seq<Option<Track>>, i: nat)
    requires SongTable(ids, tracks).Ok? && i < |ids|
    ensures Keys(SongTable(ids, tracks).value) == ids
    ensures |ids| <= |tracks| && tracks[|ids| - 1].Some?
    ensures SongTable(ids, tracks).value[i].1 ==
      SongInfo(tracks[|ids| - 1].value.name, tracks[|ids| - 1].value.artists[0].name)
  {
    assert TrackFailure(tracks, |ids| - 1).None?;
  }

  /** Two ids and two different tracks: the first id gets the second track's
      name, not its own. */
  lemma SongTableMismatch(a: Track, b: Track)
    requires a.artists != [] && b.artists != [] && a.name != b.name
    ensures SongTable(["x", "y"], [Some(a), Some(b)]).Ok?
    ensures SongTable(["x", "y"], [Some(a), Some(b)]).value[0] == ("x", SongInfo(b.name, b.artists[0].name))
    ensures SongTable(["x", "y"], [Some(a), Some(b)]).value[0].1.name != a.name
  {
    assert TrackFailure([Some(a), Some(b)], 0).None? && TrackFailure([Some(a), Some(b)], 1).None?;
  }

  /** What the docstring of `multiple_song_info` describes: each id paired with
      the name and first artist of its own track. */
  function IntendedSongTable(ids: seq<string>, tracks: seq<Option<Track>>): Result<Dict<string, SongInfo>>
  {
    match FirstFailure(tracks, |ids|)
    case Some(e) => Raised(e)
    case None => Ok(seq(|ids|, j requires 0 <= j < |ids| && TrackFailure(tracks, j).None? => (ids[j], InfoOf(tracks[j]))))
  }

  /** In the intended table the `i`-th id holds the `i`-th track; it fails on the
      same inputs as the code. */
  lemma IntendedSongTableOwnTrack(ids: seq<string>, tracks: seq<Option<Track>>, i: nat)
    requires i < |ids|
    ensures IntendedSongTable(ids, tracks).Ok? <==> SongTable(ids, tracks).Ok?
    ensures IntendedSongTable(ids, tracks).Ok? ==>
      Keys(IntendedSongTable(ids, tracks).value) == ids &&
      i < |tracks| && tracks[i].Some? && tracks[i].value.artists != [] &&
      IntendedSongTable(ids, tracks).value[i].1 == SongInfo(tracks[i].value.name, tracks[i].value.artists[0].name)
  {
    if FirstFailure(tracks, |ids|).None? {
      assert TrackFailure(tracks, i).None?;
    }
  }
}
