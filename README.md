# Spotify Playlist Remixer — a verified model of its core

Spotify Playlist Remixer is a set of Python scripts around the Spotify Web API.
It reads a playlist's tracks and audio features, writes them to CSV, derives
recommendation parameters from their statistics, collects tracks per mood from
keyword searches, builds a table of top artists with their related artists,
and prepares a playlist-creation request. This project models the parts of
those scripts that shape data, in Dafny, and proves what they guarantee.

The network is not modelled. Each HTTP response becomes an input. It is a
sequence of parsed records, or a function from request URL to records when
the code issues many searches. Environment variables are `Option` inputs,
because `os.getenv` returns `None` when one is unset. Python dicts keep
insertion order, so a dict is a sequence of key/value pairs (`Dict.Dict`).
Exceptions the code does not catch become the `Raised` case of `Wrappers.Result`.

Modules, one per source file plus shared helpers:

- `Wrappers`: `Option`, `Result` and the Python exception kinds raised.
- `Text`: `str.join`, `str.split` on one character, and `str()` of integers.
- `Dict`: the insertion-ordered dict: `keys()`, `get`, assignment.
- `Catalog`: the parsed track and artist records.
- `Recommendations` and `RecommendationProperties`: generate_recommendations.py.
- `SearchTracks`: search_tracks.py.
- `PlaylistData`: fetch_playlist_data.py. The class `PlaylistTable` holds the per-track maps that `playlist_to_csv` updates in place.
- `MoodLists`, `MoodClassifier` and `MoodProperties`: classify_mood.py.
- `Artists`: fetch_artists.py. The class `ArtistTable` holds the artist table whose `Related Artists` column `order_rel_artists` fills in place.
- `PlaylistCreation`: create_playlist_from_analysis.py.py.
- `SpotifyAuth`: init_spotify_api.py. This includes UTF-8 and base64 (section 4 of RFC 4648) for the HTTP Basic credentials of section 2 of RFC 7617.

Where the code and its design description differ, the model follows the code:

- `multiple_song_info` documents `ids` as a list, but calls `ids.keys()` (search_tracks.py:54). The model takes the dict's keys.
- The design asks for a typed validation error on an unknown genre or market. The code instead loops on `input()` (generate_recommendations.py:35-47). That loop is left out, and no validation error is modelled.
- `write_csv` starts with `append_mode = "a"`. `last_section` is always `None`, so every write after the first uses mode `"w"` with the whole merged table (classify_mood.py:155-185). `MoodClassifier.WriteCsv` states this.

## Model

| member | source | states |
|---|---|---|
| Text.Join | generate_recommendations.py:255 | The join of no pieces is empty; otherwise its length is the pieces' total length plus one separator between each two neighbours. |
| Text.JoinSnoc | fetch_artists.py:103-105 | Joining one more piece appends the separator and the piece. |
| Text.JoinCons | generate_recommendations.py:255 | Joining a first piece in front of a non-empty list puts it and one separator in front. |
| Text.JoinAppend | generate_recommendations.py:255-258 | Joining two non-empty lists laid end to end is joining each, with one separator between. |
| Text.Split | search_tracks.py:121-125 | Splitting gives one more piece than there are separators, and no piece holds the separator. |
| Text.SplitWithout | search_tracks.py:121-125 | A string without the separator splits into itself. |
| Text.SplitAtFirst | init_spotify_api.py:25 | The first separator ends the first piece. |
| Text.SplitJoin | generate_recommendations.py:255 | Splitting a join on its one-character separator gives the pieces back when none holds it. |
| Text.DigitChar | generate_recommendations.py:242 | The character produced is a decimal digit whose value is the given digit. |
| Text.NatToString | generate_recommendations.py:242 | `str(n)` is a non-empty run of digits with no leading zero. |
| Text.NatToStringRoundTrip | generate_recommendations.py:242 | Reading the printed digits back gives the number. |
| Text.IntToString | generate_recommendations.py:242 | `str(i)` starts with a minus sign exactly when `i` is negative; every other character is a digit. |
| Text.IntValue | generate_recommendations.py:242 | The integer an optional minus sign followed by decimal digits denotes. |
| Text.IntToStringRoundTrip | generate_recommendations.py:242 | `str(i)` is an integer literal and reads back as `i`, negative numbers included. |
| Dict.Keys | search_tracks.py:132 | `list(d.keys())` lists every key in insertion order. |
| Dict.Get | fetch_playlist_data.py:84 | A lookup finds a value exactly when the key is in the dict. |
| Dict.GetAt | fetch_playlist_data.py:84 | With distinct keys, the value found is the one stored at the key's position. |
| Dict.SetGet | fetch_playlist_data.py:85-86 | After `d[k] = v`, `k` holds `v` and every other key holds what it held. |
| Dict.SetKeys | generate_recommendations.py:88-90 | Assignment keeps the key order and appends a key only when it is new. |
| Dict.SetDistinct | generate_recommendations.py:88-90 | Assignment keeps the keys distinct. |
| Dict.KeysAppend | search_tracks.py:140-144 | The keys of two dicts laid end to end are their key lists laid end to end. |
| Dict.SetAbsent | classify_mood.py:87 | Assigning a new key appends it with its value. |
| Dict.SetLast | classify_mood.py:87-102 | Assigning again to the key appended last replaces its value in place. |
| Dict.SetAt | search_tracks.py:144 | Assigning to a present key changes only its own entry, where it stands. |
| Recommendations.BuildParams | generate_recommendations.py:78-90 | The `params` dict after the feature loop is `ParamsOf` of the statistics: each feature's min, max and median under `min_`, `max_` and `target_`. |
| Recommendations.FamilyOf | generate_recommendations.py:92-191 | The range and the conversion that `parameter_ranges`, `integer_parameters` and `number_parameters` give all three keys of a feature; `None` for a feature without a range. |
| Recommendations.Convert | generate_recommendations.py:227-234 | `int(value)` or `round(float(value), 1)`, or `None` when the conversion raises ValueError or TypeError: a `None` value, or NaN under `int`. |
| Recommendations.Truncate | generate_recommendations.py:230 | `int(x)` truncates toward zero: the result is the integer within one of `x` on the zero side. |
| Recommendations.RoundTenths | generate_recommendations.py:232 | `round(x, 1)` in tenths is within half a tenth of `x`, and a tie goes to an even number of tenths. |
| Recommendations.Clamp | generate_recommendations.py:236-239 | A number is raised to a present lower bound and lowered to a present upper bound, which leaves it inside an ordered range. NaN stays NaN. No bound leaves the value unchanged. |
| Recommendations.FormatParam | generate_recommendations.py:199-246 | One iteration of the loop: an excluded key, a key without a range and a failed conversion give nothing; otherwise the key with its converted and clamped value. |
| Recommendations.FormatAll | generate_recommendations.py:199-252 | The pairs the loop emits, in `params` order. |
| Recommendations.FormatAllSnoc | generate_recommendations.py:199-252 | One more item adds its own pair at the end of the emitted list, or nothing when it is skipped. |
| Recommendations.FormatItem | generate_recommendations.py:199-246 | One iteration yields `FormatParam` of its item, through the same skips, conversion and clamp. |
| Recommendations.ValueText | generate_recommendations.py:242 | `str` of a converted value: an int in decimal, a rounded float with one digit after the point, NaN as `nan`. |
| Recommendations.IsTenthsText | generate_recommendations.py:242 | The shape `str` gives a float rounded to one decimal: an optional minus sign, digits, a point and one digit. |
| Recommendations.TenthsValue | generate_recommendations.py:242 | The number of tenths such a text denotes. |
| Recommendations.Render | generate_recommendations.py:242 | The text `key=value` of one emitted pair. |
| Recommendations.RenderAll | generate_recommendations.py:242 | One `key=value` string per emitted pair, in order. |
| Recommendations.RenderAllAt | generate_recommendations.py:242 | Entry `i` of the rendered list is pair `i` rendered. |
| Recommendations.RenderAllSnoc | generate_recommendations.py:242 | Rendering one more pair appends its text. |
| Recommendations.FormatParams | generate_recommendations.py:196-252 | The loop emits the rendering of `FormatAll(params)`, in `params` order. |
| Recommendations.RecommendationUrl | generate_recommendations.py:255-258 | The fixed part of the URL, `&`, then the rendered pairs joined with `&`. |
| Recommendations.GenreRecommendations | generate_recommendations.py:74-258 | The request URL is the fixed prefix followed by the rendered parameters of the statistics table. |
| RecommendationProperties.ParamsLayout | generate_recommendations.py:82-90 | Feature `i` fills entries `3i`, `3i+1` and `3i+2` with its min, max and median. The target is the median, not the mean. |
| RecommendationProperties.ParamsLength | generate_recommendations.py:82-90 | Three entries per feature. |
| RecommendationProperties.ParamsEntry | generate_recommendations.py:82-90 | Entry `j` of `params` is one of the three entries of feature `j / 3`. |
| RecommendationProperties.KeyNameInjective | generate_recommendations.py:88-90 | Different keys have different names, so no assignment overwrites another feature's entry. |
| RecommendationProperties.ParamsKeysDistinct | generate_recommendations.py:82-90 | With distinct features, all key names in `params` are distinct. |
| RecommendationProperties.FormatAllAppend | generate_recommendations.py:199-252 | The loop handles each item on its own: formatting a concatenation concatenates the results. |
| RecommendationProperties.EmittedIff | generate_recommendations.py:199-252 | A pair is emitted exactly when some item of `params` formats to it. |
| RecommendationProperties.ExcludedByFeature | generate_recommendations.py:201-215 | A key is on the skip list exactly when its feature is key, mode, time_signature or popularity. |
| RecommendationProperties.ExcludedListShape | generate_recommendations.py:201-214 | The skip list is the `min_`, `max_` and `target_` keys of those four features, three by three. |
| RecommendationProperties.EmittedKeysAdmissible | generate_recommendations.py:201-222 | An emitted key is not skipped, has a declared range and comes from `params`. |
| RecommendationProperties.FamilyBoundsOrdered | generate_recommendations.py:92-140 | Every declared range with both bounds has its lower bound at or below its upper bound. |
| RecommendationProperties.FormatParamWithin | generate_recommendations.py:218-246 | An emitted pair keeps its key, its value was not `None`, and the value lies in the declared range. |
| RecommendationProperties.EmittedWithinBounds | generate_recommendations.py:236-242 | Every emitted value lies within the declared bounds of its key. |
| RecommendationProperties.ConversionOutcome | generate_recommendations.py:227-246 | `None` is dropped. NaN is kept as `nan` when rounded, and dropped by `int`. A number is truncated or rounded, then clamped. |
| RecommendationProperties.UrlShape | generate_recommendations.py:255-258 | The URL is the endpoint, `?`, the three fixed parameters, then the emitted pairs, all `&`-separated. |
| RecommendationProperties.FixedQueryJoin | generate_recommendations.py:194 | The fixed prefix is the endpoint, `?`, and `limit`, `market` and `seed_genres` joined by `&`. |
| RecommendationProperties.JoinThree | generate_recommendations.py:194 | Joining three pieces puts `&` between them. |
| RecommendationProperties.UrlQuerySplits | generate_recommendations.py:255-258 | Without `&` in the inputs, splitting the query on `&` gives the fixed parameters and then each emitted pair. |
| RecommendationProperties.ValueTextNoAmpersand | generate_recommendations.py:242 | A rendered value never holds `&`. |
| RecommendationProperties.RenderNoAmpersand | generate_recommendations.py:242 | A rendered pair holds `&` only if its feature name does. |
| RecommendationProperties.WholeTextValue | generate_recommendations.py:242 | A printed int reads back as itself. |
| RecommendationProperties.TenthsTextValue | generate_recommendations.py:232-242 | A value rounded to tenths prints as sign, digits, a point and one digit, and reads back as the same number of tenths. |
| RecommendationProperties.TenthsTextOf | generate_recommendations.py:242 | A sign, the digits of a whole number, a point and one digit read back as that many tenths. |
| RecommendationProperties.AdmittedNumber | generate_recommendations.py:229-239 | A number under an admitted key is always emitted, converted and then clamped. |
| RecommendationProperties.EnergyParam | generate_recommendations.py:232-242 | An energy value that rounds into [0, 1] is emitted as it rounds. |
| RecommendationProperties.EnergyFormatted | generate_recommendations.py:82-252 | Energy statistics 0.2, 0.9 and median 0.5 yield three pairs of 2, 9 and 5 tenths. |
| RecommendationProperties.TenthsBelowOne | generate_recommendations.py:242 | Tenths below one print as `0.` and one digit. |
| RecommendationProperties.EnergyRendered | generate_recommendations.py:242 | One energy pair prints as its key, `=0.` and its digit. |
| RecommendationProperties.EnergyRenderedAll | generate_recommendations.py:242 | The energy pairs print as `min_energy=0.2`, `max_energy=0.9` and `target_energy=0.5`. |
| RecommendationProperties.EnergyExample | generate_recommendations.py:74-258 | For genre soul and market BR, the whole URL ends in those three pairs after the fixed prefix. |
| RecommendationProperties.LoudnessExample | generate_recommendations.py:232-242 | A loudness maximum of -1.1 stays -1.1, below the upper bound 0, and prints as `max_loudness=-1.1`. |
| RecommendationProperties.LoudnessClampedExample | generate_recommendations.py:232-242 | A loudness maximum of 0.3 is above the upper bound 0, is replaced by the int bound and prints as `max_loudness=0`. |
| RecommendationProperties.TargetEntry | generate_recommendations.py:85-90 | The entry under `target_<f>` holds the median of `f`. |
| RecommendationProperties.NoneTempoExample | generate_recommendations.py:244-246 | A `None` target tempo is dropped rather than printed as `None`. |
| SearchTracks.IdsText | search_tracks.py:121-123 | The id string is as long as the ids plus one comma each. |
| SearchTracks.BuildIdsString | search_tracks.py:52-55 | The loop builds every id followed by a comma, in key order. |
| SearchTracks.IdsTextJoin | search_tracks.py:121-123 | The id string is the ids and a final empty piece joined by commas. |
| SearchTracks.IdsTextSplits | search_tracks.py:121-125 | Splitting the id string on commas gives the ids back in order, then an empty piece. |
| SearchTracks.Whitelist | search_tracks.py:140-144 | A record's stored features are exactly the listed features it has, each with the record's value. |
| SearchTracks.AudioFeatureNamesDistinct | search_tracks.py:109-119 | The nine listed features are distinct. |
| SearchTracks.CopyFeatures | search_tracks.py:140-144 | The inner loop stores the whitelist of the record. |
| SearchTracks.AudioFeatureTable | search_tracks.py:106-146 | `playlist_info` when the loop completes: id `j` holds the whitelist of record `j` when that record is truthy; IndexError when a truthy record has no id. |
| SearchTracks.StoreRecord | search_tracks.py:135-144 | One loop step stores a truthy record under its id and moves the table one position on, or reports the IndexError of a truthy record with no id. |
| SearchTracks.FilledSkip | search_tracks.py:135-139 | A falsy record leaves the table as it was. |
| SearchTracks.FilledStore | search_tracks.py:140-144 | Storing a truthy record under its own id is one step of the table. |
| SearchTracks.OverflowAt | search_tracks.py:135-139 | A truthy record past the last id makes the whole call fail with IndexError. |
| SearchTracks.MultipleAudioFeat | search_tracks.py:106-146 | The URL carries the id string. The table is `AudioFeatureTable`: each id's whitelisted record, or IndexError. |
| SearchTracks.FilledStep | search_tracks.py:135-144 | Storing record `i` moves the filled table one position on. |
| SearchTracks.FilledDone | search_tracks.py:135-146 | When no truthy record overflows the ids, the loop's final table is the specified table. |
| SearchTracks.FilledDistinct | search_tracks.py:106 | The table keeps one entry per id, in id order, with distinct keys. |
| SearchTracks.AudioFeatureKeys | search_tracks.py:106-146 | The result has exactly the ids as keys, in order. |
| SearchTracks.FeatureEntryContents | search_tracks.py:135-144 | A feature and value sit under id `j` exactly when record `j` is truthy, has the feature among the nine, and holds that value. |
| SearchTracks.AudioFeatureFails | search_tracks.py:135-139 | The call fails exactly when a truthy record has no id at its position. |
| SearchTracks.FirstFailure | search_tracks.py:66-68 | No failure exactly when every position below the bound reads cleanly. |
| SearchTracks.AllTo | search_tracks.py:65-73 | Every id becomes a key, in order, and each holds the same value. |
| SearchTracks.AllToSnoc | search_tracks.py:65-73 | One more id adds its own entry, with the same value, at the end. |
| SearchTracks.SongTable | search_tracks.py:65-73 | `songs` as the nested loops leave it: every id holds the last track read, or the first failure among the tracks read. |
| SearchTracks.FirstFailureAt | search_tracks.py:66-68 | The first failing position decides the error for every longer prefix. |
| SearchTracks.MultipleSongInfo | search_tracks.py:50-75 | The URL carries the id string, and `songs` is `SongTable` as the nested loops leave it. |
| SearchTracks.SongTableSucceeds | search_tracks.py:65-73 | The call succeeds exactly when each of the first `len(ids)` tracks is present and has an artist. |
| SearchTracks.SongTableLastTrack | search_tracks.py:65-73 | Every id is a key, in order, and every id holds the name and first artist of track `len(ids) - 1`. |
| SearchTracks.SongTableMismatch | search_tracks.py:65-73 | For ids x and y with two different tracks, x gets the second track's name, not its own. |
| SearchTracks.IntendedSongTable | search_tracks.py:38-49 | What the docstring describes: each id paired with the name and first artist of its own track. |
| SearchTracks.IntendedSongTableOwnTrack | search_tracks.py:65-73 | In the corrected table, id `i` holds track `i`'s name and first artist. It fails on the same inputs as the original. |
| PlaylistData.GetPlaylistTracks | fetch_playlist_data.py:30-40 | The URL names the playlist, and `song_id_pop` is `Lookup` of the items. |
| PlaylistData.Lookup | fetch_playlist_data.py:34-38 | `song_id_pop` after the items: each id with the popularity and name of its track, or the TypeError of the first `null` track. |
| PlaylistData.LookupRaisedStays | fetch_playlist_data.py:34-38 | An error on a prefix of the items is the error of the whole call. |
| PlaylistData.LookupFails | fetch_playlist_data.py:34-38 | The lookup raises exactly when some item's track is `null`, and then it raises TypeError. |
| PlaylistData.LookupGet | fetch_playlist_data.py:34-38 | Each id maps to the popularity and name of the last item carrying it, and keys are distinct. |
| PlaylistData.PlaylistTable.constructor | fetch_playlist_data.py:52 | The table holds the playlist's per-track maps as given. |
| PlaylistData.PlaylistTable.MergeLookup | fetch_playlist_data.py:82-86 | The maps become `Merged(old maps, lookup)`. |
| PlaylistData.PlaylistTable.WriteRows | fetch_playlist_data.py:95-99 | The lines written are `Lines(tracks)`, up to the first ValueError. |
| PlaylistData.Merged | fetch_playlist_data.py:82-86 | The per-track maps after the merge loop over the lookup. |
| PlaylistData.RowOf | fetch_playlist_data.py:97-98 | `{"id": track_id}` updated with the track's fields, in order. |
| PlaylistData.Line | fetch_playlist_data.py:67-99 | What `DictWriter.writerow` writes: the row's value per header field, empty where it has none; a field outside the header raises ValueError. |
| PlaylistData.Lines | fetch_playlist_data.py:95-99 | The lines written for the tracks, in order, up to the first failure, and that failure. |
| PlaylistData.BuildRow | fetch_playlist_data.py:97-98 | The row is `{"id": track_id}` updated with the track's fields. |
| PlaylistData.LinesFailureStays | fetch_playlist_data.py:95-99 | A failure on a prefix of the tracks is the failure of the whole write. |
| PlaylistData.GetSnoc | fetch_playlist_data.py:35 | An entry appended at the end is found only when no earlier entry has its key. |
| PlaylistData.MergedKeys | fetch_playlist_data.py:82-86 | The merge adds no track and removes none. |
| PlaylistData.MergedGet | fetch_playlist_data.py:82-86 | A track in the lookup gets its name and popularity assigned. Any other track is unchanged. |
| PlaylistData.UpdatedFields | fetch_playlist_data.py:85-86 | Assigning `name` and `popularity` changes those two fields and no other. |
| PlaylistData.RowOfGet | fetch_playlist_data.py:97-98 | A row holds the track's own fields, and its id under `id` unless the track has an `id` field. |
| PlaylistData.RowOfKeys | fetch_playlist_data.py:97-98 | A row's fields are `id` and the track's own. |
| PlaylistData.RowWritten | fetch_playlist_data.py:91-99 | A row whose fields are all header fields is written. |
| PlaylistData.LinesStep | fetch_playlist_data.py:95-99 | After tracks that were all written, one more writable track adds exactly its own line and no failure. |
| PlaylistData.LinesComplete | fetch_playlist_data.py:95-99 | When every field is a header field, one line per track is written, in order. |
| PlaylistData.LineCell | fetch_playlist_data.py:67-80 | Column `h` of a written line is the track's value for header `h`. `id` holds the track id unless overridden. |
| MoodLists.DedupedAppend | classify_mood.py:89-102 | Going through two lists of ids in turn is going through their concatenation. |
| MoodLists.Deduped | classify_mood.py:100-102 | A list after appending-if-absent each id in turn. |
| MoodLists.DedupedContents | classify_mood.py:100-102 | The start list stays in front. An id is kept exactly when it was there or was read. No id appears twice. The length is bounded by the ids read. |
| MoodLists.IndexOf | classify_mood.py:100-102 | The position found is the first occurrence. |
| MoodLists.DedupedOrder | classify_mood.py:100-102 | Ids come out in the order of their first reading. |
| MoodLists.IndexOfPrefix | classify_mood.py:100-102 | Reading more ids does not move an id's first occurrence. |
| MoodLists.OccursBefore | classify_mood.py:100-102 | An occurrence before `k` is in the first `k` ids. |
| MoodClassifier.Take3 | classify_mood.py:96-97 | A response gives its first three item ids, or IndexError when it has fewer than three. |
| MoodClassifier.ConcatAll | classify_mood.py:89-97 | The concatenated reads succeed exactly when every read succeeds. |
| MoodClassifier.ConcatAllSnoc | classify_mood.py:89-97 | One more read extends the result or fails it. |
| MoodClassifier.ConcatAllFails | classify_mood.py:89-97 | A failing read fails everything after it, with the same error. |
| MoodClassifier.ConcatAllFailsFrom | classify_mood.py:89-97 | A failure on a prefix is the failure of every longer prefix. |
| MoodClassifier.MarketIdsSnoc | classify_mood.py:90-97 | One more market extends a keyword's ids or fails them. |
| MoodClassifier.KeywordIdsSnoc | classify_mood.py:89-97 | One more keyword extends a mood's ids or fails them. |
| MoodClassifier.MarketIdsFails | classify_mood.py:90-97 | A failing market prefix fails the keyword. |
| MoodClassifier.KeywordIdsFails | classify_mood.py:89-97 | A failing keyword prefix fails the mood. |
| MoodClassifier.MoodTableFails | classify_mood.py:85-102 | A failing mood prefix fails the whole call. |
| MoodClassifier.AppendFirstThree | classify_mood.py:96-102 | One response appends items 0 to 2 when absent, or raises IndexError when it is short. |
| MoodClassifier.CollectMood | classify_mood.py:87-102 | One mood's loops yield `MoodIds` of its keywords. |
| MoodClassifier.MoodIds | classify_mood.py:87-102 | The ids a mood collects, duplicates dropped, or the exception of its first short response. |
| MoodClassifier.MoodTable | classify_mood.py:85-102 | `mood_track_ids` after the moods, in order, or the first IndexError. |
| MoodClassifier.MoodTableKeys | classify_mood.py:85-87 | The result's keys are the moods, in order. |
| MoodClassifier.GetMoodSongs | classify_mood.py:82-107 | `mood_track_ids` is `MoodTable` of the terms. |
| MoodClassifier.Names | classify_mood.py:179 | The `Song Name` column lists each row's name in row order. |
| MoodClassifier.NewSongs | classify_mood.py:179 | The rows of a frame whose name is not among the file's names, in order. |
| MoodClassifier.MergeRows | classify_mood.py:179-183 | The file's rows, then the new songs. |
| MoodClassifier.WriteAll | classify_mood.py:154-187 | The file after the frames, in order: created by the first, then merged with each later one. |
| MoodClassifier.WriteCsv | classify_mood.py:154-187 | The file ends as `WriteAll` of the frames, and every write uses mode `"w"`. |
| MoodClassifier.Sections | classify_mood.py:199-200 | The `Section` column lists each row's section in row order. |
| MoodClassifier.RowsIn | classify_mood.py:200 | The rows of one section, in order. |
| MoodClassifier.LoadCsv | classify_mood.py:198-200 | One group per distinct section, in order of first appearance, holding that section's rows. |
| MoodProperties.ConcatAllContents | classify_mood.py:89-97 | When every read yields `c` ids, the result holds `c` per read. An id is in it exactly when some read gave it. |
| MoodProperties.ConcatAllErrorKind | classify_mood.py:96-97 | When every failing read raises IndexError, so does the concatenation. |
| MoodProperties.MarketIdsShort | classify_mood.py:90-97 | A keyword fails exactly when one of its nine searches returns fewer than three items, with IndexError. |
| MoodProperties.MoodIdsFails | classify_mood.py:89-97 | A mood fails exactly when one of its searches is short, with IndexError. |
| MoodProperties.MarketIdsContents | classify_mood.py:90-97 | A keyword reads 27 ids, each one of the first three items of one of its searches. |
| MoodProperties.KeywordIdsContents | classify_mood.py:89-97 | Before deduplication a mood reads 27 ids per keyword, and an id is read exactly when one of its searches returned it among the first three. |
| MoodProperties.MoodIdsContents | classify_mood.py:87-102 | A mood's list has no duplicates and at most `3 · keywords · 9` ids. An id is in it exactly when some search of the mood returned it among the first three. The list follows first-reading order. |
| MoodProperties.MoodTableOk | classify_mood.py:85-102 | The call succeeds exactly when every mood succeeds. |
| MoodProperties.MoodTableGet | classify_mood.py:85-102 | Each mood holds its own list. |
| MoodProperties.MoodTableStep | classify_mood.py:85-102 | A successful table is the table of the earlier moods with the last mood's list assigned. |
| MoodProperties.NewSongsMembers | classify_mood.py:179 | A row is new exactly when it is in the frame and its name is not already in the file. |
| MoodProperties.MergeRowsShape | classify_mood.py:179-183 | The existing rows stay in front, unchanged, followed by exactly the new songs. |
| MoodProperties.DuplicatesInFrameKept | classify_mood.py:179-183 | A song repeated inside a frame is written twice. Only names already in the file are filtered. |
| MoodProperties.FirstWrite | classify_mood.py:162-164 | With no file, the first frame is written as it is. |
| MoodProperties.WriteAllKeepsRows | classify_mood.py:166-185 | Once the file exists, later frames never remove or reorder its rows. |
| MoodProperties.RowsInMembers | classify_mood.py:200 | A section's rows are exactly the rows that carry it. |
| MoodProperties.LoadCsvKeys | classify_mood.py:198-200 | The groups are keyed by the distinct sections, in order of first appearance. |
| MoodProperties.LoadCsvHasSection | classify_mood.py:199-200 | A section has a group exactly when some row carries it. |
| MoodProperties.LoadCsvGroupRows | classify_mood.py:199-200 | Each group holds exactly the rows of its section. |
| MoodProperties.LoadCsvRowGroup | classify_mood.py:199-200 | Every row is in the group of its own section. |
| MoodProperties.DefaultTerms | classify_mood.py:24-70 | The default terms have twelve moods of five keywords, so each mood collects at most 135 ids. |
| MoodProperties.DefaultMoodsDistinct | classify_mood.py:24-67 | The twelve default moods are distinct. |
| Artists.TopArtists | fetch_artists.py:21-37 | One record per returned artist, in response order, with name, id, popularity and the genres joined by `", "`. |
| Artists.Spaced | fetch_artists.py:33 | The pieces a `", "`-joined list splits into on `,`: the first element, then each later element behind one space. |
| Artists.SpacedSnoc | fetch_artists.py:33 | One more element adds one spaced piece at the end. |
| Artists.JoinCommaSpace | fetch_artists.py:33 | Joining with `", "` is joining the spaced pieces with `,`. |
| Artists.GenresRecoverable | fetch_artists.py:33 | Without commas in the genres, the `Genres` cell splits back into the genre list. |
| Artists.Flatten | fetch_artists.py:76-83 | All related names, main artist after main artist, each group in response order. |
| Artists.RelatedGroups | fetch_artists.py:71-74 | One response per main artist, in table order, fetched from that artist's related-artists URL. |
| Artists.GetRelatedArtists | fetch_artists.py:69-86 | The names are flattened in main-artist order, then in response order. An empty table raises KeyError. |
| Artists.Append | fetch_artists.py:103-105 | A name goes into an empty cell bare, and into a non-empty one behind `", "`. |
| Artists.Fill | fetch_artists.py:103-105 | A cell after adding each name in turn. |
| Artists.Bucket | fetch_artists.py:96-106 | The names that land in cell `k`: positions `20k` to `20k + 19`. |
| Artists.Cells | fetch_artists.py:99-105 | The column always has one cell per row. |
| Artists.ArtistTable.constructor | fetch_artists.py:36-37 | The table holds the records and no `Related Artists` column yet. |
| Artists.ArtistTable.OrderRelArtists | fetch_artists.py:92-105 | Every cell starts as `""` and name `idx` goes into cell `idx // 20`. Rows are untouched. KeyError is raised exactly when the table or the name list is empty, or a name lies past the last bucket. Cells filled before the error stay. |
| Artists.FillJoin | fetch_artists.py:103-105 | A cell whose first name is non-empty is the `", "`-join of its names, with no leading separator. |
| Artists.FillEmptyHead | fetch_artists.py:103-105 | An empty first name leaves no trace in the cell. |
| Artists.CellsBucket | fetch_artists.py:101-105 | Cell `k` holds exactly names `20k` to `20k + 19`, in order. |
| Artists.FlattenLength | fetch_artists.py:76-83 | With twenty related artists each, there are twenty names per main artist. |
| Artists.FlattenBucket | fetch_artists.py:76-102 | With twenty related artists each, bucket `k` is exactly main artist `k`'s list. |
| Artists.RelatedCell | fetch_artists.py:71-105 | With twenty related artists each, each cell is the `", "`-join of that artist's own related names. |
| PlaylistCreation.ProjectTracks | create_playlist_from_analysis.py.py:51-58 | The three columns have one entry per track. Entry `i` is track `i`'s name, first artist and album. A track without artists raises IndexError. |
| PlaylistCreation.PlaylistName | create_playlist_from_analysis.py.py:35 | `<genre>-playlist-(<market>)`. |
| PlaylistCreation.Description | create_playlist_from_analysis.py.py:36 | `A <genre> playlist tailored to your preferences.` |
| PlaylistCreation.CreateUrl | create_playlist_from_analysis.py.py:32-42 | The users URL of the user id, then the name, description and `public=True` query fields. |
| PlaylistCreation.CreatePlaylist | create_playlist_from_analysis.py.py:21-61 | The URL is `CreateUrl`. The table succeeds exactly when every track has an artist, and otherwise raises IndexError. Its three columns have one entry per track: track `i`'s name, first artist and album. |
| PlaylistCreation.NameAndDescriptionDetermineChoice | create_playlist_from_analysis.py.py:35-36 | Equal names and descriptions imply equal genre and market. |
| PlaylistCreation.CreateUrlFields | create_playlist_from_analysis.py.py:32-42 | Without `&` in the inputs, the URL splits on `&` into the name, description and `public=True` fields. |
| SpotifyAuth.EncodeChar | init_spotify_api.py:26 | A character takes one to four bytes, and one byte exactly when it is ASCII. |
| SpotifyAuth.Utf8 | init_spotify_api.py:26 | The encoding takes between one and four bytes per character. |
| SpotifyAuth.DecodeUtf8 | init_spotify_api.py:26 | Strict UTF-8 decoding, the inverse the round trip is proved against: the string the bytes spell, or `None`. |
| SpotifyAuth.DecodeChar | init_spotify_api.py:26 | A decoded character consumes between one byte and what is left. |
| SpotifyAuth.TwoByteValue | init_spotify_api.py:26 | A two-byte sequence carries a value below 0x800. |
| SpotifyAuth.ThreeByteValue | init_spotify_api.py:26 | A three-byte sequence carries a value below 0x10000. |
| SpotifyAuth.FourByteValue | init_spotify_api.py:26 | A four-byte sequence carries a value below 0x200000. |
| SpotifyAuth.DecodeEncodedChar | init_spotify_api.py:26 | Decoding reads back one encoded character and its length. |
| SpotifyAuth.DecodeTwo | init_spotify_api.py:26 | The same, for two-byte characters. |
| SpotifyAuth.DecodeThree | init_spotify_api.py:26 | The same, for three-byte characters. |
| SpotifyAuth.DecodeFour | init_spotify_api.py:26 | The same, for four-byte characters. |
| SpotifyAuth.Utf8RoundTrip | init_spotify_api.py:26 | UTF-8 decoding gives back the encoded string. |
| SpotifyAuth.Utf8Ascii | init_spotify_api.py:26 | ASCII credentials encode to one byte per character, equal to its code. |
| SpotifyAuth.SextetChar | init_spotify_api.py:27 | No alphabet character is the padding `=`. |
| SpotifyAuth.CharSextet | init_spotify_api.py:27 | A character of the alphabet stands for a value below 64. |
| SpotifyAuth.SextetRoundTrip | init_spotify_api.py:27 | The alphabet table is inverted by reading it back. |
| SpotifyAuth.Base64Encode | init_spotify_api.py:27 | `n` bytes encode to `4·⌈n/3⌉` characters. |
| SpotifyAuth.Base64Decode | init_spotify_api.py:27 | Strict base64 decoding, the inverse the round trip is proved against: groups of four alphabet characters, the last possibly padded; `None` otherwise. |
| SpotifyAuth.Group | init_spotify_api.py:27 | Three bytes give four characters. |
| SpotifyAuth.SextetsRejoin | init_spotify_api.py:27 | The bits of three bytes survive their split into four sextets. |
| SpotifyAuth.Base64RoundTrip | init_spotify_api.py:27 | Base64 decoding gives back the encoded bytes. |
| SpotifyAuth.DecodeLastOne | init_spotify_api.py:27 | A final single byte, padded with `==`, decodes back. |
| SpotifyAuth.DecodeLastTwo | init_spotify_api.py:27 | A final two bytes, padded with `=`, decode back. |
| SpotifyAuth.DecodeGroup | init_spotify_api.py:27 | A full group of four characters decodes to its three bytes, in front of the rest. |
| SpotifyAuth.Base64Alphabet | init_spotify_api.py:27 | Every output character is in the alphabet, or is padding in the last two positions. |
| SpotifyAuth.AuthString | init_spotify_api.py:22-25 | `id:secret` when both variables are set; TypeError when either is `None`. |
| SpotifyAuth.BasicAuthorization | init_spotify_api.py:26-34 | `Basic ` followed by the base64 of the UTF-8 bytes of `id:secret`. |
| SpotifyAuth.TokenRequest | init_spotify_api.py:22-38 | The token request goes to the token URL. It carries exactly `Authorization` and the form `Content-Type`, with body `grant_type=client_credentials`. It fails with TypeError exactly when a credential is unset. |
| SpotifyAuth.BasicLength | init_spotify_api.py:26-34 | The Basic header is `6 + 4·⌈n/3⌉` characters long for `n` credential bytes. |
| SpotifyAuth.CredentialsRecoverable | init_spotify_api.py:25-36 | Stripping `Basic `, decoding base64 and then UTF-8 gives back `id:secret`. Its first colon separates an id without one from the secret. |
| SpotifyAuth.AuthHeaders | init_spotify_api.py:59 | `get_auth_headers`: one `Authorization` header carrying `Bearer ` and the token. |
| SpotifyAuth.AuthHeadersCarryToken | init_spotify_api.py:59 | The headers hold only `Authorization`, whose value is `Bearer ` followed by the token. |
| SpotifyAuth.UserId | init_spotify_api.py:73-74 | An unset profile link raises TypeError; otherwise there is a result. |
| SpotifyAuth.SliceFrom | init_spotify_api.py:74 | Python's `s[start:]`, a negative start counting from the end and clipped at both ends. |
| SpotifyAuth.UserIdSuffix | init_spotify_api.py:74 | The user id is the link's last sixteen characters, or the whole link when shorter. |
| SpotifyAuth.UserIdIdempotent | init_spotify_api.py:74 | Cutting the id from an id changes nothing. |

## Findings

| source | as written | input that shows it | evidently intended | confidence | as-written member | corrected member |
|---|---|---|---|---|---|---|
| search_tracks.py:65-73 | The inner loop over `k` assigns every track to `songs[id]` in turn, so every id ends up holding the last track read. | ids `x` and `y`, with two present tracks of different names | Id `i` holds the name and first artist of track `i`, as the docstring says (lines 47-48). | high, not executed | SearchTracks.SongTableMismatch | SearchTracks.IntendedSongTableOwnTrack |

## Left out

- HTTP GET and POST calls, JSON decoding and `time.sleep` pauses are network I/O. Their results are inputs of the model.
- Searches are a function from URL to items, which assumes a search answers the same URL the same way each time.
- The interactive `input()` loops of `choose_genre_seed` block on a human.
- analyze_playlist_audio_features.py is left out. Its quartiles come from pandas floating-point interpolation, and its plots are graphics. The statistics table is an input.
- Plotting in fetch_artists.py (`plot_popularity`) and all printing are output only.
- CSV files and pandas DataFrames are modelled as sequences of row records. Reading a CSV back with dtype inference is not modelled.
- Float `repr` in URLs is not modelled, beyond one decimal digit: `-0.0` and exponent forms.
- Infinite statistics are not values of the model (`Recommendations.Raw` has none). Under an integer feature, `int(inf)` raises OverflowError. The `except (ValueError, TypeError)` at generate_recommendations.py:244 does not catch it, so `genre_recommendations` aborts with that uncaught error. The model excludes such inputs.
- Rounding works on exact reals, not binary floats.
- The textual entries of `parameter_ranges` and the `str(value)` branch are unreachable, because every key of `params` is a `min_`, `max_` or `target_` feature key.
- `to_pd` (classify_mood.py:110-139) cannot run as written: it passes a list where `.keys()` is called, and unpacks a dict into two names.
- The `section_positions` loop (classify_mood.py:168-174) has no effect on the output.
- `single_song_info` only performs a network call.
- Module-level script invocations are not modelled.
- `get_token`'s POST and the token it reads from the response are not modelled.
- `requests` percent-encodes spaces in the playlist-creation URL. The model keeps the URL as the f-string builds it.
- Python strings may hold lone surrogates, which `encode("utf-8")` rejects. Dafny characters are Unicode scalar values, so that error is not modelled.
- Artists.ArtistTable.OrderRelArtists: the row labels are the default 0-based index that `top_artists` produces; a table with other labels is not modelled.
- Artists.RelatedCell, Artists.FlattenBucket, Artists.FlattenLength: these assume that every main artist has exactly twenty related artists, as the comment at fetch_artists.py:76 expects. The same comment records a run with 599 names, one short. `order_rel_artists` still cuts the names into fixed buckets of twenty (fetch_artists.py:101-105). So after a short group, every later cell holds names of the wrong main artist. `Artists.ArtistTable.OrderRelArtists` and `Artists.CellsBucket` model that fixed cutting for any number of names; only the per-artist reading needs the assumption.
