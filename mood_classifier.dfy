/** classify_mood.py: the per-mood collection of track ids from keyword
    searches in nine markets (`get_mood_songs`), the name-keyed merge of a
    mood's rows into the CSV file (`write_csv`) and the split of the file's rows
    by section (`load_csv`). Searches are replaced by a function from request
    URL to the ids of the returned items; the file by its data rows, `None`
    when it does not exist. */
module MoodClassifier {
  import opened Wrappers
  import opened Dict
  import opened MoodLists

  // ---------------------------------------------------------------------------
  // Constants

  const MoodSearchTerms: Dict<string, seq<string>> := [
    ("Sunset Serenade", ["calm", "serene", "acoustic", "soft rock", "easy listening"]),
    ("Starry Night Whispers", ["ambient", "chill", "soft electronic", "introspective", "dream pop"]),
    ("Urban Jungle Rhythms", ["upbeat", "electronic", "hip hop", "urban pop", "dance"]),
    ("Bohemian Rhapsodies", ["eclectic", "alternative", "folk", "indie", "world music"]),
    ("Retro Futurism", ["synthwave", "80s pop", "electronic", "vaporwave", "retro"]),
    ("Ethereal Echoes", ["ambient", "ethereal", "dreamy", "chillstep", "airy"]),
    ("Vintage Vibes", ["vintage", "retro", "jazz", "soul", "oldies"]),
    ("Cosmic Contemplations", ["space rock", "ambient", "chillstep", "electronic", "experimental"]),
    ("Groovy Getaway", ["tropical house", "reggae", "samba", "beach", "summer hits"]),
    ("Rainy Day Reverie", ["melancholic", "piano", "soft jazz", "acoustic", "chill"]),
    ("Soulful Spirits", ["soul", "r&b", "gospel", "blues", "jazz"]),
    ("Electro Enigma", ["electronic", "edm", "house", "techno", "trance"])
  ]

  const MarketList: seq<string> := ["US", "ES", "JP", "CN", "SA", "FR", "BR", "NL", "ZA"]

  const SearchUrl := "https://api.spotify.com/v1/search"

  /** Line 92. */
  function QueryUrl(keyword: string, market: string): string
  {
    SearchUrl + "?q=" + keyword + "&type=track&market=" + market + "&limit=3"
  }

  // ---------------------------------------------------------------------------
  // get_mood_songs

  /** Lines 96-97: the ids of items 0, 1 and 2; a shorter list raises IndexError. */
  function Take3(items: seq<string>): (r: Result<seq<string>>)
    ensures r.Ok? <==> |items| >= 3
    ensures r.Raised? ==> r.error == IndexError
    ensures r.Ok? ==> r.value == [items[0], items[1], items[2]]
  {
    if |items| < 3 then Raised(IndexError) else Ok(items[..3])
  }

  /** The ids of several steps, in order, or the first step's exception. */
  function ConcatAll(steps: seq<Result<seq<string>>>): (r: Result<seq<string>>)
    ensures r.Ok? <==> forall i :: 0 <= i < |steps| ==> steps[i].Ok?
  {
    if steps == [] then Ok([])
    else
      var before := ConcatAll(steps[..|steps| - 1]);
      var last := steps[|steps| - 1];
      if before.Raised? then before
      else if last.Raised? then last
      else Ok(before.value + last.value)
  }

  /** The ids read for one keyword, market by market. */
  function MarketIds(keyword: string, markets: seq<string>, results: string -> seq<string>): Result<seq<string>>
  {
    ConcatAll(seq(|markets|, m requires 0 <= m < |markets| => Take3(results(QueryUrl(keyword, markets[m])))))
  }

  /** The ids read for a mood, keyword by keyword. */
  function KeywordIds(keywords: seq<string>, results: string -> seq<string>): Result<seq<string>>
  {
    ConcatAll(seq(|keywords|, k requires 0 <= k < |keywords| => MarketIds(keywords[k], MarketList, results)))
  }

  /** `mood_track_ids` after the moods of `terms`, or the IndexError. */
  function MoodTable(terms: Dict<string, seq<string>>, results: string -> seq<string>): Result<Dict<string, seq<string>>>
  {
    if terms == [] then Ok([])
    else
      var before := MoodTable(terms[..|terms| - 1], results);
      var last := terms[|terms| - 1];
      var ids := MoodIds(last.1, results);
      if before.Raised? then before
      else if ids.Raised? then Raised(ids.error)
      else Ok(Set(before.value, last.0, ids.value))
  }

  /** One more step of `ConcatAll`. */
  lemma ConcatAllSnoc(steps: seq<Result<seq<string>>>, n: nat)
    requires n < |steps|
    ensures ConcatAll(steps[..n + 1]) ==
      if ConcatAll(steps[..n]).Raised? then ConcatAll(steps[..n])
      else if steps[n].Raised? then steps[n]
      else Ok(ConcatAll(steps[..n]).value + steps[n].value)
  {
    assert steps[..n + 1][..n] == steps[..n];
  }

  /** A failing step fails the whole concatenation. */
  lemma ConcatAllFails(steps: seq<Result<seq<string>>>, n: nat)
    requires n <= |steps| && ConcatAll(steps[..n]).Raised?
    ensures ConcatAll(steps).Raised? && ConcatAll(steps).error == ConcatAll(steps[..n]).error
  {
    if n < |steps| {
      ConcatAllFailsFrom(steps, n, |steps|);
    }
    assert steps[..|steps|] == steps;
  }

  lemma {:induction false} ConcatAllFailsFrom(steps: seq<Result<seq<string>>>, n: nat, m: nat)
    requires n <= m <= |steps| && ConcatAll(steps[..n]).Raised?
    ensures ConcatAll(steps[..m]) == ConcatAll(steps[..n])
  {
    if m > n {
      ConcatAllFailsFrom(steps, n, m - 1);
      ConcatAllSnoc(steps, m - 1);
    }
  }

  /** One more market of `MarketIds`. */
  lemma MarketIdsSnoc(keyword: string, markets: seq<string>, b: nat, results: string -> seq<string>)
    requires b < |markets|
    ensures MarketIds(keyword, markets[..b + 1], results) ==
      var before := MarketIds(keyword, markets[..b], results);
      var step := Take3(results(QueryUrl(keyword, markets[b])));
      if before.Raised? then before else if step.Raised? then step else Ok(before.value + step.value)
  {
    var steps := seq(|markets|, m requires 0 <= m < |markets| => Take3(results(QueryUrl(keyword, markets[m]))));
    ConcatAllSnoc(steps, b);
    assert steps[..b + 1] == seq(b + 1, m requires 0 <= m < b + 1 => Take3(results(QueryUrl(keyword, markets[..b + 1][m]))));
    assert steps[..b] == seq(b, m requires 0 <= m < b => Take3(results(QueryUrl(keyword, markets[..b][m]))));
  }

  /** One more keyword of `KeywordIds`. */
  lemma KeywordIdsSnoc(keywords: seq<string>, a: nat, results: string -> seq<string>)
    requires a < |keywords|
    ensures KeywordIds(keywords[..a + 1], results) ==
      var before := KeywordIds(keywords[..a], results);
      var step := MarketIds(keywords[a], MarketList, results);
      if before.Raised? then before else if step.Raised? then step else Ok(before.value + step.value)
  {
    var steps := seq(|keywords|, k requires 0 <= k < |keywords| => MarketIds(keywords[k], MarketList, results));
    ConcatAllSnoc(steps, a);
    assert steps[..a + 1] == seq(a + 1, k requires 0 <= k < a + 1 => MarketIds(keywords[..a + 1][k], MarketList, results));
    assert steps[..a] == seq(a, k requires 0 <= k < a => MarketIds(keywords[..a][k], MarketList, results));
  }

  /** A market prefix that fails makes the keyword fail. */
  lemma MarketIdsFails(keyword: string, b: nat, results: string -> seq<string>)
    requires b <= |MarketList| && MarketIds(keyword, MarketList[..b], results).Raised?
    ensures MarketIds(keyword, MarketList, results) == MarketIds(keyword, MarketList[..b], results)
  {
    var steps := seq(|MarketList|, m requires 0 <= m < |MarketList| => Take3(results(QueryUrl(keyword, MarketList[m]))));
    assert steps[..b] == seq(b, m requires 0 <= m < b => Take3(results(QueryUrl(keyword, MarketList[..b][m]))));
    ConcatAllFailsFrom(steps, b, |steps|);
    assert steps[..|steps|] == steps;
  }

  /** A keyword prefix that fails makes the mood fail. */
  lemma KeywordIdsFails(keywords: seq<string>, a: nat, results: string -> seq<string>)
    requires a <= |keywords| && KeywordIds(keywords[..a], results).Raised?
    ensures KeywordIds(keywords, results) == KeywordIds(keywords[..a], results)
  {
    var steps := seq(|keywords|, k requires 0 <= k < |keywords| => MarketIds(keywords[k], MarketList, results));
    assert steps[..a] == seq(a, k requires 0 <= k < a => MarketIds(keywords[..a][k], MarketList, results));
    ConcatAllFailsFrom(steps, a, |steps|);
    assert steps[..|steps|] == steps;
  }

  /** A mood prefix that fails makes the whole call fail. */
  lemma {:induction false} MoodTableFails(terms: Dict<string, seq<string>>, n: nat, results: string -> seq<string>)
    requires n <= |terms| && MoodTable(terms[..n], results).Raised?
    ensures MoodTable(terms, results) == MoodTable(terms[..n], results)
  {
    if n < |terms| {
      var m := |terms| - 1;
      assert terms[..m][..n] == terms[..n];
      MoodTableFails(terms[..m], n, results);
      assert terms[..m] == terms[..|terms| - 1];
    } else {
      assert terms[..n] == terms;
    }
  }

  /** The ids a mood collects, or the exception of its first short response. */
  function MoodIds(keywords: seq<string>, results: string -> seq<string>): Result<seq<string>>
  {
    var ids := KeywordIds(keywords, results);
    if ids.Raised? then Raised(ids.error) else Ok(Deduped([], ids.value))
  }

  /** Lines 96-102 for one response: items 0 to 2 appended to `list` when absent. */
  method AppendFirstThree(items: seq<string>, list: seq<string>) returns (r: Result<seq<string>>)
    ensures r == if |items| < 3 then Raised(IndexError) else Ok(Deduped(list, items[..3]))
  {
    var current := list;
    for nr := 0 to 3
      invariant nr <= |items|
      invariant current == Deduped(list, items[..nr])
    {
      if nr >= |items| {
        return Raised(IndexError);
      }
      assert items[..nr + 1][..nr] == items[..nr];
      var trackId := items[nr];
      if trackId !in current {
        current := current + [trackId];
      }
    }
    r := Ok(current);
  }

  /** Lines 87-102 for one mood. */
  method CollectMood(keywords: seq<string>, results: string -> seq<string>) returns (r: Result<seq<string>>)
    ensures r == MoodIds(keywords, results)
  {
    var url := SearchUrl;
    var list: seq<string> := [];
    for a := 0 to |keywords|
      invariant KeywordIds(keywords[..a], results).Ok?
      invariant list == Deduped([], KeywordIds(keywords[..a], results).value)
    {
      var keyword := keywords[a];
      ghost var listA := list;
      KeywordIdsSnoc(keywords, a, results);
      for b := 0 to |MarketList|
        invariant MarketIds(keyword, MarketList[..b], results).Ok?
        invariant list == Deduped(listA, MarketIds(keyword, MarketList[..b], results).value)
      {
        var market := MarketList[b];
        var queryUrl := url + "?q=" + keyword + "&type=track&market=" + market + "&limit=3";
        var items := results(queryUrl);
        MarketIdsSnoc(keyword, MarketList, b, results);
        var read := AppendFirstThree(items, list);
        if read.Raised? {
          MarketIdsFails(keyword, b + 1, results);
          KeywordIdsFails(keywords, a + 1, results);
          return Raised(IndexError);
        }
        DedupedAppend(listA, MarketIds(keyword, MarketList[..b], results).value, items[..3]);
        list := read.value;
      }
      assert MarketList[..|MarketList|] == MarketList;
      DedupedAppend([], KeywordIds(keywords[..a], results).value, MarketIds(keyword, MarketList, results).value);
    }
    assert keywords[..|keywords|] == keywords;
    r := Ok(list);
  }

  /** The moods are the keys, in order, each once. */
  lemma {:induction false} MoodTableKeys(terms: Dict<string, seq<string>>, results: string -> seq<string>)
    requires KeysDistinct(terms) && MoodTable(terms, results).Ok?
    ensures Keys(MoodTable(terms, results).value) == Keys(terms)
  {
    if terms != [] {
      var init := terms[..|terms| - 1];
      var last := terms[|terms| - 1];
      assert KeysDistinct(init);
      MoodTableKeys(init, results);
      var before := MoodTable(init, results).value;
      assert last.0 !in Keys(init) by {
        assert forall j :: 0 <= j < |init| ==> Keys(init)[j] == terms[j].0 != last.0;
      }
      SetAbsent(before, last.0, MoodIds(last.1, results).value);
      KeysAppend(before, [(last.0, MoodIds(last.1, results).value)]);
      KeysAppend(init, [last]);
      assert terms == init + [last];
    }
  }

  /** Lines 83-107, with `results` giving the ids of the items each search returns. */
  method GetMoodSongs(moodSearchTerms: Dict<string, seq<string>>, results: string -> seq<string>)
    returns (moodTrackIds: Result<Dict<string, seq<string>>>)
    requires KeysDistinct(moodSearchTerms)
    ensures moodTrackIds == MoodTable(moodSearchTerms, results)
  {
    var table: Dict<string, seq<string>> := [];
    for t := 0 to |moodSearchTerms|
      invariant MoodTable(moodSearchTerms[..t], results) == Ok(table)
    {
      var prefix := moodSearchTerms[..t];
      assert moodSearchTerms[..t + 1][..t] == prefix;
      assert KeysDistinct(prefix);
      MoodTableKeys(prefix, results);
      var (mood, searchT) := moodSearchTerms[t];
      assert mood !in Keys(table) by {
        assert forall j :: 0 <= j < t ==> Keys(prefix)[j] == moodSearchTerms[j].0 != mood;
      }
      SetAbsent(table, mood, []);
      var before := table;
      table := Set(table, mood, []);
      GetAt(moodSearchTerms, t);
      var collected := CollectMood(Get(moodSearchTerms, mood).value, results);
      if collected.Raised? {
        MoodTableFails(moodSearchTerms, t + 1, results);
        return Raised(collected.error);
      }
      SetLast(before, mood, [], collected.value);
      SetAbsent(before, mood, collected.value);
      table := Set(table, mood, collected.value);
      assert collected == MoodIds(searchT, results);
      ghost var next := moodSearchTerms[..t + 1];
      assert next[..|next| - 1] == prefix;
      assert next[|next| - 1] == (mood, searchT);
      assert MoodTable(next, results) == Ok(Set(before, mood, collected.value));
    }
    assert moodSearchTerms[..|moodSearchTerms|] == moodSearchTerms;
    moodTrackIds := Ok(table);
  }

  // ---------------------------------------------------------------------------
  // write_csv

  /** A row of a mood frame and of the CSV file. */
  datatype MoodRow = MoodRow(section: string, songName: string, artistName: string)

  /** The header line, as it would read back as a data row if written in append mode. */
  const HeaderRow := MoodRow("Section", "Song Name", "Artist Name")

  /** The `Song Name` column. */
  function Names(rows: seq<MoodRow>): (r: seq<string>)
    ensures |r| == |rows| && forall i :: 0 <= i < |rows| ==> r[i] == rows[i].songName
  {
    if rows == [] then [] else Names(rows[..|rows| - 1]) + [rows[|rows| - 1].songName]
  }

  /** Line 179: the rows of `df` whose name is not among the existing names, in order. */
  function NewSongs(df: seq<MoodRow>, existing: seq<MoodRow>): seq<MoodRow>
  {
    if df == [] then []
    else
      var last := df[|df| - 1];
      NewSongs(df[..|df| - 1], existing) + if last.songName in Names(existing) then [] else [last]
  }

  /** Lines 181-183: the existing rows, then the new songs. */
  function MergeRows(existing: seq<MoodRow>, df: seq<MoodRow>): seq<MoodRow>
  {
    existing + NewSongs(df, existing)
  }

  /** What `to_csv(filepath, mode=m)` leaves in a file holding `previous`:
      mode `w` replaces it, mode `a` appends a header line and the rows. */
  function ToCsv(previous: seq<MoodRow>, mode: string, data: seq<MoodRow>): seq<MoodRow>
  {
    if mode == "w" then data else previous + [HeaderRow] + data
  }

  /** The file after one mood frame: created with the frame when absent,
      otherwise rewritten with the merged rows. */
  function WriteOne(file: Option<seq<MoodRow>>, df: seq<MoodRow>): Option<seq<MoodRow>>
  {
    if file.None? then Some(df) else Some(MergeRows(file.value, df))
  }

  /** The file after the frames of `dfs`, in order. */
  function WriteAll(file: Option<seq<MoodRow>>, dfs: Dict<string, seq<MoodRow>>): Option<seq<MoodRow>>
  {
    if dfs == [] then file else WriteOne(WriteAll(file, dfs[..|dfs| - 1]), dfs[|dfs| - 1].1)
  }

  /** Lines 154-187, with `file` the data rows of the file (`None` when there is
      no file); also returns the mode of each write. Every write truncates:
      `last_section` is reset to `None` before it is compared, so the append
      mode is always replaced by `w`. */
  method WriteCsv(dfDict: Dict<string, seq<MoodRow>>, file: Option<seq<MoodRow>>)
    returns (written: Option<seq<MoodRow>>, modes: seq<string>)
    ensures written == WriteAll(file, dfDict)
    ensures |modes| == |dfDict| && forall i :: 0 <= i < |modes| ==> modes[i] == "w"
  {
    var appendMode := "a";
    written := file;
    modes := [];
    for i := 0 to |dfDict|
      invariant written == WriteAll(file, dfDict[..i])
      invariant |modes| == i && forall j :: 0 <= j < i ==> modes[j] == "w"
    {
      assert dfDict[..i + 1][..i] == dfDict[..i];
      var (dfName, df) := dfDict[i];
      var lastSection: Option<string> := None;
      if written.None? {
        written := Some(df);
        modes := modes + ["w"];
      } else {
        var existingData := written.value;
        if lastSection != Some(dfName) {
          appendMode := "w";
        }
        var newSongs := NewSongs(df, existingData);
        existingData := existingData + newSongs;
        written := Some(ToCsv(written.value, appendMode, existingData));
        modes := modes + [appendMode];
      }
    }
    assert dfDict[..|dfDict|] == dfDict;
  }

  // ---------------------------------------------------------------------------
  // load_csv

  /** The `Section` column. */
  function Sections(rows: seq<MoodRow>): (r: seq<string>)
    ensures |r| == |rows| && forall i :: 0 <= i < |rows| ==> r[i] == rows[i].section
  {
    if rows == [] then [] else Sections(rows[..|rows| - 1]) + [rows[|rows| - 1].section]
  }

  /** `moods_raw[moods_raw["Section"] == section]`: the rows of that section, in order. */
  function RowsIn(rows: seq<MoodRow>, section: string): seq<MoodRow>
  {
    if rows == [] then []
    else
      var last := rows[|rows| - 1];
      RowsIn(rows[..|rows| - 1], section) + if last.section == section then [last] else []
  }

  /** Lines 198-200: one group per distinct section, in order of first
      appearance (`unique`), holding that section's rows. */
  function LoadCsv(rows: seq<MoodRow>): Dict<string, seq<MoodRow>>
  {
    var sections := Deduped([], Sections(rows));
    seq(|sections|, i requires 0 <= i < |sections| => (sections[i], RowsIn(rows, sections[i])))
  }
}
