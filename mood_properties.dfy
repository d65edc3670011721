/** What `get_mood_songs` promises about each mood's list, and the properties
    of the `write_csv` merge and the `load_csv` partition. */
module MoodProperties {
  import opened Wrappers
  import opened Dict
  import opened MoodLists
  import opened MoodClassifier

  /** When every step succeeds with `c` ids, the concatenation holds `c` ids per
      step, and an id is in it exactly when some step returned it. */
  lemma {:induction false} ConcatAllContents(steps: seq<Result<seq<string>>>, c: nat)
    requires forall i :: 0 <= i < |steps| ==> steps[i].Ok? && |steps[i].value| == c
    ensures ConcatAll(steps).Ok? && |ConcatAll(steps).value| == c * |steps|
    ensures forall x :: x in ConcatAll(steps).value <==> exists i :: 0 <= i < |steps| && x in steps[i].value
  {
    if steps != [] {
      var init := steps[..|steps| - 1];
      ConcatAllContents(init, c);
      forall x | x in ConcatAll(steps).value ensures exists i :: 0 <= i < |steps| && x in steps[i].value {
        if x in ConcatAll(init).value {
          var i :| 0 <= i < |init| && x in init[i].value;
          assert steps[i] == init[i];
        }
      }
      forall x | exists i :: 0 <= i < |steps| && x in steps[i].value ensures x in ConcatAll(steps).value {
        var i :| 0 <= i < |steps| && x in steps[i].value;
        if i < |init| {
          assert init[i] == steps[i];
        }
      }
    }
  }

  /** When every failing step raises IndexError, so does the concatenation. */
  lemma {:induction false} ConcatAllErrorKind(steps: seq<Result<seq<string>>>)
    requires forall i :: 0 <= i < |steps| ==> steps[i].Raised? ==> steps[i].error == IndexError
    ensures ConcatAll(steps).Raised? ==> ConcatAll(steps).error == IndexError
  {
    if steps != [] {
      ConcatAllErrorKind(steps[..|steps| - 1]);
    }
  }

  /** `x` is one of items 0-2 of the response to searching `keyword` in one of the markets. */
  predicate ReadFor(keyword: string, results: string -> seq<string>, x: string)
  {
    exists m, nr :: 0 <= m < |MarketList| && 0 <= nr < 3 &&
      nr < |results(QueryUrl(keyword, MarketList[m]))| && results(QueryUrl(keyword, MarketList[m]))[nr] == x
  }

  /** Some search of the keyword returns fewer than three items. */
  predicate ShortFor(keyword: string, results: string -> seq<string>)
  {
    exists m :: 0 <= m < |MarketList| && |results(QueryUrl(keyword, MarketList[m]))| < 3
  }

  /** A keyword fails exactly when one of its nine searches returns fewer than
      three items, and then with IndexError. */
  lemma MarketIdsShort(keyword: string, results: string -> seq<string>)
    ensures MarketIds(keyword, MarketList, results).Raised? <==> ShortFor(keyword, results)
    ensures MarketIds(keyword, MarketList, results).Raised? ==> MarketIds(keyword, MarketList, results).error == IndexError
  {
    var msteps := seq(|MarketList|, m requires 0 <= m < |MarketList| => Take3(results(QueryUrl(keyword, MarketList[m]))));
    assert forall i :: 0 <= i < |msteps| ==> msteps[i] == Take3(results(QueryUrl(keyword, MarketList[i])));
    assert MarketIds(keyword, MarketList, results) == ConcatAll(msteps);
    ConcatAllErrorKind(msteps);
    if ConcatAll(msteps).Raised? {
      assert !(forall m :: 0 <= m < |msteps| ==> msteps[m].Ok?);
      var m :| 0 <= m < |msteps| && msteps[m].Raised?;
      assert |results(QueryUrl(keyword, MarketList[m]))| < 3;
    }
    if ShortFor(keyword, results) {
      var m :| 0 <= m < |MarketList| && |results(QueryUrl(keyword, MarketList[m]))| < 3;
      assert msteps[m].Raised?;
    }
  }

  /** A mood fails exactly when one of its searches returns fewer than three
      items, and then with IndexError. */
  lemma MoodIdsFails(keywords: seq<string>, results: string -> seq<string>)
    ensures MoodIds(keywords, results).Raised? <==> exists k :: 0 <= k < |keywords| && ShortFor(keywords[k], results)
    ensures MoodIds(keywords, results).Raised? ==> MoodIds(keywords, results).error == IndexError
  {
    var ksteps := seq(|keywords|, k requires 0 <= k < |keywords| => MarketIds(keywords[k], MarketList, results));
    assert forall k :: 0 <= k < |ksteps| ==> ksteps[k] == MarketIds(keywords[k], MarketList, results);
    forall k | 0 <= k < |keywords|
      ensures ksteps[k].Raised? <==> ShortFor(keywords[k], results)
      ensures ksteps[k].Raised? ==> ksteps[k].error == IndexError
    {
      MarketIdsShort(keywords[k], results);
    }
    ConcatAllErrorKind(ksteps);
    if MoodIds(keywords, results).Raised? {
      assert !(forall k :: 0 <= k < |ksteps| ==> ksteps[k].Ok?);
      var k :| 0 <= k < |keywords| && ksteps[k].Raised?;
    }
    if exists k :: 0 <= k < |keywords| && ShortFor(keywords[k], results) {
      var k :| 0 <= k < |keywords| && ShortFor(keywords[k], results);
      assert ksteps[k].Raised?;
    }
  }

  /** The ids one keyword reads: 27 of them, each an item among the first
      three of one of its nine responses. */
  lemma MarketIdsContents(keyword: string, results: string -> seq<string>)
    requires MarketIds(keyword, MarketList, results).Ok?
    ensures |MarketIds(keyword, MarketList, results).value| == 3 * |MarketList|
    ensures forall x :: x in MarketIds(keyword, MarketList, results).value <==> ReadFor(keyword, results, x)
  {
    var msteps := seq(|MarketList|, m requires 0 <= m < |MarketList| => Take3(results(QueryUrl(keyword, MarketList[m]))));
    assert forall i :: 0 <= i < |msteps| ==> msteps[i] == Take3(results(QueryUrl(keyword, MarketList[i])));
    assert MarketIds(keyword, MarketList, results) == ConcatAll(msteps);
    ConcatAllContents(msteps, 3);
    forall x | x in MarketIds(keyword, MarketList, results).value ensures ReadFor(keyword, results, x) {
      var m :| 0 <= m < |msteps| && x in msteps[m].value;
      var items := results(QueryUrl(keyword, MarketList[m]));
      assert msteps[m].value == [items[0], items[1], items[2]];
      var nr :| 0 <= nr < 3 && msteps[m].value[nr] == x;
    }
    forall x | ReadFor(keyword, results, x) ensures x in MarketIds(keyword, MarketList, results).value {
      var m, nr :| 0 <= m < |MarketList| && 0 <= nr < 3 &&
        nr < |results(QueryUrl(keyword, MarketList[m]))| && results(QueryUrl(keyword, MarketList[m]))[nr] == x;
      assert msteps[m].value[nr] == x;
    }
  }

  /** The ids a mood's keywords read before deduplication: 27 per keyword, and
      an id is among them exactly when one of the searches returned it among
      its first three. */
  lemma KeywordIdsContents(keywords: seq<string>, results: string -> seq<string>)
    requires KeywordIds(keywords, results).Ok?
    ensures |KeywordIds(keywords, results).value| == (3 * |MarketList|) * |keywords|
    ensures forall x :: x in KeywordIds(keywords, results).value <==>
      exists k :: 0 <= k < |keywords| && ReadFor(keywords[k], results, x)
  {
    var ksteps := seq(|keywords|, k requires 0 <= k < |keywords| => MarketIds(keywords[k], MarketList, results));
    assert forall k :: 0 <= k < |ksteps| ==> ksteps[k] == MarketIds(keywords[k], MarketList, results);
    assert ConcatAll(ksteps).Ok?;
    forall k | 0 <= k < |keywords| ensures ksteps[k].Ok? && |ksteps[k].value| == 3 * |MarketList| {
      assert ksteps[k].Ok?;
      MarketIdsContents(keywords[k], results);
    }
    ConcatAllContents(ksteps, 3 * |MarketList|);
    var ids := KeywordIds(keywords, results).value;
    forall x | x in ids ensures exists k :: 0 <= k < |keywords| && ReadFor(keywords[k], results, x) {
      var k :| 0 <= k < |keywords| && x in ksteps[k].value;
      MarketIdsContents(keywords[k], results);
    }
    forall x | exists k :: 0 <= k < |keywords| && ReadFor(keywords[k], results, x) ensures x in ids {
      var k :| 0 <= k < |keywords| && ReadFor(keywords[k], results, x);
      assert ksteps[k].Ok?;
      MarketIdsContents(keywords[k], results);
      assert x in ksteps[k].value;
    }
  }

  /** A mood's list: no id twice; an id is in it exactly when it is one of
      items 0-2 of a response to one of the mood's searches; ids come in the
      order they were first read; at most 3 × 9 ids per keyword. */
  lemma MoodIdsContents(keywords: seq<string>, results: string -> seq<string>)
    requires MoodIds(keywords, results).Ok?
    ensures Distinct(MoodIds(keywords, results).value)
    ensures |MoodIds(keywords, results).value| <= 3 * |keywords| * |MarketList|
    ensures forall x :: x in MoodIds(keywords, results).value <==>
      exists k :: 0 <= k < |keywords| && ReadFor(keywords[k], results, x)
    ensures forall i, j :: 0 <= i < j < |MoodIds(keywords, results).value| ==>
      var ids := KeywordIds(keywords, results).value;
      MoodIds(keywords, results).value[i] in ids && MoodIds(keywords, results).value[j] in ids &&
      IndexOf(ids, MoodIds(keywords, results).value[i]) < IndexOf(ids, MoodIds(keywords, results).value[j])
  {
    var ids := KeywordIds(keywords, results).value;
    assert MoodIds(keywords, results).value == Deduped([], ids);
    KeywordIdsContents(keywords, results);
    assert (3 * |MarketList|) * |keywords| == 3 * |keywords| * |MarketList|;
    DedupedContents([], ids);
    DedupedOrder(ids);
  }

  /** The call fails exactly when one of the moods fails. */
  lemma {:induction false} MoodTableOk(terms: Dict<string, seq<string>>, results: string -> seq<string>)
    ensures MoodTable(terms, results).Ok? <==> forall t :: 0 <= t < |terms| ==> MoodIds(terms[t].1, results).Ok?
  {
    if terms != [] {
      var init := terms[..|terms| - 1];
      MoodTableOk(init, results);
      assert forall t :: 0 <= t < |init| ==> init[t] == terms[t];
    }
  }

  /** Each mood of the terms holds its own list. */
  lemma {:induction false} MoodTableGet(terms: Dict<string, seq<string>>, results: string -> seq<string>, t: nat)
    requires KeysDistinct(terms) && MoodTable(terms, results).Ok? && t < |terms|
    ensures MoodIds(terms[t].1, results).Ok?
    ensures Get(MoodTable(terms, results).value, terms[t].0) == Some(MoodIds(terms[t].1, results).value)
  {
    var init := terms[..|terms| - 1];
    var last := terms[|terms| - 1];
    MoodTableStep(terms, results);
    assert KeysDistinct(init);
    var before := MoodTable(init, results).value;
    SetGet(before, last.0, MoodIds(last.1, results).value, terms[t].0);
    if t < |init| {
      assert init[t] == terms[t];
      MoodTableGet(init, results, t);
    }
  }

  /** A successful table is the table of all moods but the last, with the
      last mood's list set. */
  lemma MoodTableStep(terms: Dict<string, seq<string>>, results: string -> seq<string>)
    requires terms != [] && MoodTable(terms, results).Ok?
    ensures MoodTable(terms[..|terms| - 1], results).Ok?
    ensures MoodIds(terms[|terms| - 1].1, results).Ok?
    ensures MoodTable(terms, results).value ==
      Set(MoodTable(terms[..|terms| - 1], results).value, terms[|terms| - 1].0, MoodIds(terms[|terms| - 1].1, results).value)
  {
    var before := MoodTable(terms[..|terms| - 1], results);
    var ids := MoodIds(terms[|terms| - 1].1, results);
    assert before.Raised? ==> MoodTable(terms, results) == before;
    assert before.Ok? && ids.Raised? ==> MoodTable(terms, results).Raised?;
    assert before.Ok? && ids.Ok? ==>
      MoodTable(terms, results) == Ok(Set(before.value, terms[|terms| - 1].0, ids.value));
  }

  /** A row is a new song exactly when it is in the frame and its name is not
      among the existing names. */
  lemma {:induction false} NewSongsMembers(df: seq<MoodRow>, existing: seq<MoodRow>, r: MoodRow)
    ensures r in NewSongs(df, existing) <==> r in df && r.songName !in Names(existing)
    ensures |NewSongs(df, existing)| <= |df|
  {
    if df != [] {
      NewSongsMembers(df[..|df| - 1], existing, r);
      assert df == df[..|df| - 1] + [df[|df| - 1]];
    }
  }

  /** The merge keeps the existing rows in front, unchanged, and then adds
      exactly the frame's rows whose names are new. */
  lemma MergeRowsShape(existing: seq<MoodRow>, df: seq<MoodRow>, r: MoodRow)
    ensures |MergeRows(existing, df)| <= |existing| + |df|
    ensures MergeRows(existing, df)[..|existing|] == existing
    ensures r in MergeRows(existing, df)[|existing|..] <==> r in df && r.songName !in Names(existing)
  {
    NewSongsMembers(df, existing, r);
    assert MergeRows(existing, df)[|existing|..] == NewSongs(df, existing);
  }

  /** Rows repeated inside the new frame are all kept: nothing compares the
      frame with itself. */
  lemma DuplicatesInFrameKept(existing: seq<MoodRow>, r: MoodRow)
    requires r.songName !in Names(existing)
    ensures MergeRows(existing, [r, r]) == existing + [r, r]
  {
    assert [r, r][..1] == [r];
    assert [r][..0] == [];
    assert NewSongs([r], existing) == [r];
    assert NewSongs([r, r], existing) == [r, r];
  }

  /** With no file, the first frame is written as it is. */
  lemma FirstWrite(name: string, df: seq<MoodRow>)
    ensures WriteAll(None, [(name, df)]) == Some(df)
  {
    assert [(name, df)][..0] == [];
  }

  /** Once there is a file, later frames never remove or reorder its rows. */
  lemma {:induction false} WriteAllKeepsRows(file: seq<MoodRow>, dfs: Dict<string, seq<MoodRow>>)
    ensures WriteAll(Some(file), dfs).Some?
    ensures |WriteAll(Some(file), dfs).value| >= |file|
    ensures WriteAll(Some(file), dfs).value[..|file|] == file
  {
    if dfs != [] {
      WriteAllKeepsRows(file, dfs[..|dfs| - 1]);
      var before := WriteAll(Some(file), dfs[..|dfs| - 1]).value;
      assert (before + NewSongs(dfs[|dfs| - 1].1, before))[..|file|] == before[..|file|];
    }
  }

  /** The rows of a section are exactly the rows carrying it. */
  lemma {:induction false} RowsInMembers(rows: seq<MoodRow>, section: string, r: MoodRow)
    ensures r in RowsIn(rows, section) <==> r in rows && r.section == section
  {
    if rows != [] {
      RowsInMembers(rows[..|rows| - 1], section, r);
      assert rows == rows[..|rows| - 1] + [rows[|rows| - 1]];
    }
  }

  /** The groups are keyed by the distinct sections, in order of first appearance. */
  lemma LoadCsvKeys(rows: seq<MoodRow>)
    ensures Keys(LoadCsv(rows)) == Deduped([], Sections(rows))
    ensures KeysDistinct(LoadCsv(rows))
  {
    var groups := LoadCsv(rows);
    var sections := Deduped([], Sections(rows));
    DedupedContents([], Sections(rows));
    assert forall i :: 0 <= i < |groups| ==> Keys(groups)[i] == groups[i].0 == sections[i];
  }

  /** A section has a group exactly when some row carries it. */
  lemma LoadCsvHasSection(rows: seq<MoodRow>, s: string)
    ensures s in Keys(LoadCsv(rows)) <==> exists i :: 0 <= i < |rows| && rows[i].section == s
  {
    LoadCsvKeys(rows);
    DedupedContents([], Sections(rows));
    if s in Sections(rows) {
      var i :| 0 <= i < |rows| && Sections(rows)[i] == s;
    }
    if exists i :: 0 <= i < |rows| && rows[i].section == s {
      var i :| 0 <= i < |rows| && rows[i].section == s;
      assert Sections(rows)[i] == s;
    }
  }

  /** Each group holds exactly the rows of its section. */
  lemma LoadCsvGroupRows(rows: seq<MoodRow>, i: nat, r: MoodRow)
    requires i < |LoadCsv(rows)|
    ensures r in LoadCsv(rows)[i].1 <==> r in rows && r.section == LoadCsv(rows)[i].0
  {
    RowsInMembers(rows, LoadCsv(rows)[i].0, r);
  }

  /** Every row is found in the group of its own section. */
  lemma LoadCsvRowGroup(rows: seq<MoodRow>, i: nat)
    requires i < |rows|
    ensures Get(LoadCsv(rows), rows[i].section) == Some(RowsIn(rows, rows[i].section))
    ensures rows[i] in RowsIn(rows, rows[i].section)
  {
    var groups := LoadCsv(rows);
    var sections := Deduped([], Sections(rows));
    LoadCsvKeys(rows);
    LoadCsvHasSection(rows, rows[i].section);
    var j :| 0 <= j < |groups| && Keys(groups)[j] == rows[i].section;
    GetAt(groups, j);
    RowsInMembers(rows, rows[i].section, rows[i]);
  }

  /** The default terms: twelve distinct moods with five keywords each, so a
      mood collects at most 3 × 5 × 9 = 135 ids. */
  lemma DefaultTerms(results: string -> seq<string>, t: nat)
    requires t < |MoodSearchTerms| && MoodIds(MoodSearchTerms[t].1, results).Ok?
    ensures |MoodSearchTerms| == 12 && |MoodSearchTerms[t].1| == 5
    ensures |MoodIds(MoodSearchTerms[t].1, results).value| <= 135
  {
    MoodIdsContents(MoodSearchTerms[t].1, results);
  }

  lemma DefaultMoodsDistinct()
    ensures KeysDistinct(MoodSearchTerms)
  {
  }
}
