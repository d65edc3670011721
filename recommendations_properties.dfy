/** What `genre_recommendations` guarantees about the parameters it emits and
    the URL it builds. */
module RecommendationProperties {
  import opened Wrappers
  import Text
  import opened Recommendations

  // ---------------------------------------------------------------------------
  // `params`

  /** Feature `i` contributes entries `3i`, `3i+1` and `3i+2`: its min, max and
      median, under `min_`, `max_` and `target_`. */
  lemma {:induction false} ParamsLayout(stats: seq<FeatureStats>, i: nat)
    requires i < |stats|
    ensures |ParamsOf(stats)| == 3 * |stats|
    ensures ParamsOf(stats)[3 * i] == (ParamKey(Min, stats[i].feature), stats[i].min)
    ensures ParamsOf(stats)[3 * i + 1] == (ParamKey(Max, stats[i].feature), stats[i].max)
    ensures ParamsOf(stats)[3 * i + 2] == (ParamKey(Target, stats[i].feature), stats[i].median)
  {
    var init := stats[..|stats| - 1];
    ParamsLength(init);
    if i < |stats| - 1 {
      ParamsLayout(init, i);
    }
  }

  lemma {:induction false} ParamsLength(stats: seq<FeatureStats>)
    ensures |ParamsOf(stats)| == 3 * |stats|
  {
    if stats != [] {
      ParamsLength(stats[..|stats| - 1]);
    }
  }

  /** Different keys have different names, so the dict never overwrites one
      feature's entry with another's. */
  lemma KeyNameInjective(k1: ParamKey, k2: ParamKey)
    requires KeyName(k1) == KeyName(k2)
    ensures k1 == k2
  {
    var n1, n2 := KeyName(k1), KeyName(k2);
    assert n1[0] == Prefix(k1.bound)[0] && n1[1] == Prefix(k1.bound)[1];
    assert n2[0] == Prefix(k2.bound)[0] && n2[1] == Prefix(k2.bound)[1];
    assert k1.bound == k2.bound;
    assert k1.feature == n1[|Prefix(k1.bound)|..];
    assert k2.feature == n2[|Prefix(k2.bound)|..];
  }

  /** With distinct features, the names of all entries of `params` are distinct:
      the dict holds exactly `3 * |stats|` items. */
  lemma ParamsKeysDistinct(stats: seq<FeatureStats>)
    requires FeaturesDistinct(stats)
    ensures forall a, b :: 0 <= a < b < |ParamsOf(stats)| ==>
      KeyName(ParamsOf(stats)[a].0) != KeyName(ParamsOf(stats)[b].0)
  {
    ParamsLength(stats);
    var ps := ParamsOf(stats);
    forall a, b | 0 <= a < b < |ps| ensures KeyName(ps[a].0) != KeyName(ps[b].0) {
      ParamsLayout(stats, a / 3);
      ParamsLayout(stats, b / 3);
      assert ps[a].0.feature == stats[a / 3].feature;
      assert ps[b].0.feature == stats[b / 3].feature;
      assert ps[a].0 != ps[b].0 by {
        if a / 3 == b / 3 {
          assert ps[a].0.bound != ps[b].0.bound;
        }
      }
      if KeyName(ps[a].0) == KeyName(ps[b].0) {
        KeyNameInjective(ps[a].0, ps[b].0);
      }
    }
  }

  // ---------------------------------------------------------------------------
  // Which pairs are emitted

  /** The formatting loop keeps `params` order: formatting a concatenation is
      concatenating the formatted halves. */
  lemma {:induction false} FormatAllAppend(a: seq<(ParamKey, Raw)>, b: seq<(ParamKey, Raw)>)
    ensures FormatAll(a + b) == FormatAll(a) + FormatAll(b)
  {
    if b == [] {
      assert a + b == a;
    } else {
      var init := b[..|b| - 1];
      assert (a + b)[..|a + b| - 1] == a + init;
      assert (a + b)[|a + b| - 1] == b[|b| - 1];
      FormatAllAppend(a, init);
    }
  }

  /** A pair is emitted exactly when some item of `params` formats to it. */
  lemma {:induction false} EmittedIff(params: seq<(ParamKey, Raw)>, p: Param)
    ensures p in FormatAll(params) <==>
      exists j :: 0 <= j < |params| && FormatParam(params[j].0, params[j].1) == Some(p)
  {
    if params != [] {
      var init := params[..|params| - 1];
      var last := params[|params| - 1];
      EmittedIff(init, p);
      if p in FormatAll(init) {
        var j :| 0 <= j < |init| && FormatParam(init[j].0, init[j].1) == Some(p);
        assert params[j] == init[j];
      }
      if exists j :: 0 <= j < |params| && FormatParam(params[j].0, params[j].1) == Some(p) {
        var j :| 0 <= j < |params| && FormatParam(params[j].0, params[j].1) == Some(p);
        if j < |init| {
          assert init[j] == params[j];
        }
      }
    }
  }

  /** The excluded family is recognised by feature: a key is in the excluded
      list exactly when its feature is key, mode, time_signature or popularity. */
  lemma ExcludedByFeature(k: ParamKey)
    ensures KeyName(k) in ExcludedKeys <==> k.feature in ExcludedFeatures
  {
    ExcludedListShape();
    if KeyName(k) in ExcludedKeys {
      var i :| 0 <= i < |ExcludedKeys| && ExcludedKeys[i] == KeyName(k);
      KeyNameInjective(k, ParamKey(BoundAt(i % 3), ExcludedFeatures[i / 3]));
    }
    if k.feature in ExcludedFeatures {
      var q :| 0 <= q < |ExcludedFeatures| && ExcludedFeatures[q] == k.feature;
      var i := 3 * q + (match k.bound case Min => 0 case Max => 1 case Target => 2);
      assert ExcludedKeys[i] == KeyName(k);
    }
  }

  /** The four features whose keys are skipped. */
  const ExcludedFeatures: seq<string> := ["key", "mode", "time_signature", "popularity"]

  function BoundAt(r: nat): Bound
  {
    if r == 0 then Min else if r == 1 then Max else Target
  }

  /** The listed keys are, three by three, the `min_`, `max_` and `target_` keys
      of the four excluded features. */
  lemma ExcludedListShape()
    ensures |ExcludedKeys| == 3 * |ExcludedFeatures|
    ensures forall i :: 0 <= i < |ExcludedKeys| ==>
      ExcludedKeys[i] == KeyName(ParamKey(BoundAt(i % 3), ExcludedFeatures[i / 3]))
  {
    forall i | 0 <= i < |ExcludedKeys|
      ensures ExcludedKeys[i] == KeyName(ParamKey(BoundAt(i % 3), ExcludedFeatures[i / 3]))
    {
      assert i == 3 * (i / 3) + i % 3;
      ExcludedGroup(i / 3);
    }
  }

  /** One feature's three listed keys. */
  lemma ExcludedGroup(q: nat)
    requires q < |ExcludedFeatures|
    ensures forall r :: 0 <= r < 3 ==>
      ExcludedKeys[3 * q + r] == KeyName(ParamKey(BoundAt(r), ExcludedFeatures[q]))
  {
    if q == 0 {
      GroupKeys("key", "min_key", "max_key", "target_key");
    } else if q == 1 {
      GroupKeys("mode", "min_mode", "max_mode", "target_mode");
    } else if q == 2 {
      GroupKeys("time_signature", "min_time_signature", "max_time_signature", "target_time_signature");
    } else {
      GroupKeys("popularity", "min_popularity", "max_popularity", "target_popularity");
    }
  }

  /** The three key names of one feature. */
  lemma GroupKeys(f: string, lo: string, hi: string, target: string)
    requires lo == "min_" + f && hi == "max_" + f && target == "target_" + f
    ensures forall r :: 0 <= r < 3 ==> KeyName(ParamKey(BoundAt(r), f)) == [lo, hi, target][r]
  {
  }

  /** Every emitted key is neither excluded nor unranged: whatever its value, no
      key, mode, time_signature or popularity parameter reaches the URL, and
      neither does a feature without an entry in the ranges table. */
  lemma EmittedKeysAdmissible(params: seq<(ParamKey, Raw)>, p: Param)
    requires p in FormatAll(params)
    ensures KeyName(p.key) !in ExcludedKeys
    ensures p.key.feature !in ExcludedFeatures
    ensures FamilyOf(p.key.feature).Some?
    ensures exists j :: 0 <= j < |params| && params[j].0 == p.key
  {
    EmittedIff(params, p);
    var j :| 0 <= j < |params| && FormatParam(params[j].0, params[j].1) == Some(p);
    FormatParamWithin(params[j].0, params[j].1);
    ExcludedByFeature(p.key);
  }

  /** The emitted value lies within the declared bounds of its key (a bound
      that is `None` is not checked); only a NaN median or extreme escapes. */
  predicate WithinDeclaredRange(p: Param)
  {
    match FamilyOf(p.key.feature)
    case None => false
    case Some(fam) =>
      p.value.NotANumber? ||
      ((fam.lo.None? || fam.lo.value as real <= ValueOf(p.value)) &&
       (fam.hi.None? || ValueOf(p.value) <= fam.hi.value as real))
  }

  /** Every declared range is non-empty. */
  lemma FamilyBoundsOrdered(feature: string)
    requires FamilyOf(feature).Some?
    ensures var fam := FamilyOf(feature).value;
      fam.lo.Some? && fam.hi.Some? ==> fam.lo.value <= fam.hi.value
  {
  }

  /** What a single emitted pair satisfies: its key is the item's key, admitted
      and ranged, and its value lies within the range. */
  lemma FormatParamWithin(k: ParamKey, v: Raw)
    requires FormatParam(k, v).Some?
    ensures FormatParam(k, v).value.key == k
    ensures KeyName(k) !in ExcludedKeys && FamilyOf(k.feature).Some?
    ensures v != Null
    ensures WithinDeclaredRange(FormatParam(k, v).value)
  {
    FamilyBoundsOrdered(k.feature);
  }

  /** Every emitted ranged value lies within its declared bounds. */
  lemma EmittedWithinBounds(params: seq<(ParamKey, Raw)>, p: Param)
    requires p in FormatAll(params)
    ensures WithinDeclaredRange(p)
  {
    EmittedIff(params, p);
    var j :| 0 <= j < |params| && FormatParam(params[j].0, params[j].1) == Some(p);
    FormatParamWithin(params[j].0, params[j].1);
  }

  /** How a value of an admitted key is converted: `None` is dropped; NaN is
      dropped by `int` and passes `round` unclamped; a number is truncated or
      rounded, kept when within the bounds, and replaced by the bound it
      crosses otherwise. */
  lemma ConversionOutcome(k: ParamKey, v: Raw)
    requires KeyName(k) !in ExcludedKeys && FamilyOf(k.feature).Some?
    ensures var fam := FamilyOf(k.feature).value;
      && (v.Null? ==> FormatParam(k, v).None?)
      && (v.NaN? ==> (FormatParam(k, v).None? <==> fam.conversion == ToInt))
      && (v.NaN? && fam.conversion == ToTenths ==> FormatParam(k, v) == Some(Param(k, NotANumber)))
      && (v.Num? ==>
            var c := if fam.conversion == ToInt then Whole(Truncate(v.x)) else Tenths(RoundTenths(v.x));
            && FormatParam(k, v).Some?
            && (fam.lo.Some? && ValueOf(c) < fam.lo.value as real ==>
                  FormatParam(k, v).value.value == Whole(fam.lo.value))
            && (fam.hi.Some? && fam.hi.value as real < ValueOf(c) ==>
                  FormatParam(k, v).value.value == Whole(fam.hi.value))
            && ((fam.lo.None? || fam.lo.value as real <= ValueOf(c)) &&
                (fam.hi.None? || ValueOf(c) <= fam.hi.value as real) ==>
                  FormatParam(k, v).value.value == c))
  {
    FamilyBoundsOrdered(k.feature);
  }

  // ---------------------------------------------------------------------------
  // The URL

  /** The three fixed query parameters. */
  function FixedQuery(genre: string, market: string): seq<string>
  {
    ["limit=100", "market=" + market, "seed_genres=" + genre]
  }

  /** The URL is the endpoint, `?`, and the fixed parameters followed by the
      emitted pairs, all joined with `&`; with no pair emitted, a lone `&`
      (an empty last piece) ends it. */
  lemma {:induction false} UrlShape(genre: string, market: string, formatted: seq<string>)
    ensures RecommendationUrl(genre, market, formatted) ==
      Endpoint + "?" + Text.Join(FixedQuery(genre, market) + (if formatted == [] then [""] else formatted), "&")
  {
    var fixed := FixedQuery(genre, market);
    FixedQueryJoin(genre, market);
    if formatted == [] {
      Text.JoinSnoc(fixed, "", "&");
    } else {
      Text.JoinAppend(fixed, formatted, "&");
    }
  }

  lemma FixedQueryJoin(genre: string, market: string)
    ensures Endpoint + "?" + Text.Join(FixedQuery(genre, market), "&") == BaseUrl(genre, market)
  {
    var a, b, c := "limit=100", "market=" + market, "seed_genres=" + genre;
    JoinThree(a, b, c);
    assert "?limit=100&market=" == "?" + a + "&" + "market=";
    assert "&seed_genres=" == "&" + "seed_genres=";
  }

  lemma JoinThree(a: string, b: string, c: string)
    ensures Text.Join([a, b, c], "&") == a + "&" + b + "&" + c
  {
    assert [a, b] == [a] + [b];
    Text.JoinSnoc([a], b, "&");
    assert [a, b, c] == [a, b] + [c];
    Text.JoinSnoc([a, b], c, "&");
  }

  /** Splitting the query on `&` gives back the fixed parameters and then
      exactly the emitted pairs, in order (an empty last piece when none was
      emitted), provided the genre, the market and the pairs hold no `&`. */
  lemma UrlQuerySplits(genre: string, market: string, formatted: seq<string>)
    requires '&' !in genre && '&' !in market
    requires forall i :: 0 <= i < |formatted| ==> '&' !in formatted[i]
    ensures var url := RecommendationUrl(genre, market, formatted);
      |url| > |Endpoint| && url[..|Endpoint| + 1] == Endpoint + "?" &&
      Text.Split(url[|Endpoint| + 1..], '&') ==
        FixedQuery(genre, market) + (if formatted == [] then [""] else formatted)
  {
    UrlShape(genre, market, formatted);
    var parts := FixedQuery(genre, market) + (if formatted == [] then [""] else formatted);
    assert "&" == ['&'];
    forall i | 0 <= i < |parts| ensures '&' !in parts[i] {
      if i >= 3 && formatted != [] {
        assert parts[i] == formatted[i - 3];
      }
    }
    Text.SplitJoin(parts, '&');
    var url := RecommendationUrl(genre, market, formatted);
    assert url == (Endpoint + "?") + Text.Join(parts, "&");
    assert url[|Endpoint| + 1..] == Text.Join(parts, "&");
  }

  /** A rendered value holds no `&`. */
  lemma ValueTextNoAmpersand(v: Formatted)
    ensures '&' !in ValueText(v)
  {
    match v
    case Whole(n) =>
      var s := Text.IntToString(n);
      assert forall j :: 0 <= j < |s| ==> s[j] != '&';
    case Tenths(t) =>
      var a := if t < 0 then -t else t;
      var hi, lo := Text.NatToString(a / 10), Text.NatToString(a % 10);
      assert ValueText(v) == (if t < 0 then "-" else "") + hi + "." + lo;
      assert forall j :: 0 <= j < |hi| ==> hi[j] != '&';
      assert forall j :: 0 <= j < |lo| ==> lo[j] != '&';
    case NotANumber =>
  }

  /** So a rendered pair holds `&` only if its feature name does, and when no
      feature name does, the whole URL splits back as above. */
  lemma RenderNoAmpersand(p: Param)
    requires '&' !in p.key.feature
    ensures '&' !in Render(p)
  {
    ValueTextNoAmpersand(p.value);
    assert Render(p) == Prefix(p.key.bound) + p.key.feature + "=" + ValueText(p.value);
  }

  // ---------------------------------------------------------------------------
  // Worked examples

  /** A number under an admitted, ranged key is converted and clamped. */
  lemma AdmittedNumber(k: ParamKey, x: real)
    requires k.feature !in ExcludedFeatures && FamilyOf(k.feature).Some?
    ensures var fam := FamilyOf(k.feature).value;
      var c := if fam.conversion == ToInt then Whole(Truncate(x)) else Tenths(RoundTenths(x));
      FormatParam(k, Num(x)) == Some(Param(k, Clamp(c, fam.lo, fam.hi)))
  {
    ExcludedByFeature(k);
  }

  /** An energy value whose rounding stays within [0, 1] is emitted as it rounds. */
  lemma EnergyParam(b: Bound, x: real, t: int)
    requires RoundTenths(x) == t && 0 <= t <= 10
    ensures FormatParam(ParamKey(b, "energy"), Num(x)) == Some(Param(ParamKey(b, "energy"), Tenths(t)))
  {
    assert "energy" in UnitFeatures;
    AdmittedNumber(ParamKey(b, "energy"), x);
  }

  const EnergyStats := [FeatureStats("energy", Num(0.2), Num(0.9), Num(0.5))]

  /** The pairs the three energy statistics turn into. */
  function EnergyParams(): seq<Param>
  {
    [Param(ParamKey(Min, "energy"), Tenths(2)),
     Param(ParamKey(Max, "energy"), Tenths(9)),
     Param(ParamKey(Target, "energy"), Tenths(5))]
  }

  /** All three energy entries are admitted, rounded and within [0, 1]. */
  lemma EnergyFormatted()
    ensures FormatAll(ParamsOf(EnergyStats)) == EnergyParams()
  {
    assert EnergyStats[..0] == [];
    var ps := ParamsOf(EnergyStats);
    assert ps == EntriesOf(EnergyStats[0]);
    assert (10.0 * 0.2).Floor == 2 && (10.0 * 0.9).Floor == 9 && (10.0 * 0.5).Floor == 5;
    EnergyParam(Min, 0.2, 2);
    EnergyParam(Max, 0.9, 9);
    EnergyParam(Target, 0.5, 5);
    assert ps[..1][..0] == [];
    assert ps[..2][..1] == ps[..1];
    assert ps[..2] == ps[..|ps| - 1];
    assert FormatAll(ps[..1]) == EnergyParams()[..1];
    assert FormatAll(ps[..2]) == EnergyParams()[..2];
  }

  /** A value of tenths below one prints as `0.` and its digit. */
  lemma TenthsBelowOne(t: nat)
    requires t < 10
    ensures ValueText(Tenths(t)) == "0." + [Text.DigitChar(t)]
  {
  }

  /** A whole value reads back as itself. */
  lemma WholeTextValue(n: int)
    ensures Text.IsIntText(ValueText(Whole(n))) && Text.IntValue(ValueText(Whole(n))) == n
  {
    Text.IntToStringRoundTrip(n);
  }

  /** A value rounded to `t` tenths renders as text that reads back as `t`
      tenths: its sign, its digits before the point (`|t| / 10`) and its one
      digit after (`|t| % 10`). */
  lemma TenthsTextValue(t: int)
    ensures IsTenthsText(ValueText(Tenths(t))) && TenthsValue(ValueText(Tenths(t))) == t
  {
    var a := if t < 0 then -t else t;
    assert Text.NatToString(a % 10) == [Text.DigitChar(a % 10)];
    TenthsTextOf(t < 0, a / 10, a % 10, ValueText(Tenths(t)));
  }

  /** Sign, whole digits, a point and one digit read back as their tenths. */
  lemma TenthsTextOf(negative: bool, whole: nat, digit: nat, s: string)
    requires digit < 10
    requires s == (if negative then "-" else "") + Text.NatToString(whole) + "." + [Text.DigitChar(digit)]
    ensures IsTenthsText(s)
    ensures TenthsValue(s) == if negative then -(whole * 10 + digit) else whole * 10 + digit
  {
    var body := Text.NatToString(whole) + "." + [Text.DigitChar(digit)];
    if negative {
      assert s[0] == '-' && s[1..] == body;
    } else {
      assert s == body && s[0] == Text.NatToString(whole)[0];
    }
    assert Unsigned(s) == body;
    UnsignedTenthsText(whole, digit, body);
  }

  /** Whole digits, a point and one digit: the parts `TenthsValue` reads. */
  lemma UnsignedTenthsText(whole: nat, digit: nat, body: string)
    requires digit < 10
    requires body == Text.NatToString(whole) + "." + [Text.DigitChar(digit)]
    ensures |body| >= 3 && body[|body| - 2] == '.' && Text.IsDigit(body[|body| - 1])
    ensures Text.AllDigits(body[..|body| - 2])
    ensures Text.DigitsValue(body[..|body| - 2]) * 10 + (body[|body| - 1] as int - '0' as int) == whole * 10 + digit
  {
    assert body[..|body| - 2] == Text.NatToString(whole);
    Text.NatToStringRoundTrip(whole);
  }

  /** One rendered energy pair. */
  lemma EnergyRendered(b: Bound, t: nat, s: string)
    requires t < 10 && s == Prefix(b) + "energy=0." + [Text.DigitChar(t)]
    ensures Render(Param(ParamKey(b, "energy"), Tenths(t))) == s
  {
    TenthsBelowOne(t);
  }

  /** The three energy pairs as the loop renders them. */
  lemma EnergyRenderedAll()
    ensures RenderAll(EnergyParams()) == ["min_energy=0.2", "max_energy=0.9", "target_energy=0.5"]
  {
    EnergyRendered(Min, 2, "min_energy=0.2");
    EnergyRendered(Max, 9, "max_energy=0.9");
    EnergyRendered(Target, 5, "target_energy=0.5");
    RenderThree(EnergyParams(), "min_energy=0.2", "max_energy=0.9", "target_energy=0.5");
  }

  /** Three pairs render to their three texts, in order. */
  lemma RenderThree(ps: seq<Param>, a: string, b: string, c: string)
    requires |ps| == 3 && Render(ps[0]) == a && Render(ps[1]) == b && Render(ps[2]) == c
    ensures RenderAll(ps) == [a, b, c]
  {
    RenderAllAt(ps, 0);
    RenderAllAt(ps, 1);
    RenderAllAt(ps, 2);
  }

  /** energy with min 0.2, median 0.5 and max 0.9, genre soul, market BR: the
      three pairs follow the fixed part, in min, max, target order. */
  lemma EnergyExample()
    ensures RecommendationUrl("soul", "BR", RenderAll(FormatAll(ParamsOf(EnergyStats)))) ==
      BaseUrl("soul", "BR") + "&" + "min_energy=0.2" + "&" + "max_energy=0.9" + "&" + "target_energy=0.5"
  {
    EnergyFormatted();
    EnergyRenderedAll();
    JoinThree("min_energy=0.2", "max_energy=0.9", "target_energy=0.5");
  }

  /** A loudness maximum of -1.1 is not clamped: it is already below the upper
      bound 0, and prints as `-1.1`. */
  lemma LoudnessExample()
    ensures FormatParam(ParamKey(Max, "loudness"), Num(-1.1)) == Some(Param(ParamKey(Max, "loudness"), Tenths(-11)))
    ensures Render(Param(ParamKey(Max, "loudness"), Tenths(-11))) == "max_loudness=-1.1"
  {
    AdmittedNumber(ParamKey(Max, "loudness"), -1.1);
    MinusOnePointOneRounds();
    assert Clamp(Tenths(-11), None, Some(0)) == Tenths(-11);
    MinusOnePointOnePrints();
  }

  lemma MinusOnePointOneRounds()
    ensures RoundTenths(-1.1) == -11
  {
    assert (10.0 * -1.1).Floor == -11;
  }

  lemma MinusOnePointOnePrints()
    ensures ValueText(Tenths(-11)) == "-1.1"
  {
    assert Text.NatToString(1) == "1";
  }

  /** A loudness maximum of 0.3 is above the upper bound 0: it is replaced by
      the int bound and prints as `0`. */
  lemma LoudnessClampedExample()
    ensures FormatParam(ParamKey(Max, "loudness"), Num(0.3)) == Some(Param(ParamKey(Max, "loudness"), Whole(0)))
    ensures Render(Param(ParamKey(Max, "loudness"), Whole(0))) == "max_loudness=0"
  {
    AdmittedNumber(ParamKey(Max, "loudness"), 0.3);
    assert (10.0 * 0.3).Floor == 3;
    assert RoundTenths(0.3) == 3;
  }

  /** With distinct features, the entry under `target_<f>` holds the median of `f`. */
  lemma TargetEntry(stats: seq<FeatureStats>, i: nat, j: nat)
    requires FeaturesDistinct(stats)
    requires i < |stats| && j < |ParamsOf(stats)|
    requires ParamsOf(stats)[j].0 == ParamKey(Target, stats[i].feature)
    ensures ParamsOf(stats)[j].1 == stats[i].median
  {
    ParamsLength(stats);
    var q, r := ParamsEntry(stats, j);
    assert EntriesOf(stats[q])[r].0 == ParamKey(Target, stats[i].feature);
    assert r == 2;
    assert stats[q].feature == stats[i].feature;
  }

  /** Entry `j` of `params` is entry `r` of feature `q`'s three. */
  lemma ParamsEntry(stats: seq<FeatureStats>, j: nat) returns (q: nat, r: nat)
    requires j < 3 * |stats|
    ensures q < |stats| && r < 3
    ensures |ParamsOf(stats)| == 3 * |stats| && ParamsOf(stats)[j] == EntriesOf(stats[q])[r]
  {
    q, r := j / 3, j % 3;
    assert j == 3 * q + r;
    ParamsLayout(stats, q);
  }

  /** A `None` target tempo is dropped, not rendered as `target_tempo=None`. */
  lemma NoneTempoExample(stats: seq<FeatureStats>, i: nat)
    requires FeaturesDistinct(stats)
    requires i < |stats| && stats[i].feature == "tempo" && stats[i].median == Null
    ensures forall p :: p in FormatAll(ParamsOf(stats)) ==> p.key != ParamKey(Target, "tempo")
  {
    var ps := ParamsOf(stats);
    forall p | p in FormatAll(ps) ensures p.key != ParamKey(Target, "tempo") {
      EmittedIff(ps, p);
      var j :| 0 <= j < |ps| && FormatParam(ps[j].0, ps[j].1) == Some(p);
      FormatParamWithin(ps[j].0, ps[j].1);
      if ps[j].0 == ParamKey(Target, "tempo") {
        TargetEntry(stats, i, j);
        assert false;
      }
    }
  }
}
