/** `genre_recommendations` (generate_recommendations.py): turns the per-feature
    statistics table into the query string of a recommendations request.
    Every feature gives `min_`, `max_` and `target_` parameters (target is the
    median); excluded and unranged keys are skipped; each value is converted
    to an int or to one decimal, dropped when the conversion raises, clamped
    to its declared bounds, and the survivors are joined with `&` after a fixed
    prefix. */
module Recommendations {
  import opened Wrappers
  import Text

  // ---------------------------------------------------------------------------
  // Data

  /** A statistic as the table hands it over: a number, NaN, or `None`. */
  datatype Raw = Num(x: real) | NaN | Null

  /** One feature of the transposed statistics table, with the three rows read. */
  datatype FeatureStats = FeatureStats(feature: string, min: Raw, max: Raw, median: Raw)

  /** Which of the three parameters of a feature a key names. */
  datatype Bound = Min | Max | Target

  /** A key of `params`: `min_<feature>`, `max_<feature>` or `target_<feature>`. */
  datatype ParamKey = ParamKey(bound: Bound, feature: string)

  /** How `integer_parameters` / `number_parameters` convert a value. */
  datatype Conversion = ToInt | ToTenths

  /** The entry of `parameter_ranges` shared by a feature's three keys, with the
      conversion list they belong to; `None` is a missing bound. */
  datatype Family = Family(lo: Option<int>, hi: Option<int>, conversion: Conversion)

  /** A converted value: an int (from `int()` or from a clamping bound, which
      is an int), a one-decimal float held as integer tenths, or float NaN. */
  datatype Formatted = Whole(n: int) | Tenths(t: int) | NotANumber

  /** An emitted `key=value` pair before it is rendered. */
  datatype Param = Param(key: ParamKey, value: Formatted)

  // ---------------------------------------------------------------------------
  // Constants of the source

  const Endpoint := "https://api.spotify.com/v1/recommendations"

  function Prefix(b: Bound): string
  {
    match b
    case Min => "min_"
    case Max => "max_"
    case Target => "target_"
  }

  /** The dict key `f"min_{feature}"` and its two siblings. */
  function KeyName(k: ParamKey): string
  {
    Prefix(k.bound) + k.feature
  }

  /** The keys skipped before anything else is looked at, in the order listed. */
  const ExcludedKeys: seq<string> := [
    "min_key", "max_key", "target_key",
    "min_mode", "max_mode", "target_mode",
    "min_time_signature", "max_time_signature", "target_time_signature",
    "min_popularity", "max_popularity", "target_popularity"
  ]

  /** The unit-interval features, all converted to one decimal. */
  const UnitFeatures: set<string> := {
    "acousticness", "danceability", "energy", "instrumentalness",
    "liveness", "speechiness", "valence"
  }

  /** `parameter_ranges` with `integer_parameters` and `number_parameters`, by
      feature: the three keys of a feature always share range and conversion. */
  function FamilyOf(feature: string): Option<Family>
  {
    if feature in UnitFeatures then Some(Family(Some(0), Some(1), ToTenths))
    else if feature == "duration_ms" then Some(Family(Some(0), None, ToInt))
    else if feature == "key" then Some(Family(Some(0), Some(11), ToInt))
    else if feature == "loudness" then Some(Family(None, Some(0), ToTenths))
    else if feature == "mode" then Some(Family(Some(0), Some(1), ToInt))
    else if feature == "popularity" then Some(Family(Some(0), Some(100), ToInt))
    else if feature == "tempo" then Some(Family(Some(0), None, ToTenths))
    else if feature == "time_signature" then Some(Family(Some(0), Some(11), ToInt))
    else None
  }

  // ---------------------------------------------------------------------------
  // Building `params`

  /** Feature names are distinct: they are the columns of the statistics table. */
  predicate FeaturesDistinct(stats: seq<FeatureStats>)
  {
    forall i, j :: 0 <= i < j < |stats| ==> stats[i].feature != stats[j].feature
  }

  /** The three entries one feature adds, in insertion order. */
  function EntriesOf(s: FeatureStats): seq<(ParamKey, Raw)>
  {
    [(ParamKey(Min, s.feature), s.min),
     (ParamKey(Max, s.feature), s.max),
     (ParamKey(Target, s.feature), s.median)]
  }

  /** The `params` dict after the loop over the features, as its items in order. */
  function ParamsOf(stats: seq<FeatureStats>): seq<(ParamKey, Raw)>
  {
    if stats == [] then [] else ParamsOf(stats[..|stats| - 1]) + EntriesOf(stats[|stats| - 1])
  }

  /** Fills `params` feature by feature. */
  method BuildParams(stats: seq<FeatureStats>) returns (params: seq<(ParamKey, Raw)>)
    requires FeaturesDistinct(stats)
    ensures params == ParamsOf(stats)
  {
    params := [];
    for i := 0 to |stats|
      invariant params == ParamsOf(stats[..i])
    {
      var s := stats[i];
      var minValue, maxValue, medianValue := s.min, s.max, s.median;
      var targetValue := medianValue;
      params := params + [(ParamKey(Min, s.feature), minValue)];
      params := params + [(ParamKey(Max, s.feature), maxValue)];
      params := params + [(ParamKey(Target, s.feature), targetValue)];
      assert stats[..i + 1][..i] == stats[..i];
    }
    assert stats[..|stats|] == stats;
  }

  // ---------------------------------------------------------------------------
  // Conversion and clamping

  /** `int(x)` on a float: truncation toward zero. */
  function Truncate(x: real): (n: int)
    ensures 0.0 <= x ==> n as real <= x < n as real + 1.0
    ensures x < 0.0 ==> n as real - 1.0 < x <= n as real
  {
    if x >= 0.0 then x.Floor else -((-x).Floor)
  }

  /** `round(x, 1)`, in tenths: the nearest multiple of 0.1, ties to the even
      one, on the exact value. */
  function RoundTenths(x: real): (t: int)
    ensures -0.5 <= 10.0 * x - t as real <= 0.5
    ensures (10.0 * x - t as real == 0.5 || 10.0 * x - t as real == -0.5) ==> t % 2 == 0
  {
    var y := 10.0 * x;
    var f := y.Floor;
    var d := y - f as real;
    if d < 0.5 then f else if d > 0.5 then f + 1 else if f % 2 == 0 then f else f + 1
  }

  /** The converted value, or `None` when the conversion raises: `int(None)` and
      `float(None)` raise TypeError, `int(nan)` raises ValueError, while
      `round(float(nan), 1)` is NaN. */
  function Convert(v: Raw, c: Conversion): Option<Formatted>
  {
    match v
    case Null => None
    case NaN => if c == ToInt then None else Some(NotANumber)
    case Num(x) => Some(if c == ToInt then Whole(Truncate(x)) else Tenths(RoundTenths(x)))
  }

  /** The number a converted value stands for (NaN has none). */
  function ValueOf(v: Formatted): real
    requires !v.NotANumber?
  {
    match v
    case Whole(n) => n as real
    case Tenths(t) => t as real / 10.0
  }

  /** `v < b`; every comparison with NaN is false. */
  predicate Below(v: Formatted, b: int)
  {
    match v
    case Whole(n) => n < b
    case Tenths(t) => t < 10 * b
    case NotANumber => false
  }

  /** `v > b`; every comparison with NaN is false. */
  predicate Above(v: Formatted, b: int)
  {
    match v
    case Whole(n) => n > b
    case Tenths(t) => t > 10 * b
    case NotANumber => false
  }

  /** Lines 236-239: raise to a present lower bound, otherwise lower to a present
      upper bound. */
  function Clamp(v: Formatted, lo: Option<int>, hi: Option<int>): (r: Formatted)
    ensures !v.NotANumber? ==> !r.NotANumber?
    ensures !v.NotANumber? && lo.Some? ==> lo.value as real <= ValueOf(r) || (hi.Some? && hi.value < lo.value)
    ensures !v.NotANumber? && hi.Some? && (lo.None? || lo.value <= hi.value) ==> ValueOf(r) <= hi.value as real
    ensures lo.None? && hi.None? ==> r == v
  {
    if lo.Some? && Below(v, lo.value) then Whole(lo.value)
    else if hi.Some? && Above(v, hi.value) then Whole(hi.value)
    else v
  }

  /** What one iteration of the formatting loop appends for `(key, value)`, or
      `None` when it skips the key. */
  function FormatParam(key: ParamKey, value: Raw): Option<Param>
  {
    if KeyName(key) in ExcludedKeys then None
    else match FamilyOf(key.feature)
      case None => None
      case Some(fam) =>
        match Convert(value, fam.conversion)
        case None => None
        case Some(v) => Some(Param(key, Clamp(v, fam.lo, fam.hi)))
  }

  /** The pairs the formatting loop emits, in `params` order. */
  function FormatAll(params: seq<(ParamKey, Raw)>): seq<Param>
  {
    if params == [] then []
    else
      var last := params[|params| - 1];
      FormatAll(params[..|params| - 1]) +
        match FormatParam(last.0, last.1)
        case None => []
        case Some(p) => [p]
  }

  // ---------------------------------------------------------------------------
  // Rendering

  /** `str(v)`: an int in decimal, a one-decimal float with exactly one digit
      after the point, NaN as `nan`. */
  function ValueText(v: Formatted): string
  {
    match v
    case Whole(n) => Text.IntToString(n)
    case Tenths(t) =>
      var a := if t < 0 then -t else t;
      (if t < 0 then "-" else "") + Text.NatToString(a / 10) + "." + Text.NatToString(a % 10)
    case NotANumber => "nan"
  }

  /** The text after an optional minus sign. */
  function Unsigned(s: string): string
  {
    if |s| > 0 && s[0] == '-' then s[1..] else s
  }

  /** The shape `str` gives a float rounded to one decimal: an optional minus,
      digits, a point, one digit. */
  predicate IsTenthsText(s: string)
  {
    var body := Unsigned(s);
    |body| >= 3 && body[|body| - 2] == '.' && Text.AllDigits(body[..|body| - 2])
    && Text.IsDigit(body[|body| - 1])
  }

  /** The number of tenths such a text denotes. */
  function TenthsValue(s: string): int
    requires IsTenthsText(s)
  {
    var body := Unsigned(s);
    var magnitude := Text.DigitsValue(body[..|body| - 2]) * 10 + (body[|body| - 1] as int - '0' as int);
    if |s| > 0 && s[0] == '-' then -magnitude else magnitude
  }

  /** `f"{key}={formatted_value}"`. */
  function Render(p: Param): string
  {
    KeyName(p.key) + "=" + ValueText(p.value)
  }

  /** The emitted pairs rendered one by one, in order. */
  function RenderAll(ps: seq<Param>): (r: seq<string>)
    ensures |r| == |ps|
  {
    if ps == [] then [] else RenderAll(ps[..|ps| - 1]) + [Render(ps[|ps| - 1])]
  }

  /** Entry `i` of the rendered list is pair `i` rendered. */
  lemma {:induction false} RenderAllAt(ps: seq<Param>, i: nat)
    requires i < |ps|
    ensures RenderAll(ps)[i] == Render(ps[i])
  {
    var init := ps[..|ps| - 1];
    var last := Render(ps[|ps| - 1]);
    assert RenderAll(ps) == RenderAll(init) + [last];
    if i < |init| {
      RenderAllAt(init, i);
      assert init[i] == ps[i];
    }
  }

  /** The loop of lines 199-252 over the items of `params`. */
  method FormatParams(params: seq<(ParamKey, Raw)>) returns (formatted: seq<string>)
    ensures formatted == RenderAll(FormatAll(params))
  {
    formatted := [];
    for i := 0 to |params|
      invariant formatted == RenderAll(FormatAll(params[..i]))
    {
      var emitted := FormatItem(params[i].0, params[i].1);
      FormatAllSnoc(params, i, emitted);
      if emitted.Some? {
        RenderAllSnoc(FormatAll(params[..i]), emitted.value);
        formatted := formatted + [Render(emitted.value)];
      }
    }
    assert params[..|params|] == params;
  }

  /** The body of that loop for one `(key, value)`: skipped when excluded,
      unranged or not convertible, otherwise converted and clamped. */
  method FormatItem(key: ParamKey, value: Raw) returns (emitted: Option<Param>)
    ensures emitted == FormatParam(key, value)
  {
    if KeyName(key) in ExcludedKeys {
      return None;
    }
    var rangeInfo := FamilyOf(key.feature);
    if rangeInfo.None? {
      return None;
    }
    var fam := rangeInfo.value;
    var converted := Convert(value, fam.conversion);
    if converted.None? {
      return None;
    }
    var formattedValue := converted.value;
    if fam.lo.Some? && Below(formattedValue, fam.lo.value) {
      formattedValue := Whole(fam.lo.value);
    } else if fam.hi.Some? && Above(formattedValue, fam.hi.value) {
      formattedValue := Whole(fam.hi.value);
    }
    return Some(Param(key, formattedValue));
  }

  /** One more item adds what `FormatParam` makes of it. */
  lemma FormatAllSnoc(params: seq<(ParamKey, Raw)>, i: nat, emitted: Option<Param>)
    requires i < |params| && emitted == FormatParam(params[i].0, params[i].1)
    ensures emitted.None? ==> FormatAll(params[..i + 1]) == FormatAll(params[..i])
    ensures emitted.Some? ==> FormatAll(params[..i + 1]) == FormatAll(params[..i]) + [emitted.value]
  {
    assert params[..i + 1][..i] == params[..i];
  }

  /** One more pair adds its rendering. */
  lemma RenderAllSnoc(ps: seq<Param>, p: Param)
    ensures RenderAll(ps + [p]) == RenderAll(ps) + [Render(p)]
  {
    assert (ps + [p])[..|ps|] == ps;
  }

  /** Line 194: the fixed part of the URL. */
  function BaseUrl(genre: string, market: string): string
  {
    Endpoint + "?limit=100&market=" + market + "&seed_genres=" + genre
  }

  /** Lines 255-258: the base URL, `&`, then the pairs joined with `&`. */
  function RecommendationUrl(genre: string, market: string, formatted: seq<string>): string
  {
    BaseUrl(genre, market) + "&" + Text.Join(formatted, "&")
  }

  /** The URL `genre_recommendations` sends its request to. */
  method GenreRecommendations(genre: string, market: string, stats: seq<FeatureStats>)
    returns (url: string)
    requires FeaturesDistinct(stats)
    ensures url == RecommendationUrl(genre, market, RenderAll(FormatAll(ParamsOf(stats))))
  {
    var params := BuildParams(stats);
    var formatted := FormatParams(params);
    var urlParams := Text.Join(formatted, "&");
    url := BaseUrl(genre, market) + "&" + urlParams;
  }
}
