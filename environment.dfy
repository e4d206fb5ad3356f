/** The environment of simulation/Environment.py: the choice of window margin,
    the bounds rectangle around the centre, date replacement on `Update`, and
    the bounds guard in front of every point `Query`.

    What the code receives from outside is passed in: the loaded configuration
    tree, Python's `int()` and `float()` on strings (`parseInt`, `parseFloat`),
    the cosine of the centre latitude, the random date, the data fetchers
    (`fetch`, from bounds and date to datasets) and scipy's grid interpolation
    (`interpolate`, from a dataset and its two component names to a function
    of a point). Dates are whole seconds. */
module DriftEnvironment {
  import opened Wrappers
  import opened GeoBounds
  import AppConfig

  const MarginKey: string := "environment.settings.default_window_margin"
  const FactorKey: string := "environment.settings.degrees_per_mile"

  /** The exceptions of `__init__` and `Query`: a failed `get_value`
      (`Setting`), a text that `int()` or `float()` rejects, an empty
      degrees-per-mile setting, a zero factor (ZeroDivisionError), and a
      query point outside the bounds. */
  datatype EnvError =
    | Setting(cause: AppConfig.ConfigError)
    | NotANumber
    | MissingFactor
    | DivisionByZero
    | OutOfBounds(lat: real, lon: real)

  /** Named arrays of one fetched dataset. */
  type Dataset = map<string, seq<real>>

  /** The three datasets `Update` fetches. */
  datatype Snapshot = Snapshot(current: Dataset, depth: Dataset, wind: Dataset)

  /** A vector field: the (u, v) components at a (lat, lon) point. */
  type Interpolator = (real, real) -> (real, real)

  /** The margin `__init__` keeps: the argument, unless it is 0, in which case
      the configured default window margin read as an int. The configuration
      is consulted only in that case. */
  function ChooseMargin(margin: int, settings: map<string, AppConfig.Cfg>,
                        parseInt: string -> Option<int>): (r: Result<int, EnvError>)
    ensures margin != 0 ==> r == Ok(margin)
    ensures var stored := AppConfig.At(settings, AppConfig.PathOf(MarginKey));
      margin == 0 ==>
        (r.Ok? <==> stored.Some? && stored.value.Leaf? && parseInt(stored.value.text).Some?)
        && (r.Ok? ==> r.value == parseInt(stored.value.text).value)
        && (stored.None? ==> r.Err? && r.error.Setting?)
  {
    if margin != 0 then Ok(margin)
    else
      var path := AppConfig.PathOf(MarginKey);
      AppConfig.LookupMeansAt(settings, path);
      match AppConfig.Lookup(settings, path)
      case Err(e) => Err(Setting(e))
      case Ok(v) =>
        if v.Section? then Err(NotANumber)
        else match parseInt(v.text)
          case Some(n) => Ok(n)
          case None => Err(NotANumber)
  }

  /** `_calculate_bounds`: reads degrees-per-mile from the configuration,
      rejects an empty or non-numeric setting, and draws the rectangle
      `lat ± m/f`, `lon ± m/(f·cos lat)` around the centre. A section where a
      number is expected is rejected as non-numeric, since its text is never
      a number. */
  function CalculateBounds(lat: real, lon: real, margin: int, settings: map<string, AppConfig.Cfg>,
                           parseFloat: string -> Option<real>, cosLat: real): (r: Result<Bounds, EnvError>)
    requires 0.0 < cosLat <= 1.0
    ensures var stored := AppConfig.At(settings, AppConfig.PathOf(FactorKey));
      r.Ok? <==>
        && stored.Some? && stored.value.Leaf? && stored.value.text != ""
        && parseFloat(stored.value.text).Some? && parseFloat(stored.value.text).value != 0.0
    ensures var stored := AppConfig.At(settings, AppConfig.PathOf(FactorKey));
      r.Ok? ==> r.value == Around(lat, lon, margin as real, parseFloat(stored.value.text).value, cosLat)
    ensures var stored := AppConfig.At(settings, AppConfig.PathOf(FactorKey));
      && (stored.None? ==> r.Err? && r.error.Setting?)
      && (stored == Some(AppConfig.Leaf("")) ==> r == Err(MissingFactor))
  {
    var path := AppConfig.PathOf(FactorKey);
    AppConfig.LookupMeansAt(settings, path);
    match AppConfig.Lookup(settings, path)
    case Err(e) => Err(Setting(e))
    case Ok(v) =>
      if v.Section? then Err(NotANumber)
      else if v.text == "" then Err(MissingFactor)
      else match parseFloat(v.text)
        case None => Err(NotANumber)
        case Some(f) =>
          if f == 0.0 then Err(DivisionByZero)
          else Ok(Around(lat, lon, margin as real, f, cosLat))
  }

  class Environment {
    const center: (real, real)
    const margin: int
    const bounds: Bounds
    var date: int
    var data: Snapshot
    const windAt: Interpolator
    const currentAt: Interpolator

    /** Stores the fields that `__init__` computes; `Create` computes them. */
    constructor Init(center: (real, real), margin: int, bounds: Bounds, date: int, data: Snapshot,
                     windAt: Interpolator, currentAt: Interpolator)
      ensures this.center == center && this.margin == margin && this.bounds == bounds
      ensures this.date == date && this.data == data
      ensures this.windAt == windAt && this.currentAt == currentAt
    {
      this.center := center;
      this.margin := margin;
      this.bounds := bounds;
      this.date := date;
      this.data := data;
      this.windAt := windAt;
      this.currentAt := currentAt;
    }

    /** `__init__`: margin, bounds, date (the given one, else a random one),
        the first `Update`, then one interpolator per field built from the
        wind and current datasets just fetched. */
    static method Create(lat: real, lon: real, settings: map<string, AppConfig.Cfg>, margin: int,
                         date: Option<int>, randomDate: int, cosLat: real,
                         parseInt: string -> Option<int>, parseFloat: string -> Option<real>,
                         fetch: (Bounds, int) -> Snapshot,
                         interpolate: (Dataset, string, string) -> Interpolator)
      returns (r: Result<Environment, EnvError>)
      requires 0.0 < cosLat <= 1.0
      ensures ChooseMargin(margin, settings, parseInt).Err? ==>
        r == Err(ChooseMargin(margin, settings, parseInt).error)
      ensures ChooseMargin(margin, settings, parseInt).Ok? ==>
        var b := CalculateBounds(lat, lon, ChooseMargin(margin, settings, parseInt).value, settings, parseFloat, cosLat);
        (r.Ok? <==> b.Ok?) && (b.Err? ==> r == Err(b.error))
      ensures r.Ok? ==>
        var e := r.value;
        var m := ChooseMargin(margin, settings, parseInt).value;
        && fresh(e)
        && e.center == (lat, lon) && e.margin == m
        && e.bounds == CalculateBounds(lat, lon, m, settings, parseFloat, cosLat).value
        && e.date == (if date.Some? then date.value else randomDate)
        && e.data == fetch(e.bounds, e.date)
        && e.windAt == interpolate(e.data.wind, "eastward_wind", "northward_wind")
        && e.currentAt == interpolate(e.data.current, "uo", "vo")
    {
      var m := ChooseMargin(margin, settings, parseInt);
      if m.Err? {
        return Err(m.error);
      }
      var b := CalculateBounds(lat, lon, m.value, settings, parseFloat, cosLat);
      if b.Err? {
        return Err(b.error);
      }
      var d := if date.Some? then date.value else randomDate;
      var snapshot := fetch(b.value, d);
      var e := new Environment.Init((lat, lon), m.value, b.value, d, snapshot,
                                    interpolate(snapshot.wind, "eastward_wind", "northward_wind"),
                                    interpolate(snapshot.current, "uo", "vo"));
      return Ok(e);
    }

    /** `Update(date)`: replaces the date only when one is given, then fetches
        fresh datasets for the bounds and that date. The interpolators are
        not rebuilt: queries keep using those made by `__init__`. */
    method Update(newDate: Option<int>, fetch: (Bounds, int) -> Snapshot)
      modifies this`date, this`data
      ensures date == (if newDate.Some? then newDate.value else old(date))
      ensures data == fetch(bounds, date)
    {
      if newDate.Some? {
        date := newDate.value;
      }
      data := fetch(bounds, date);
    }

    /** `Query(lat, lon)`: a point outside the closed bounds rectangle is
        rejected before either interpolator is consulted; a point inside (edges
        included) gets exactly the two keys `net_wind` and `net_current`. */
    function Query(lat: real, lon: real): (r: Result<map<string, (real, real)>, EnvError>)
      ensures r.Ok? <==> Contains(bounds, lat, lon)
      ensures r.Err? ==> r.error == OutOfBounds(lat, lon)
      ensures r.Ok? ==>
        && r.value.Keys == {"net_wind", "net_current"}
        && r.value["net_wind"] == windAt(lat, lon)
        && r.value["net_current"] == currentAt(lat, lon)
    {
      if !(bounds.minLat <= lat <= bounds.maxLat && bounds.minLon <= lon <= bounds.maxLon) then
        Err(OutOfBounds(lat, lon))
      else
        Ok(map["net_wind" := windAt(lat, lon), "net_current" := currentAt(lat, lon)])
    }
  }

  /** An environment whose bounds were drawn with a positive margin and factor
      answers a query at its centre and at all four corners of its bounds. */
  lemma CentreAndCornersQueryable(e: Environment, margin: real, factor: real, cosLat: real)
    requires factor > 0.0 && 0.0 < cosLat <= 1.0 && margin > 0.0
    requires e.bounds == Around(e.center.0, e.center.1, margin, factor, cosLat)
    ensures e.Query(e.center.0, e.center.1).Ok?
    ensures e.Query(e.bounds.minLat, e.bounds.minLon).Ok? && e.Query(e.bounds.maxLat, e.bounds.maxLon).Ok?
    ensures e.Query(e.bounds.minLat, e.bounds.maxLon).Ok? && e.Query(e.bounds.maxLat, e.bounds.minLon).Ok?
  {
    CentreInside(e.center.0, e.center.1, margin, factor, cosLat);
  }
}
