/**
 * The shared window policy: the short, medium and long analysis windows
 * (draw counts), the unbounded all-history window, and the list of windows
 * the trend analyses walk through. The source keeps these as class-level
 * state of `WindowConfigManager`; here they are the fields of one object.
 */
module WindowConfig {
  import opened Common

  const ShortTerm := "short_term"
  const MediumTerm := "medium_term"
  const LongTerm := "long_term"
  const AllHistory := "all_history"

  /** The standard configuration: 30 / 50 / 100 draws, and all history. */
  const DefaultConfig: map<string, Option<int>> :=
    map[ShortTerm := Some(30), MediumTerm := Some(50), LongTerm := Some(100), AllHistory := None]

  const DefaultTrendWindows: seq<Option<int>> := [Some(30), Some(50), Some(100), None]

  /** `getattr(config_object, 'analysis')` with its three window attributes, `None` when absent. */
  datatype AnalysisSection = AnalysisSection(shortTerm: Option<int>, mediumTerm: Option<int>, longTerm: Option<int>)

  /** A system configuration object, which may lack the `analysis` attribute. */
  datatype ConfigObject = ConfigObject(analysis: Option<AnalysisSection>)

  function OrDefault(x: Option<int>, d: int): (r: Option<int>)
    ensures r.Some?
    ensures x.Some? ==> r == x
    ensures x.None? ==> r == Some(d)
  {
    if x.Some? then x else Some(d)
  }

  /**
   * The configuration `update_from_config` hands to `set_window_config`:
   * each missing attribute defaults to 30 / 50 / 100.
   */
  function SectionConfig(a: AnalysisSection): (m: map<string, Option<int>>)
    ensures m.Keys == {ShortTerm, MediumTerm, LongTerm}
    ensures m[ShortTerm] == OrDefault(a.shortTerm, 30)
    ensures m[MediumTerm] == OrDefault(a.mediumTerm, 50)
    ensures m[LongTerm] == OrDefault(a.longTerm, 100)
  {
    map[ShortTerm := OrDefault(a.shortTerm, 30), MediumTerm := OrDefault(a.mediumTerm, 50),
        LongTerm := OrDefault(a.longTerm, 100)]
  }

  /** `c.get(k, old[k])` for the key k of the configuration. */
  function Override(previous: map<string, Option<int>>, config: map<string, Option<int>>, k: string): Option<int>
    requires k in previous
  {
    if k in config then config[k] else previous[k]
  }

  class WindowConfigManager {
    var windowConfig: map<string, Option<int>>
    var trendWindows: seq<Option<int>>

    /**
     * The manager's state is always the four named windows, all history
     * is always unbounded, and the trend list always follows the three
     * bounded windows.
     */
    predicate Valid()
      reads this
    {
      windowConfig.Keys == {ShortTerm, MediumTerm, LongTerm, AllHistory} &&
      windowConfig[AllHistory] == None &&
      trendWindows == [windowConfig[ShortTerm], windowConfig[MediumTerm], windowConfig[LongTerm], None]
    }

    /** The class attributes as the module defines them. */
    constructor()
      ensures Valid()
      ensures windowConfig == DefaultConfig && trendWindows == DefaultTrendWindows
    {
      windowConfig := DefaultConfig;
      trendWindows := DefaultTrendWindows;
    }

    /** `get_all_windows`: a copy of the whole configuration. */
    method GetAllWindows() returns (m: map<string, Option<int>>)
      ensures m == windowConfig
    {
      m := windowConfig;
    }

    /** `get_standard_windows`: the three bounded windows only. */
    method GetStandardWindows() returns (m: map<string, Option<int>>)
      requires Valid()
      ensures m.Keys == {ShortTerm, MediumTerm, LongTerm}
      ensures forall k :: k in m ==> m[k] == windowConfig[k]
    {
      m := map[ShortTerm := windowConfig[ShortTerm], MediumTerm := windowConfig[MediumTerm],
               LongTerm := windowConfig[LongTerm]];
    }

    /** `get_window_by_name`: `dict.get`, which never raises. */
    method GetWindowByName(name: string) returns (w: Option<int>)
      requires Valid()
      ensures name in windowConfig ==> w == windowConfig[name]
      ensures name !in {ShortTerm, MediumTerm, LongTerm} ==> w == None
    {
      w := if name in windowConfig then windowConfig[name] else None;
    }

    /** `get_trend_windows`: a copy of the trend list. */
    method GetTrendWindows() returns (ws: seq<Option<int>>)
      requires Valid()
      ensures ws == trendWindows
      ensures |ws| == 4 && ws[3] == None
    {
      ws := trendWindows;
    }

    /**
     * `set_window_config`: each of the three bounded windows present in
     * `config` is replaced, nothing else is, and the trend list is rebuilt
     * from the new values.
     */
    method SetWindowConfig(config: map<string, Option<int>>)
      requires Valid()
      modifies this
      ensures Valid()
      ensures windowConfig == old(windowConfig)[ShortTerm := Override(old(windowConfig), config, ShortTerm)]
                                               [MediumTerm := Override(old(windowConfig), config, MediumTerm)]
                                               [LongTerm := Override(old(windowConfig), config, LongTerm)]
      ensures trendWindows == [windowConfig[ShortTerm], windowConfig[MediumTerm], windowConfig[LongTerm], None]
    {
      if ShortTerm in config {
        windowConfig := windowConfig[ShortTerm := config[ShortTerm]];
      }
      if MediumTerm in config {
        windowConfig := windowConfig[MediumTerm := config[MediumTerm]];
      }
      if LongTerm in config {
        windowConfig := windowConfig[LongTerm := config[LongTerm]];
      }
      trendWindows := [windowConfig[ShortTerm], windowConfig[MediumTerm], windowConfig[LongTerm], None];
    }

    /**
     * `update_from_config`: nothing happens without an `analysis`
     * section; otherwise the three windows are set, missing ones at their
     * defaults.
     */
    method UpdateFromConfig(configObject: ConfigObject)
      requires Valid()
      modifies this
      ensures Valid()
      ensures configObject.analysis.None? ==>
        windowConfig == old(windowConfig) && trendWindows == old(trendWindows)
      ensures configObject.analysis.Some? ==>
        var a := configObject.analysis.value;
        windowConfig == old(windowConfig)[ShortTerm := OrDefault(a.shortTerm, 30)]
                                         [MediumTerm := OrDefault(a.mediumTerm, 50)]
                                         [LongTerm := OrDefault(a.longTerm, 100)]
    {
      if configObject.analysis.Some? {
        SetWindowConfig(SectionConfig(configObject.analysis.value));
      }
    }
  }

  /** Setting an empty configuration changes nothing. */
  method SetEmptyIsNoOp(m: WindowConfigManager)
    requires m.Valid()
    modifies m
    ensures m.windowConfig == old(m.windowConfig) && m.trendWindows == old(m.trendWindows)
  {
    m.SetWindowConfig(map[]);
  }
}
