/** The donut chart adapter of webroot/js/models/DonutChartModel.js: the
    chart closure `nvd3v181.models.donutChart` (series state, margin setter,
    default-state snapshot, legend layout, tooltip series) and the factory
    `DonutChartModel(chartOptions)` that configures it. The nvd3 pie, legend
    and tooltip models are recorded as the settings the adapter gives them. */
module DonutChart {
  import opened Wrappers

  // ---------------------------------------------------------------------
  // Data and accessors
  // ---------------------------------------------------------------------

  /** One slice of data, `{label, value}`, with the `disabled` flag the
      legend sets (`None` while it is undefined). */
  datatype Datum = Datum(caption: string, value: real, disabled: Option<bool>)

  /** `!!d.disabled`. */
  predicate IsDisabled(d: Datum) {
    d.disabled == Some(true)
  }

  /** An accessor `function(d) { return d.<field> }`. The pie's own defaults
      read `d.x` and `d.y`, which a datum does not have. */
  datatype Accessor = FieldX | FieldY | FieldLabel | FieldValue

  /** What an accessor returns. */
  datatype DatumField = Text(text: string) | Number(number: real) | Undefined

  function Read(d: Datum, accessor: Accessor): (v: DatumField)
    ensures accessor == FieldLabel ==> v == Text(d.caption)
    ensures accessor == FieldValue ==> v == Number(d.value)
    ensures accessor == FieldX || accessor == FieldY ==> v == Undefined
  {
    match accessor
    case FieldLabel => Text(d.caption)
    case FieldValue => Number(d.value)
    case _ => Undefined
  }

  // ---------------------------------------------------------------------
  // Legend state: stateGetter / stateSetter
  // ---------------------------------------------------------------------

  /** `stateGetter(data)()`.active: one flag per series, true when it is enabled. */
  function StateGetter(data: seq<Datum>): (active: seq<bool>)
    ensures |active| == |data|
    ensures forall i :: 0 <= i < |data| ==> (active[i] <==> !IsDisabled(data[i]))
  {
    seq(|data|, i requires 0 <= i < |data| => !IsDisabled(data[i]))
  }

  /** The series after `stateSetter(data)({active})`: each series is
      disabled unless its flag is present and true, so series beyond the
      end of `active` become disabled; nothing else changes. */
  function WithActive(data: seq<Datum>, active: seq<bool>): (r: seq<Datum>)
    ensures |r| == |data|
    ensures forall i :: 0 <= i < |data| ==>
      r[i].disabled == Some(!(i < |active| && active[i]))
      && r[i].caption == data[i].caption && r[i].value == data[i].value
  {
    seq(|data|, i requires 0 <= i < |data| => data[i].(disabled := Some(!(i < |active| && active[i]))))
  }

  /** `stateSetter(data)(state)` on the series objects in place; a state
      without `active` changes nothing. */
  method ApplyState(data: array<Datum>, active: Option<seq<bool>>)
    modifies data
    ensures data[..] == if active.None? then old(data[..]) else WithActive(old(data[..]), active.value)
  {
    if active.None? {
      return;
    }
    ghost var target := WithActive(data[..], active.value);
    for i := 0 to data.Length
      invariant data[..i] == target[..i]
      invariant data[i..] == old(data[i..])
    {
      data[i] := data[i].(disabled := Some(!(i < |active.value| && active.value[i])));
      assert data[..i + 1] == target[..i + 1];
    }
    assert data[..] == data[..data.Length];
  }

  /** Setting the state the getter reads makes every `disabled` flag a
      boolean of the same truth value and changes nothing else. */
  lemma SetterAfterGetter(data: seq<Datum>)
    ensures forall i :: 0 <= i < |data| ==>
      WithActive(data, StateGetter(data))[i] == data[i].(disabled := Some(IsDisabled(data[i])))
  {
  }

  /** Reading back a state that was set gives its flags for the series it
      covers and `false` for the rest. */
  lemma GetterAfterSetter(data: seq<Datum>, active: seq<bool>)
    ensures |StateGetter(WithActive(data, active))| == |data|
    ensures forall i :: 0 <= i < |data| ==> StateGetter(WithActive(data, active))[i] == (i < |active| && active[i])
    ensures |active| == |data| ==> StateGetter(WithActive(data, active)) == active
  {
  }

  // ---------------------------------------------------------------------
  // Margin
  // ---------------------------------------------------------------------

  datatype Margin = Margin(top: real, right: real, bottom: real, left: real)

  /** The argument of the `margin` option setter; `None` is an undefined field. */
  datatype MarginUpdate = MarginUpdate(top: Option<real>, right: Option<real>, bottom: Option<real>, left: Option<real>)

  const InitialMargin := Margin(0.0, 0.0, 0.0, 0.0)

  /** The margin after the setter: each supplied field replaces the old
      one, each undefined field keeps it. */
  function MergeMargin(m: Margin, u: MarginUpdate): (r: Margin)
    ensures r.top == u.top.GetOr(m.top) && r.right == u.right.GetOr(m.right)
    ensures r.bottom == u.bottom.GetOr(m.bottom) && r.left == u.left.GetOr(m.left)
  {
    Margin(u.top.GetOr(m.top), u.right.GetOr(m.right), u.bottom.GetOr(m.bottom), u.left.GetOr(m.left))
  }

  /** The update whose fields are those of `second`, falling back to `first`. */
  function Overlay(first: MarginUpdate, second: MarginUpdate): MarginUpdate {
    MarginUpdate(
      if second.top.Some? then second.top else first.top,
      if second.right.Some? then second.right else first.right,
      if second.bottom.Some? then second.bottom else first.bottom,
      if second.left.Some? then second.left else first.left)
  }

  /** The same update twice is the update once. */
  lemma MergeMarginIdempotent(m: Margin, u: MarginUpdate)
    ensures MergeMargin(MergeMargin(m, u), u) == MergeMargin(m, u)
  {
  }

  /** Two updates in a row are one update whose later fields win. */
  lemma MergeMarginCompose(m: Margin, first: MarginUpdate, second: MarginUpdate)
    ensures MergeMargin(MergeMargin(m, first), second) == MergeMargin(m, Overlay(first, second))
  {
  }

  /** An update with every field undefined changes nothing; one with every
      field supplied replaces the whole margin. */
  lemma MergeMarginExtremes(m: Margin, t: real, r: real, b: real, l: real)
    ensures MergeMargin(m, MarginUpdate(None, None, None, None)) == m
    ensures MergeMargin(m, MarginUpdate(Some(t), Some(r), Some(b), Some(l))) == Margin(t, r, b, l)
  {
  }

  // ---------------------------------------------------------------------
  // Chart state and its default snapshot
  // ---------------------------------------------------------------------

  /** A member of the chart's state object: an array of flags (`disabled`),
      or another member (its dispatcher and methods), named. */
  datatype StateValue = Flags(flags: seq<bool>) | Member(name: string)

  type StateMap = map<string, StateValue>

  /** The copy of one state member the snapshot takes: an array member is
      sliced, any other member is taken as it is. Members are values here,
      so both copies are the member itself; the aliasing the slice avoids
      in JavaScript does not arise. */
  function CopyMember(v: StateValue): (r: StateValue)
    ensures r == v
  {
    match v
    case Flags(f) => Flags(f[0..])
    case Member(_) => v
  }

  /** The `for (key in state)` loop that fills a fresh `defaultState`: it
      holds every member of the state, arrays copied. */
  method SnapshotState(state: StateMap) returns (snapshot: StateMap)
    ensures snapshot == state
  {
    snapshot := map[];
    var keys := state.Keys;
    while keys != {}
      invariant keys <= state.Keys
      invariant snapshot.Keys == state.Keys - keys
      invariant forall k :: k in snapshot ==> snapshot[k] == state[k]
      decreases keys
    {
      var key :| key in keys;
      snapshot := snapshot[key := CopyMember(state[key])];
      keys := keys - {key};
    }
  }

  /** `data.map(function(d) { return !!d.disabled })`. */
  function DisabledFlags(data: seq<Datum>): (flags: seq<bool>)
    ensures |flags| == |data|
    ensures forall i :: 0 <= i < |data| ==> flags[i] == IsDisabled(data[i])
  {
    seq(|data|, i requires 0 <= i < |data| => IsDisabled(data[i]))
  }

  /** The disabled flags are the negation of the getter's active flags. */
  lemma DisabledFlagsNegateActive(data: seq<Datum>)
    ensures forall i :: 0 <= i < |data| ==> DisabledFlags(data)[i] == !StateGetter(data)[i]
  {
  }

  // ---------------------------------------------------------------------
  // Legend layout (chart())
  // ---------------------------------------------------------------------

  /** Where the legend goes and how it is sized. */
  datatype LegendBox =
    | NoLegend
    | TopLegend(width: real, translateY: real)
    | RightLegend(width: real, height: real, translateX: real)

  /** The sizes one render gives the pie and the legend, and the top margin it leaves. */
  datatype Placement = Placement(marginTop: real, pieWidth: real, pieHeight: real, legend: LegendBox)

  /** `nv.utils.availableWidth/availableHeight` with no chart size set: the
      container's size less the margins. */
  function AvailableWidth(containerWidth: real, m: Margin): real { containerWidth - m.left - m.right }
  function AvailableHeight(containerHeight: real, m: Margin): real { containerHeight - m.top - m.bottom }

  /** The legend rule of `chart()`. With the legend on top, the top margin
      becomes the legend's height and the pie gets the height left below it.
      With the legend on the right, the legend is as wide as its default
      width but at most a quarter of the available width, the pie gets the
      rest, and the legend is moved 10 pixels past the pie. Otherwise
      nothing is resized. */
  function LegendLayout(showLegend: Option<bool>, legendPosition: Option<string>, m: Margin,
                        containerWidth: real, containerHeight: real,
                        defaultLegendWidth: real, legendHeight: real): (p: Placement)
    ensures showLegend == Some(true) && legendPosition == Some("top") ==>
      && p.marginTop == legendHeight
      && p.pieWidth == AvailableWidth(containerWidth, m)
      && p.pieHeight == containerHeight - legendHeight - m.bottom
      && p.legend == TopLegend(AvailableWidth(containerWidth, m), -legendHeight)
    ensures showLegend == Some(true) && legendPosition == Some("right") ==>
      var aw := AvailableWidth(containerWidth, m);
      && p.legend.RightLegend?
      && p.legend.width <= defaultLegendWidth && p.legend.width <= aw / 4.0
      && (p.legend.width == defaultLegendWidth || p.legend.width == aw / 4.0)
      && p.pieWidth + p.legend.width == aw
      && p.legend.translateX == p.pieWidth + 10.0
      && p.pieHeight == p.legend.height == AvailableHeight(containerHeight, m)
      && p.marginTop == m.top
    ensures !(showLegend == Some(true) && legendPosition in {Some("top"), Some("right")}) ==>
      p == Placement(m.top, AvailableWidth(containerWidth, m), AvailableHeight(containerHeight, m), NoLegend)
  {
    var availableWidth := AvailableWidth(containerWidth, m);
    var availableHeight := AvailableHeight(containerHeight, m);
    if showLegend == Some(true) && legendPosition == Some("top") then
      var top := if m.top != legendHeight then legendHeight else m.top;
      var pieHeight := if m.top != legendHeight then AvailableHeight(containerHeight, m.(top := top)) else availableHeight;
      Placement(top, availableWidth, pieHeight, TopLegend(availableWidth, -top))
    else if showLegend == Some(true) && legendPosition == Some("right") then
      var legendWidth := if availableWidth / 4.0 < defaultLegendWidth then availableWidth / 4.0 else defaultLegendWidth;
      var pieWidth := availableWidth - legendWidth;
      Placement(m.top, pieWidth, availableHeight, RightLegend(legendWidth, availableHeight, pieWidth + 10.0))
    else
      Placement(m.top, availableWidth, availableHeight, NoLegend)
  }

  /** Rendering again with the margin the last render left, in the same
      container, places everything the same way. */
  lemma LegendLayoutStable(showLegend: Option<bool>, legendPosition: Option<string>, m: Margin,
                           containerWidth: real, containerHeight: real,
                           defaultLegendWidth: real, legendHeight: real)
    ensures var p := LegendLayout(showLegend, legendPosition, m, containerWidth, containerHeight, defaultLegendWidth, legendHeight);
      LegendLayout(showLegend, legendPosition, m.(top := p.marginTop), containerWidth, containerHeight, defaultLegendWidth, legendHeight) == p
  {
  }

  /** A right-hand legend never takes more than a quarter of a non-negative
      available width, so the pie keeps at least three quarters of it. */
  lemma RightLegendLeavesPie(m: Margin, containerWidth: real, containerHeight: real,
                             defaultLegendWidth: real, legendHeight: real)
    requires AvailableWidth(containerWidth, m) >= 0.0
    ensures var p := LegendLayout(Some(true), Some("right"), m, containerWidth, containerHeight, defaultLegendWidth, legendHeight);
      p.pieWidth >= AvailableWidth(containerWidth, m) * 3.0 / 4.0
  {
  }

  // ---------------------------------------------------------------------
  // The chart object
  // ---------------------------------------------------------------------

  /** The settings the adapter gives the pie model. */
  datatype PieSettings = PieSettings(
    donut: bool, x: Accessor, y: Accessor, width: Option<real>, height: Option<real>,
    donutRatio: Option<real>, showLabels: Option<bool>, valueFormat: Option<string>)

  /** The settings the factory gives the legend model. */
  datatype LegendSettings = LegendSettings(rightAlign: Option<bool>, padding: Option<real>)

  /** The series the tooltip shows for a hovered slice. */
  datatype Series = Series(key: DatumField, value: DatumField, color: string)

  datatype TooltipEvent = TooltipEvent(data: Datum, color: string, series: Series)

  /** The series of an `elementMouseover` event: the chart's x and y
      accessors applied to the hovered datum, and its colour. */
  function MouseoverSeries(pie: PieSettings, d: Datum, color: string): (s: Series)
    ensures s.key == Read(d, pie.x) && s.value == Read(d, pie.y) && s.color == color
  {
    Series(Read(d, pie.x), Read(d, pie.y), color)
  }

  /** Whether nvd3 draws the tooltip: its `enabled` option must be truthy,
      which for a boolean-or-undefined option means `true`, and it must not
      be hidden. */
  predicate TooltipDrawn(enabled: Option<bool>, hidden: bool) {
    enabled == Some(true) && !hidden
  }

  /** The closure variables of `donutChart()` and the settings of its sub-models. */
  class DonutChart {
    var margin: Margin
    var showLegend: Option<bool>
    var legendPosition: Option<string>
    var defaultState: Option<StateMap>
    var noData: Option<string>
    var duration: int
    /** The members of the chart's `nv.utils.state()` object. */
    var state: StateMap
    var pie: PieSettings
    var legend: LegendSettings
    /** The tooltip's `enabled` option. nvd3 starts it at `true`; `None` is
        an undefined value stored over that default, under which nvd3 draws
        no tooltip. */
    var tooltipEnabled: Option<bool>
    var tooltipHidden: bool
    var tooltipData: Option<TooltipEvent>
    /** The sizes the last render chose. */
    var placement: Option<Placement>

    /** `donutChart()` before any option is set (lines 22-37): a zero
        margin, a legend on the right, no default state yet, a 250 ms
        duration, and an enabled tooltip that is hidden. The pie, legend and
        state start as nvd3 builds them. */
    constructor (basePie: PieSettings, baseLegend: LegendSettings, baseState: StateMap)
      ensures margin == InitialMargin && showLegend == Some(true) && legendPosition == Some("right")
      ensures defaultState == None && noData == None && duration == 250
      ensures state == baseState && pie == basePie && legend == baseLegend
      ensures tooltipEnabled == Some(true) && tooltipHidden && tooltipData == None && placement == None
    {
      margin := InitialMargin;
      showLegend := Some(true);
      legendPosition := Some("right");
      defaultState := None;
      noData := None;
      duration := 250;
      state := baseState;
      pie := basePie;
      legend := baseLegend;
      tooltipEnabled := Some(true);
      tooltipHidden := true;
      tooltipData := None;
      placement := None;
    }

    /** The `margin` option setter, field by field. */
    method SetMargin(u: MarginUpdate)
      modifies this
      ensures margin == MergeMargin(old(margin), u)
      ensures showLegend == old(showLegend) && legendPosition == old(legendPosition)
      ensures defaultState == old(defaultState) && noData == old(noData) && duration == old(duration)
      ensures state == old(state) && pie == old(pie) && legend == old(legend)
      ensures tooltipEnabled == old(tooltipEnabled) && tooltipHidden == old(tooltipHidden)
      ensures tooltipData == old(tooltipData) && placement == old(placement)
    {
      margin := margin.(top := if u.top.Some? then u.top.value else margin.top);
      margin := margin.(right := if u.right.Some? then u.right.value else margin.right);
      margin := margin.(bottom := if u.bottom.Some? then u.bottom.value else margin.bottom);
      margin := margin.(left := if u.left.Some? then u.left.value else margin.left);
    }

    /** One render of `data` in a container of the given size: records the
        disabled flags in the state, snapshots the state as `defaultState`
        if there is none yet, lays out the legend, and gives the pie the
        width and height left for it. The legend's default width and its
        rendered height come from nvd3. */
    method Render(data: seq<Datum>, containerWidth: real, containerHeight: real,
                  defaultLegendWidth: real, legendHeight: real)
      modifies this
      ensures state == old(state)["disabled" := Flags(DisabledFlags(data))]
      ensures old(defaultState).Some? ==> defaultState == old(defaultState)
      ensures old(defaultState).None? ==> defaultState == Some(state)
      ensures placement == Some(LegendLayout(showLegend, legendPosition, old(margin),
                                             containerWidth, containerHeight, defaultLegendWidth, legendHeight))
      ensures margin == old(margin).(top := placement.value.marginTop)
      ensures pie == old(pie).(width := Some(placement.value.pieWidth), height := Some(placement.value.pieHeight))
      ensures showLegend == old(showLegend) && legendPosition == old(legendPosition)
      ensures noData == old(noData) && duration == old(duration) && legend == old(legend)
      ensures tooltipEnabled == old(tooltipEnabled) && tooltipHidden == old(tooltipHidden)
      ensures tooltipData == old(tooltipData)
    {
      var availableWidth := AvailableWidth(containerWidth, margin);
      var availableHeight := AvailableHeight(containerHeight, margin);
      state := state["disabled" := Flags(DisabledFlags(data))];
      if defaultState.None? {
        var snapshot := SnapshotState(state);
        defaultState := Some(snapshot);
      }
      var legendBox := NoLegend;
      if showLegend == Some(true) {
        if legendPosition == Some("top") {
          if margin.top != legendHeight {
            margin := margin.(top := legendHeight);
            availableHeight := AvailableHeight(containerHeight, margin);
          }
          legendBox := TopLegend(availableWidth, -margin.top);
        } else if legendPosition == Some("right") {
          var legendWidth := defaultLegendWidth;
          if availableWidth / 4.0 < legendWidth {
            legendWidth := availableWidth / 4.0;
          }
          availableWidth := availableWidth - legendWidth;
          legendBox := RightLegend(legendWidth, availableHeight, availableWidth + 10.0);
        }
      }
      pie := pie.(width := Some(availableWidth), height := Some(availableHeight));
      placement := Some(Placement(margin.top, availableWidth, availableHeight, legendBox));
    }

    /** The `elementMouseover` handler: the event gets its series and the
        tooltip shows it. */
    method OnElementMouseover(d: Datum, color: string)
      modifies this
      ensures tooltipData == Some(TooltipEvent(d, color, MouseoverSeries(pie, d, color)))
      ensures !tooltipHidden
      ensures TooltipDrawn(tooltipEnabled, tooltipHidden) <==> tooltipEnabled == Some(true)
      ensures margin == old(margin) && showLegend == old(showLegend) && legendPosition == old(legendPosition)
      ensures defaultState == old(defaultState) && noData == old(noData) && duration == old(duration)
      ensures state == old(state) && pie == old(pie) && legend == old(legend)
      ensures tooltipEnabled == old(tooltipEnabled) && placement == old(placement)
    {
      tooltipData := Some(TooltipEvent(d, color, Series(Read(d, pie.x), Read(d, pie.y), color)));
      tooltipHidden := false;
    }

    /** The `elementMouseout` handler hides the tooltip. */
    method OnElementMouseout()
      modifies this
      ensures tooltipHidden && !TooltipDrawn(tooltipEnabled, tooltipHidden)
      ensures margin == old(margin) && showLegend == old(showLegend) && legendPosition == old(legendPosition)
      ensures defaultState == old(defaultState) && noData == old(noData) && duration == old(duration)
      ensures state == old(state) && pie == old(pie) && legend == old(legend)
      ensures tooltipEnabled == old(tooltipEnabled) && tooltipData == old(tooltipData) && placement == old(placement)
    {
      tooltipHidden := true;
    }
  }

  /** Later renders never replace the default state the first one captured. */
  method RenderTwice(chart: DonutChart, first: seq<Datum>, second: seq<Datum>,
                     containerWidth: real, containerHeight: real, defaultLegendWidth: real, legendHeight: real)
    requires chart.defaultState.None?
    modifies chart
    ensures chart.defaultState == Some(old(chart.state)["disabled" := Flags(DisabledFlags(first))])
    ensures chart.state == old(chart.state)["disabled" := Flags(DisabledFlags(second))]
  {
    chart.Render(first, containerWidth, containerHeight, defaultLegendWidth, legendHeight);
    chart.Render(second, containerWidth, containerHeight, defaultLegendWidth, legendHeight);
  }

  // ---------------------------------------------------------------------
  // The factory DonutChartModel(chartOptions)
  // ---------------------------------------------------------------------

  /** The fields of `chartOptions` the factory reads; `None` is undefined. */
  datatype ChartOptions = ChartOptions(
    margin: Option<MarginUpdate>, height: Option<real>, donutRatio: Option<real>,
    showLegend: Option<bool>, legendPosition: Option<string>, showLabels: Option<bool>,
    noDataMessage: Option<string>, showTooltips: Option<bool>, valueFormat: Option<string>,
    legendRightAlign: Option<bool>, legendPadding: Option<real>)

  /** The pie the factory configures: a donut whose slices are named by
      `label` and sized by `value`, with the height, ratio, labels and value
      format passed through. */
  function ConfigurePie(base: PieSettings, options: ChartOptions): (pie: PieSettings)
    ensures pie.donut && pie.x == FieldLabel && pie.y == FieldValue
    ensures pie.height == options.height && pie.donutRatio == options.donutRatio
    ensures pie.showLabels == options.showLabels && pie.valueFormat == options.valueFormat
  {
    base.(donut := true, x := FieldLabel, y := FieldValue, height := options.height,
          donutRatio := options.donutRatio, showLabels := options.showLabels, valueFormat := options.valueFormat)
  }

  /** On a chart the factory configured, the tooltip of a hovered slice shows
      its label as key and its value as value. */
  lemma FactoryTooltipSeries(base: PieSettings, options: ChartOptions, d: Datum, color: string)
    ensures MouseoverSeries(ConfigurePie(base, options), d, color) == Series(Text(d.caption), Number(d.value), color)
  {
  }

  /** Without the factory, the pie's default accessors find nothing in a datum. */
  lemma DefaultAccessorsReadNothing(base: PieSettings, d: Datum, color: string)
    requires base.x == FieldX && base.y == FieldY
    ensures MouseoverSeries(base, d, color) == Series(Undefined, Undefined, color)
  {
  }

  /** `DonutChartModel(chartOptions)`. The margin setter reads the fields of
      `chartOptions.margin`, so when it is undefined the factory throws a
      TypeError (`None`); otherwise the chart is configured as the options
      say. */
  method NewDonutChartModel(options: ChartOptions, basePie: PieSettings,
                            baseLegend: LegendSettings, baseState: StateMap)
    returns (chart: Option<DonutChart>)
    ensures chart.None? <==> options.margin.None?
    ensures chart.Some? ==>
      && fresh(chart.value)
      && chart.value.pie == ConfigurePie(basePie, options)
      && chart.value.margin == MergeMargin(InitialMargin, options.margin.value)
      && chart.value.showLegend == options.showLegend
      && chart.value.legendPosition == options.legendPosition
      && chart.value.noData == options.noDataMessage
      && chart.value.tooltipEnabled == options.showTooltips
      && chart.value.legend == LegendSettings(options.legendRightAlign, options.legendPadding)
      && chart.value.defaultState == None && chart.value.state == baseState
      && chart.value.duration == 250 && chart.value.tooltipHidden
      && chart.value.tooltipData == None && chart.value.placement == None
  {
    var c := new DonutChart(basePie, baseLegend, baseState);
    c.pie := c.pie.(donut := true, x := FieldLabel, y := FieldValue);
    if options.margin.None? {
      return None;
    }
    c.SetMargin(options.margin.value);
    c.pie := c.pie.(height := options.height, donutRatio := options.donutRatio);
    c.showLegend := options.showLegend;
    c.legendPosition := options.legendPosition;
    c.pie := c.pie.(showLabels := options.showLabels);
    c.noData := options.noDataMessage;
    c.tooltipEnabled := options.showTooltips;
    c.pie := c.pie.(valueFormat := options.valueFormat);
    c.legend := LegendSettings(options.legendRightAlign, options.legendPadding);
    chart := Some(c);
  }

  /** A chart built without `showLegend` in its options draws no legend:
      the option setter stores undefined over the default `true`. */
  lemma NoShowLegendNoLegend(legendPosition: Option<string>, m: Margin,
                             containerWidth: real, containerHeight: real,
                             defaultLegendWidth: real, legendHeight: real)
    ensures LegendLayout(None, legendPosition, m, containerWidth, containerHeight, defaultLegendWidth, legendHeight).legend.NoLegend?
  {
  }

  /** Hovering a slice of a factory chart draws the tooltip exactly when
      `showTooltips` was true. Without the option, `tooltip.enabled(undefined)`
      has stored undefined over the default `true`, so no tooltip is drawn. */
  method FactoryHoverDrawsTooltip(options: ChartOptions, basePie: PieSettings,
                                  baseLegend: LegendSettings, baseState: StateMap, d: Datum, color: string)
    returns (drawn: bool)
    requires options.margin.Some?
    ensures drawn <==> options.showTooltips == Some(true)
  {
    var chart := NewDonutChartModel(options, basePie, baseLegend, baseState);
    chart.value.OnElementMouseover(d, color);
    drawn := TooltipDrawn(chart.value.tooltipEnabled, chart.value.tooltipHidden);
  }
}
