/** The responsive style helpers: the media queries derived from the breakpoint configuration,
    the unit classification and value processing, and the style rules built for a CSS property,
    with the media entries present exactly when their values are given. A style rule is a
    JavaScript object; the number formatting of the vw and px conversions (`stripUnit`,
    `parseFloat`, `vwCalc`, `vwTabletCalc`, `vwPcCalc`, `toPx`) is left abstract. */
module Responsive {
  import opened Wrappers
  import opened JsStrings
  import opened JsValues

  const PcMqWidthMin: nat := 1024
  const PcOverMqWidthMin: nat := 1512
  const TabletMqWidthMin: nat := 501
  const SpMqWidth: nat := 500
  const UsePixelLimit := false
  const PixelLimitWidth: nat := 1512

  /** The width bounds of a `screen` media query, in px, each optional. */
  datatype WidthRange = WidthRange(min: Option<nat>, max: Option<nat>) {
    /** Whether a viewport `w` px wide satisfies the query. */
    predicate Contains(w: real) {
      (min.None? || min.value as real <= w) && (max.None? || w <= max.value as real)
    }
  }

  const SpRange := WidthRange(None, Some(SpMqWidth))
  const TabletRange := WidthRange(Some(TabletMqWidthMin), Some(PcMqWidthMin - 1))
  const PcRange := WidthRange(Some(PcMqWidthMin), Some(PcOverMqWidthMin - 1))
  const PcOverRange := WidthRange(Some(PcOverMqWidthMin), None)
  const PixelBreakpointRange := WidthRange(Some(PixelLimitWidth), None)

  /** A media query: a `screen` query over a width range, or the hover query. */
  datatype MediaQuery = Screen(range: WidthRange) | Hover {
    /** Its text, as the `mediaQueries` template literals spell it. */
    function Text(): string {
      match this
      case Hover => "(hover: hover)"
      case Screen(r) =>
        "screen" +
        (if r.min.Some? then " and (min-width: " + NatToString(r.min.value) + "px)" else "") +
        (if r.max.Some? then " and (max-width: " + NatToString(r.max.value) + "px)" else "")
    }
  }

  /** `mediaQueries` */
  const SpQuery := Screen(SpRange)
  const TabletQuery := Screen(TabletRange)
  const PcQuery := Screen(PcRange)
  const PcOverQuery := Screen(PcOverRange)
  const HoverQuery := Hover
  const PixelBreakpointQuery := Screen(PixelBreakpointRange)

  /** Every whole-pixel width falls in exactly one of the four layout ranges: up to 500 for
      phones, 501 to 1023 for tablets, 1024 to 1511 for PCs, 1512 and over beyond. */
  lemma MediaRangesPartition(w: int)
    ensures SpRange.Contains(w as real) <==> w <= 500
    ensures TabletRange.Contains(w as real) <==> 501 <= w <= 1023
    ensures PcRange.Contains(w as real) <==> 1024 <= w <= 1511
    ensures PcOverRange.Contains(w as real) <==> 1512 <= w
    ensures (if SpRange.Contains(w as real) then 1 else 0) + (if TabletRange.Contains(w as real) then 1 else 0) +
            (if PcRange.Contains(w as real) then 1 else 0) + (if PcOverRange.Contains(w as real) then 1 else 0) == 1
  {
  }

  /** A fractional width between two whole-pixel bounds satisfies no layout query. */
  lemma FractionalWidthGap()
    ensures !SpRange.Contains(500.5) && !TabletRange.Contains(500.5)
    ensures !TabletRange.Contains(1023.5) && !PcRange.Contains(1023.5)
    ensures !PcRange.Contains(1511.5) && !PcOverRange.Contains(1511.5)
  {
  }

  /** A style rule keys its media entries by query text; keying them by query loses nothing,
      since the layout and hover queries have pairwise distinct texts (they differ in length).
      The pixel-limit query is the pc-over query itself (both start at 1512px). */
  lemma MediaQueryTexts()
    ensures |SpQuery.Text()| == 29 && |TabletQuery.Text()| == 53 && |PcQuery.Text()| == 54
    ensures |PcOverQuery.Text()| == 30 && |HoverQuery.Text()| == 14
    ensures PixelBreakpointQuery == PcOverQuery
  {
    NatToStringLength(500);
    NatToStringLength(501);
    NatToStringLength(1023);
    NatToStringLength(1024);
    NatToStringLength(1511);
    NatToStringLength(1512);
  }

  /** A value a style helper accepts: a string or a number. */
  predicate IsScalar(v: Value) {
    v.Str? || v.Num?
  }

  datatype UnitType = Vw | Px | Auto

  const Units: seq<string> := ["px", "rem", "em", "vh", "%", "pt", "pc", "in", "cm", "mm", "ex", "ch", "vmin", "vmax"]

  /** `/^\d+(\.\d+)?(px|rem|em|vh|%|pt|pc|in|cm|mm|ex|ch|vmin|vmax)$/.test(s)`: digits, an
      optional fraction, then one of the units, and nothing else. */
  predicate NumberWithUnit(s: string) {
    exists i, j | 0 < i <= j <= |s| ::
      AllDigits(s[..i]) &&
      (j == i || (s[i] == '.' && i + 1 < j && AllDigits(s[i + 1..j]))) &&
      s[j..] in Units
  }

  /** `getUnitType(value)` */
  function GetUnitType(value: Value): UnitType {
    if value.Str? && (value.s == "auto" || value.s == "inherit" || value.s == "initial") then Auto
    else if value.Str? && NumberWithUnit(value.s) then Auto
    else Vw
  }

  /** Only a keyword or a number with a unit is left as it is; every number and every other
      string, such as `"16"`, is classified for vw conversion. `px` is never returned. */
  lemma GetUnitTypeCases(value: Value)
    requires IsScalar(value)
    ensures GetUnitType(value) == Auto <==>
      value.Str? && (value.s in {"auto", "inherit", "initial"} || NumberWithUnit(value.s))
    ensures value.Num? ==> GetUnitType(value) == Vw
    ensures GetUnitType(value) != Px
  {
  }

  /** A number with a unit is recognised whatever its digits and unit. */
  lemma NumberWithUnitOf(digits: string, unit: string)
    requires digits != [] && AllDigits(digits) && unit in Units
    ensures NumberWithUnit(digits + unit)
    ensures GetUnitType(Str(digits + unit)) == Auto
  {
    var s := digits + unit;
    assert s[..|digits|] == digits;
    assert s[|digits|..] == unit;
  }

  /** A bare digit string is not a number with a unit, so it is classified for vw conversion. */
  lemma DigitsAloneNotUnit(digits: string)
    requires AllDigits(digits)
    ensures !NumberWithUnit(digits)
    ensures GetUnitType(Str(digits)) == Vw
  {
    forall j | 0 <= j <= |digits| ensures digits[j..] !in Units {
      if j < |digits| {
        assert IsDigit(digits[j..][0]);
      } else {
        assert digits[j..] == [];
      }
    }
    assert digits != "auto" && digits != "inherit" && digits != "initial" by {
      if |digits| > 0 {
        assert IsDigit(digits[0]);
      }
    }
  }

  /** `processValue(value, calcFunc)` */
  function ProcessValue(value: Value, calcFunc: Value -> string): string {
    var unitType := GetUnitType(value);
    if value.Str? || unitType == Auto then ToJsString(value) else calcFunc(value)
  }

  /** A string comes back unchanged whatever its unit type and the conversion; a number is
      always handed to the conversion. The unit type therefore never changes the result. */
  lemma ProcessValueSpec(value: Value, calcFunc: Value -> string, other: Value -> string)
    ensures value.Str? ==> ProcessValue(value, calcFunc) == value.s == ProcessValue(value, other)
    ensures value.Num? ==> ProcessValue(value, calcFunc) == calcFunc(value)
  {
  }

  /** The processed parts of `values`, in order. */
  function ProcessedParts(values: seq<Value>, calcFunc: Value -> string): (r: seq<string>)
    ensures |r| == |values|
    ensures forall i :: 0 <= i < |values| ==> r[i] == ProcessValue(values[i], calcFunc)
  {
    seq(|values|, i requires 0 <= i < |values| => ProcessValue(values[i], calcFunc))
  }

  /** `processValues(values, calcFunc)`: `values.map(...).join(' ')` */
  function ProcessValues(values: seq<Value>, calcFunc: Value -> string): string
  {
    JoinWith(ProcessedParts(values, calcFunc), " ")
  }

  /** The first value comes first, joined to the rest by one space. */
  lemma ProcessValuesCons(values: seq<Value>, calcFunc: Value -> string)
    requires |values| >= 2
    ensures ProcessValues(values, calcFunc) ==
      ProcessValue(values[0], calcFunc) + " " + ProcessValues(values[1..], calcFunc)
  {
    assert ProcessedParts(values, calcFunc)[1..] == ProcessedParts(values[1..], calcFunc);
  }

  /** Joining adds exactly one space between consecutive parts. */
  lemma {:induction false} JoinWithSpaces(parts: seq<string>)
    requires parts != []
    ensures var joined := JoinWith(parts, " ");
      multiset(joined)[' '] == |parts| - 1 + SpacesIn(parts)
  {
    if |parts| > 1 {
      JoinWithSpaces(parts[1..]);
      var joined := JoinWith(parts, " ");
      assert joined == parts[0] + " " + JoinWith(parts[1..], " ");
      assert multiset(joined) == multiset(parts[0]) + multiset(" ") + multiset(JoinWith(parts[1..], " "));
      assert parts == [parts[0]] + parts[1..];
      SpacesInCons(parts[0], parts[1..]);
    } else {
      assert parts == [parts[0]] + [];
      SpacesInCons(parts[0], []);
    }
  }

  /** The spaces inside the parts themselves. */
  function SpacesIn(parts: seq<string>): nat {
    if parts == [] then 0 else multiset(parts[0])[' '] + SpacesIn(parts[1..])
  }

  lemma SpacesInCons(p: string, rest: seq<string>)
    ensures SpacesIn([p] + rest) == multiset(p)[' '] + SpacesIn(rest)
  {
    assert ([p] + rest)[1..] == rest;
  }

  /** The count is preserved: when no processed value holds a space, the joined string holds
      one space fewer than there are values. */
  lemma ProcessValuesCount(values: seq<Value>, calcFunc: Value -> string)
    requires values != []
    requires SpacesIn(ProcessedParts(values, calcFunc)) == 0
    ensures multiset(ProcessValues(values, calcFunc))[' '] == |values| - 1
  {
    JoinWithSpaces(ProcessedParts(values, calcFunc));
  }

  /** `Array.isArray(v) ? v : [v]` */
  function AsArray(v: Value): (r: seq<Value>)
    ensures v.Arr? ==> r == v.items
    ensures !v.Arr? ==> r == [v]
  {
    if v.Arr? then v.items else [v]
  }

  /** `spValue ? AsArray(spValue) : defaultArray`: an omitted or falsy (`0`, `""`) value falls
      back to the default. */
  function OrDefault(v: Value, defaultArray: seq<Value>): (r: seq<Value>)
    ensures Truthy(v) ==> r == AsArray(v)
    ensures !Truthy(v) ==> r == defaultArray
  {
    if Truthy(v) then AsArray(v) else defaultArray
  }

  /** The vw and px conversions, kept abstract. `toPx` is applied to the scalar itself; on a
      string, `toPx(parseFloat(String(v)))` and `toPx(v)` agree, since `stripUnit` of a string is
      `parseFloat` of it. */
  datatype Conversions = Conversions(vwCalc: Value -> string, vwTabletCalc: Value -> string,
                                     vwPcCalc: Value -> string, toPx: Value -> string)

  /** The px rendering of every default value, joined by spaces. */
  function PxValues(values: seq<Value>, toPx: Value -> string): string {
    JoinWith(seq(|values|, i requires 0 <= i < |values| => toPx(values[i])), " ")
  }

  /** A style rule: each key holds a CSS value, a nested rule, or (under `@media`) the rules of
      each media query. The insertion order of the keys is not modelled. */
  datatype Style = Val(v: Value) | Rule(rule: StyleRule) | Media(media: map<MediaQuery, Style>)
  type StyleRule = map<string, Style>

  /** `{ [property]: v }` */
  function Entry(property: string, v: Value): Style {
    Rule(map[property := Val(v)])
  }

  /** `result['@media'][query] = entry` */
  function SetMedia(result: StyleRule, query: MediaQuery, entry: Style): (r: StyleRule)
    requires "@media" in result && result["@media"].Media?
    ensures r.Keys == result.Keys && r["@media"].Media?
    ensures r["@media"].media == result["@media"].media[query := entry]
    ensures forall k :: k in result && k != "@media" ==> r[k] == result[k]
  {
    result["@media" := Media(result["@media"].media[query := entry])]
  }

  /** `createResponsiveStyle(property, defaultValue, spValue, tabletValue, useLimit)`: the
      property holds the pc vw rendering of the default; the sp and tablet entries hold their
      own renderings, of the default where their value is omitted or falsy; the px entry at the
      pixel limit is there exactly when `useLimit` holds, `usePixelLimit` where it is omitted. */
  method CreateResponsiveStyle(property: string, defaultValue: Value, spValue: Value, tabletValue: Value,
                               useLimit: Option<bool>, conv: Conversions) returns (result: StyleRule)
    requires property != "@media"
    ensures result.Keys == {property, "@media"}
    ensures result[property] == Val(Str(ProcessValues(AsArray(defaultValue), conv.vwPcCalc)))
    ensures result["@media"].Media?
    ensures result["@media"].media.Keys == {SpQuery, TabletQuery} + (if useLimit.GetOr(UsePixelLimit) then {PixelBreakpointQuery} else {})
    ensures result["@media"].media[SpQuery] ==
      Entry(property, Str(ProcessValues(OrDefault(spValue, AsArray(defaultValue)), conv.vwCalc)))
    ensures result["@media"].media[TabletQuery] ==
      Entry(property, Str(ProcessValues(OrDefault(tabletValue, AsArray(defaultValue)), conv.vwTabletCalc)))
    ensures useLimit.GetOr(UsePixelLimit) ==>
      result["@media"].media[PixelBreakpointQuery] == Entry(property, Str(PxValues(AsArray(defaultValue), conv.toPx)))
  {
    var defaultArray := AsArray(defaultValue);
    var spArray := OrDefault(spValue, defaultArray);
    var tabletArray := OrDefault(tabletValue, defaultArray);

    var defaultStr := ProcessValues(defaultArray, conv.vwPcCalc);
    var spStr := ProcessValues(spArray, conv.vwCalc);
    var tabletStr := ProcessValues(tabletArray, conv.vwTabletCalc);

    result := map[property := Val(Str(defaultStr)),
                  "@media" := Media(map[SpQuery := Entry(property, Str(spStr)), TabletQuery := Entry(property, Str(tabletStr))])];

    if useLimit.GetOr(UsePixelLimit) {
      var pxStr := PxValues(defaultArray, conv.toPx);
      if "@media" !in result {
        result := result["@media" := Media(map[])];
      }
      result := SetMedia(result, PixelBreakpointQuery, Entry(property, Str(pxStr)));
    }
  }

  /** `values[i]`, `undefined` past the end (array destructuring). */
  function At(values: seq<Value>, i: nat): (v: Value)
    ensures i < |values| ==> v == values[i]
    ensures i >= |values| ==> v == Undefined
  {
    if i < |values| then values[i] else Undefined
  }

  /** `createMqStyle(property, values)` with `[defaultValue, spValue, tabletValue, pcOverValue]
      = values`: the property holds the default as given; `@media` is always present and holds
      an sp and a tablet entry exactly when those values are given, and a pc-over entry exactly
      when the pc-over value or the default is, preferring the pc-over value. */
  method CreateMqStyle(property: string, values: seq<Value>, conv: Conversions) returns (result: StyleRule)
    requires property != "@media"
    ensures result.Keys == {property, "@media"} && result[property] == Val(At(values, 0))
    ensures result["@media"].Media?
    ensures result["@media"].media.Keys ==
      (if At(values, 1) != Undefined then {SpQuery} else {}) +
      (if At(values, 2) != Undefined then {TabletQuery} else {}) +
      (if At(values, 3) != Undefined || At(values, 0) != Undefined then {PcOverQuery} else {})
    ensures At(values, 1) != Undefined ==> result["@media"].media[SpQuery] == Entry(property, At(values, 1))
    ensures At(values, 2) != Undefined ==> result["@media"].media[TabletQuery] == Entry(property, At(values, 2))
    ensures At(values, 3) != Undefined ==> result["@media"].media[PcOverQuery] == Entry(property, At(values, 3))
    ensures At(values, 3) == Undefined && At(values, 0) != Undefined ==>
      result["@media"].media[PcOverQuery] == Entry(property, Str(conv.toPx(At(values, 0))))
  {
    var defaultValue, spValue, tabletValue, pcOverValue := At(values, 0), At(values, 1), At(values, 2), At(values, 3);

    result := map[property := Val(defaultValue)];
    if "@media" !in result {
      result := result["@media" := Media(map[])];
    }


    if spValue != Undefined {
      result := SetMedia(result, SpQuery, Entry(property, spValue));
    }

    if tabletValue != Undefined {
      result := SetMedia(result, TabletQuery, Entry(property, tabletValue));
    }
    if pcOverValue != Undefined {
      result := SetMedia(result, PcOverQuery, Entry(property, pcOverValue));
    } else if defaultValue != Undefined {
      var pcOverCalcValue := conv.toPx(defaultValue);
      result := SetMedia(result, PcOverQuery, Entry(property, Str(pcOverCalcValue)));
    }
  }

  /** `{ '@media': { [query]: styles } }`, the shape of every media wrapper. */
  function InMedia(query: MediaQuery, styles: StyleRule): StyleRule {
    map["@media" := Media(map[query := Rule(styles)])]
  }

  /** `pc(styles)` */
  function Pc(styles: StyleRule): StyleRule {
    InMedia(PcQuery, styles)
  }

  /** `pcOver(styles)` */
  function PcOver(styles: StyleRule): StyleRule {
    InMedia(PcOverQuery, styles)
  }

  /** `sp(styles)` */
  function Sp(styles: StyleRule): StyleRule {
    InMedia(SpQuery, styles)
  }

  /** `tablet(styles)` */
  function Tablet(styles: StyleRule): StyleRule {
    InMedia(TabletQuery, styles)
  }

  /** `pixelBreakpoint(styles)` */
  function PixelBreakpoint(styles: StyleRule): StyleRule {
    InMedia(PixelBreakpointQuery, styles)
  }

  /** Each wrapper nests the rule unchanged under exactly one media query, its own, which is
      found again there; the pixel-limit wrapper builds the same rule as the pc-over one. */
  lemma MediaWrappers(styles: StyleRule)
    ensures Sp(styles).Keys == {"@media"} && Sp(styles)["@media"] == Media(map[SpQuery := Rule(styles)])
    ensures Tablet(styles)["@media"].media.Keys == {TabletQuery} && Tablet(styles)["@media"].media[TabletQuery] == Rule(styles)
    ensures Pc(styles)["@media"].media.Keys == {PcQuery} && Pc(styles)["@media"].media[PcQuery] == Rule(styles)
    ensures PcOver(styles)["@media"].media.Keys == {PcOverQuery} && PcOver(styles)["@media"].media[PcOverQuery] == Rule(styles)
    ensures SpQuery !in Pc(styles)["@media"].media && PcQuery !in Sp(styles)["@media"].media
    ensures PixelBreakpoint(styles) == PcOver(styles)
  {
  }
}
