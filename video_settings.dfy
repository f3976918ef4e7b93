/** Bitrate settings of the video tool: the global `formats` of the configuration and the
    per-file overrides of `individualBitrates`, selected by wildcard pattern. */
module VideoSettings {
  import opened Wrappers
  import opened JsValues
  import opened NodePath
  import opened Wildcard

  /** One entry of a `formats` mapping: the bitrates handed to ffmpeg. */
  datatype FormatSettings = FormatSettings(videoBitrate: Value, audioBitrate: Value)

  /** A `formats` mapping, in the order its keys were written. */
  type Formats = seq<(string, FormatSettings)>

  /** What one pattern of `individualBitrates` says: its own `formats` (absent: `None`) and its
      `includeAudio`. */
  datatype Override = Override(formats: Option<Formats>, includeAudio: Value)

  /** The patterns of `individualBitrates` in order, `None` when the key is absent. */
  type Overrides = Option<seq<(string, Override)>>

  /** `formats[k]`: the first entry named `k`, `None` for `undefined`. */
  function Lookup(fs: Formats, k: string): (r: Option<FormatSettings>)
    ensures r.None? <==> forall i :: 0 <= i < |fs| ==> fs[i].0 != k
    ensures r.Some? ==>
      exists i :: 0 <= i < |fs| && fs[i] == (k, r.value) && (forall j :: 0 <= j < i ==> fs[j].0 != k)
  {
    if fs == [] then None
    else if fs[0].0 == k then Some(fs[0].1)
    else
      var r := Lookup(fs[1..], k);
      assert forall i :: 1 <= i < |fs| ==> fs[1..][i - 1] == fs[i];
      r
  }

  lemma {:induction false} LookupAt(fs: Formats, i: nat)
    requires i < |fs| && forall a, b :: 0 <= a < b < |fs| ==> fs[a].0 != fs[b].0
    ensures Lookup(fs, fs[i].0) == Some(fs[i].1)
  {
    if i > 0 {
      LookupAt(fs[1..], i - 1);
    }
  }

  /** An override entry with its audio bitrate filled from the global formats when falsy;
      `None` where `config.formats[format]` is undefined and reading its bitrate throws. */
  function FillEntry(e: (string, FormatSettings), defaults: Formats): Option<(string, FormatSettings)> {
    if Truthy(e.1.audioBitrate) then Some(e)
    else match Lookup(defaults, e.0)
      case None => None
      case Some(d) => Some((e.0, FormatSettings(e.1.videoBitrate, d.audioBitrate)))
  }

  /** The loop over a copy of an override's formats that fills missing audio bitrates; `None`
      when it throws. */
  function FillAudio(fs: Formats, defaults: Formats): (r: Option<Formats>) {
    if fs == [] then Some([])
    else match FillEntry(fs[0], defaults)
      case None => None
      case Some(e) =>
        match FillAudio(fs[1..], defaults)
        case None => None
        case Some(rest) => Some([e] + rest)
  }

  /** Filling keeps every format and its video bitrate, keeps a truthy audio bitrate, takes the
      global audio bitrate for every other one, and fails exactly when some format with a
      falsy audio bitrate has no global counterpart. */
  lemma {:induction false} FillAudioSpec(fs: Formats, defaults: Formats)
    ensures FillAudio(fs, defaults).None? <==>
      exists i :: 0 <= i < |fs| && !Truthy(fs[i].1.audioBitrate) && Lookup(defaults, fs[i].0).None?
    ensures FillAudio(fs, defaults).Some? ==>
      var r := FillAudio(fs, defaults).value;
      |r| == |fs| &&
      forall i :: 0 <= i < |fs| ==>
        r[i].0 == fs[i].0 && r[i].1.videoBitrate == fs[i].1.videoBitrate &&
        r[i].1.audioBitrate ==
          (if Truthy(fs[i].1.audioBitrate) then fs[i].1.audioBitrate
           else Lookup(defaults, fs[i].0).value.audioBitrate)
  {
    if fs != [] {
      FillAudioSpec(fs[1..], defaults);
      assert forall i :: 1 <= i < |fs| ==> fs[1..][i - 1] == fs[i];
      if FillEntry(fs[0], defaults).Some? && FillAudio(fs[1..], defaults).Some? {
        var r := FillAudio(fs, defaults).value;
        assert forall i :: 1 <= i < |fs| ==> r[i] == FillAudio(fs[1..], defaults).value[i - 1];
      }
    }
  }

  /** Filling twice is filling once. The source writes the filled bitrates into the override's
      own entry objects, so a later file matching the same pattern finds them already filled;
      this is why the model may work on values. */
  lemma {:induction false} FillAudioIdempotent(fs: Formats, defaults: Formats)
    requires FillAudio(fs, defaults).Some?
    ensures FillAudio(FillAudio(fs, defaults).value, defaults) == FillAudio(fs, defaults)
  {
    if fs != [] {
      var e := FillEntry(fs[0], defaults).value;
      FillAudioIdempotent(fs[1..], defaults);
      assert FillEntry(e, defaults) == Some(e);
      var r := FillAudio(fs, defaults).value;
      assert r[1..] == FillAudio(fs[1..], defaults).value;
    }
  }

  /** The index of the first pattern that matches `path`, or -1. */
  function FirstMatch(ovs: seq<(string, Override)>, path: string): (i: int)
    ensures -1 <= i < |ovs|
    ensures i >= 0 ==> MatchWildcardPattern(path, ovs[i].0)
    ensures forall j :: 0 <= j < |ovs| && (i == -1 || j < i) ==> !MatchWildcardPattern(path, ovs[j].0)
  {
    if ovs == [] then -1
    else if MatchWildcardPattern(path, ovs[0].0) then 0
    else
      var i := FirstMatch(ovs[1..], path);
      assert forall j :: 1 <= j < |ovs| ==> ovs[1..][j - 1] == ovs[j];
      if i == -1 then -1 else i + 1
  }

  /** What `getIndividualSettings` returns, or that it threw. */
  datatype Individual =
    | Threw
    | Individual(customFormats: Option<Formats>, useAudio: Value)

  /** The settings a matching override gives. */
  function ApplyOverride(o: Override, defaults: Formats): Individual {
    if o.includeAudio == Bool(true) then
      match FillAudio(o.formats.GetOr([]), defaults)
      case None => Threw
      case Some(f) => Individual(Some(f), o.includeAudio)
    else Individual(o.formats, o.includeAudio)
  }

  /** `getIndividualSettings` for the file at `fullRelativePath`. */
  function IndividualSettings(overrides: Overrides, defaults: Formats, fullRelativePath: string): Individual {
    match overrides
    case None => Individual(None, Undefined)
    case Some(ovs) =>
      var i := FirstMatch(ovs, fullRelativePath);
      if i == -1 then Individual(None, Undefined) else ApplyOverride(ovs[i].1, defaults)
  }

  /** `getIndividualSettings(filePath, relativePath)`: the first pattern (in written order)
      matching the path relative to the input directory decides. */
  method GetIndividualSettings(overrides: Overrides, defaults: Formats, relativePath: string, fileName: string)
    returns (r: Individual)
    ensures r == IndividualSettings(overrides, defaults, Join(relativePath, fileName))
  {
    if overrides.None? {
      return Individual(None, Undefined);
    }
    var ovs := overrides.value;
    var path := Join(relativePath, fileName);
    var i := 0;
    while i < |ovs|
      invariant 0 <= i <= |ovs|
      invariant forall j :: 0 <= j < i ==> !MatchWildcardPattern(path, ovs[j].0)
    {
      if MatchWildcardPattern(path, ovs[i].0) {
        assert FirstMatch(ovs, path) == i;
        var settings := ovs[i].1;
        if settings.includeAudio == Bool(true) {
          var fs := settings.formats.GetOr([]);
          var filled := FillAudioLoop(fs, defaults);
          if filled.None? {
            return Threw;
          }
          return Individual(filled, settings.includeAudio);
        }
        return Individual(settings.formats, settings.includeAudio);
      }
      i := i + 1;
    }
    return Individual(None, Undefined);
  }

  function PrependTo(done: Formats, rest: Option<Formats>): Option<Formats> {
    match rest
    case None => None
    case Some(r) => Some(done + r)
  }

  /** The `for (const format in formats)` loop of `getIndividualSettings`. */
  method FillAudioLoop(fs: Formats, defaults: Formats) returns (r: Option<Formats>)
    ensures r == FillAudio(fs, defaults)
  {
    var out: Formats := [];
    var i := 0;
    assert fs[0..] == fs;
    assert PrependTo([], FillAudio(fs, defaults)) == FillAudio(fs, defaults) by {
      if FillAudio(fs, defaults).Some? { assert [] + FillAudio(fs, defaults).value == FillAudio(fs, defaults).value; }
    }
    while i < |fs|
      invariant 0 <= i <= |fs|
      invariant FillAudio(fs, defaults) == PrependTo(out, FillAudio(fs[i..], defaults))
    {
      assert fs[i..][0] == fs[i] && fs[i..][1..] == fs[i + 1..];
      var e := FillEntry(fs[i], defaults);
      if e.None? {
        return None;
      }
      assert FillAudio(fs[i..], defaults) == PrependTo([e.value], FillAudio(fs[i + 1..], defaults));
      assert forall rest: Formats :: out + ([e.value] + rest) == (out + [e.value]) + rest;
      out := out + [e.value];
      i := i + 1;
    }
    assert fs[i..] == [];
    assert out + [] == out;
    return Some(out);
  }

  /** Once a pattern matches, the patterns after it are never consulted. */
  lemma {:induction false} FirstMatchWins(ovs: seq<(string, Override)>, later: seq<(string, Override)>, defaults: Formats, path: string)
    requires exists i :: 0 <= i < |ovs| && MatchWildcardPattern(path, ovs[i].0)
    ensures IndividualSettings(Some(ovs + later), defaults, path) == IndividualSettings(Some(ovs), defaults, path)
  {
    var i := FirstMatch(ovs, path);
    var k := FirstMatch(ovs + later, path);
    assert forall j :: 0 <= j < |ovs| ==> (ovs + later)[j] == ovs[j];
    assert i != -1;
    assert k == i;
  }

  /** A file that no pattern matches takes the global settings. */
  lemma NoMatchUsesGlobals(ovs: seq<(string, Override)>, defaults: Formats, path: string)
    requires forall i :: 0 <= i < |ovs| ==> !MatchWildcardPattern(path, ovs[i].0)
    ensures IndividualSettings(Some(ovs), defaults, path) == Individual(None, Undefined)
  {
    var i := FirstMatch(ovs, path);
    assert i == -1;
  }

  /** The formats a file is encoded with: `customFormats || formats`. */
  function CurrentFormats(ind: Individual, globalFormats: Formats): Formats
    requires ind.Individual?
  {
    ind.customFormats.GetOr(globalFormats)
  }

  /** `useAudio !== undefined ? useAudio : includeAudio` */
  function CurrentIncludeAudio(ind: Individual, globalIncludeAudio: Value): Value
    requires ind.Individual?
  {
    if ind.useAudio != Undefined then ind.useAudio else globalIncludeAudio
  }

  /** With `includeAudio: true`, every format of the override ends up with the global audio
      bitrate wherever its own is missing, and audio is on. */
  lemma {:induction false} AudioOverrideFillsBitrates(o: Override, defaults: Formats, globalFormats: Formats, globalIncludeAudio: Value)
    requires o.includeAudio == Bool(true)
    requires ApplyOverride(o, defaults).Individual?
    ensures var ind := ApplyOverride(o, defaults);
      var cur := CurrentFormats(ind, globalFormats);
      var own := o.formats.GetOr([]);
      CurrentIncludeAudio(ind, globalIncludeAudio) == Bool(true) &&
      |cur| == |own| &&
      forall i :: 0 <= i < |own| ==> (cur[i].0 == own[i].0 &&
        (Truthy(own[i].1.audioBitrate) ==> cur[i].1 == own[i].1) &&
        (!Truthy(own[i].1.audioBitrate) ==>
          (Lookup(defaults, own[i].0).Some? &&
           cur[i].1.audioBitrate == Lookup(defaults, own[i].0).value.audioBitrate)))
  {
    FillAudioSpec(o.formats.GetOr([]), defaults);
  }
}
