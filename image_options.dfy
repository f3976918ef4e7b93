/** The image tool's output names and encoder options: the extension rewriting of the output
    paths, the JPEG options merged over their defaults and the PNG options with their `||`
    fallbacks. */
module ImageOptions {
  import opened Wrappers
  import opened JsStrings
  import opened JsValues

  /** `p` with its last `n` characters dropped. */
  function DropLast(p: string, n: nat): string
    requires n <= |p|
  {
    p[..|p| - n]
  }

  /** `p.replace(/(\.jpeg|\.jpg|\.png)$/, rep)`: a trailing `.jpeg`, `.jpg` or `.png` becomes
      `rep`; any other name is unchanged. */
  function RasterOutput(p: string, rep: string): string {
    if EndsWith(p, ".jpeg") then DropLast(p, 5) + rep
    else if EndsWith(p, ".jpg") then DropLast(p, 4) + rep
    else if EndsWith(p, ".png") then DropLast(p, 4) + rep
    else p
  }

  /** `p.replace(/(\.jpeg|\.jpg)$/, '.jpg')` */
  function JpegOutput(p: string): string {
    if EndsWith(p, ".jpeg") then DropLast(p, 5) + ".jpg"
    else if EndsWith(p, ".jpg") then DropLast(p, 4) + ".jpg"
    else p
  }

  /** `p.replace(/\.png$/, '.png')` */
  function PngOutput(p: string): string {
    if EndsWith(p, ".png") then DropLast(p, 4) + ".png" else p
  }

  lemma DropSuffix(base: string, ext: string)
    ensures EndsWith(base + ext, ext)
    ensures DropLast(base + ext, |ext|) == base
  {
    assert (base + ext)[|base|..] == ext;
    assert (base + ext)[..|base|] == base;
  }

  /** A raster input `base.jpeg`, `base.jpg` or `base.png` is encoded to `base` followed by the
      new extension. */
  lemma RasterOutputOf(base: string, ext: string, rep: string)
    requires ext == ".jpeg" || ext == ".jpg" || ext == ".png"
    ensures RasterOutput(base + ext, rep) == base + rep
  {
    DropSuffix(base, ext);
    if ext == ".jpg" {
      assert !EndsWith(base + ext, ".jpeg") by {
        assert (base + ext)[|base + ext| - 4] == '.';
      }
    }
    if ext == ".png" {
      assert !EndsWith(base + ext, ".jpeg") by {
        assert (base + ext)[|base + ext| - 4] == '.';
      }
      assert !EndsWith(base + ext, ".jpg") by {
        assert (base + ext)[|base + ext| - 3] == 'p';
      }
    }
  }

  /** Both `.jpeg` and `.jpg` inputs are re-encoded as `.jpg`. */
  lemma JpegOutputOf(base: string, ext: string)
    requires ext == ".jpeg" || ext == ".jpg"
    ensures JpegOutput(base + ext) == base + ".jpg"
  {
    DropSuffix(base, ext);
    if ext == ".jpg" {
      assert !EndsWith(base + ext, ".jpeg") by {
        assert (base + ext)[|base + ext| - 4] == '.';
      }
    }
  }

  /** The PNG re-encode writes over the name it was given. */
  lemma PngOutputUnchanged(p: string)
    ensures PngOutput(p) == p
  {
    if EndsWith(p, ".png") {
      assert p == DropLast(p, 4) + p[|p| - 4..];
    }
  }

  /** A name without a raster extension keeps its name. */
  lemma RasterOutputOfOther(p: string, rep: string)
    requires !EndsWith(p, ".jpeg") && !EndsWith(p, ".jpg") && !EndsWith(p, ".png")
    ensures RasterOutput(p, rep) == p && JpegOutput(p) == p
  {
  }

  /** The own enumerable properties that `{...v}` copies: those of an object; the index
      properties `"0"`, `"1"`, ... of a string (one character each) and of an array; none of
      `undefined`, `null`, booleans and numbers. */
  function OwnFields(v: Value): (f: Fields)
    ensures v.Str? ==> |f| == |v.s| && forall i :: 0 <= i < |f| ==> f[i] == (NatToString(i), Str([v.s[i]]))
    ensures v.Arr? ==> |f| == |v.items| && forall i :: 0 <= i < |f| ==> f[i] == (NatToString(i), v.items[i])
    ensures !v.Obj? && !v.Str? && !v.Arr? ==> f == []
  {
    match v
    case Obj(fields) => fields
    case Str(s) => seq(|s|, i requires 0 <= i < |s| => (NatToString(i), Str([s[i]])))
    case Arr(items) => seq(|items|, i requires 0 <= i < |items| => (NatToString(i), items[i]))
    case _ => []
  }

  const JpegDefaults: Fields := [
    ("quality", Num(70)),
    ("chromaSubsampling", Str("4:4:4")),
    ("mozjpeg", Bool(true)),
    ("trellisQuantisation", Bool(true)),
    ("overshootDeringing", Bool(true))]

  /** `{...defaults, ...jpeg}` */
  function JpegOptions(jpeg: Value): Fields {
    Spread(JpegDefaults, OwnFields(jpeg))
  }

  /** Every key configured under `jpeg` overrides its default; every other key keeps its
      default. */
  lemma JpegOptionsGet(jpeg: Value, k: string)
    requires DistinctKeys(OwnFields(jpeg))
    ensures DistinctKeys(JpegOptions(jpeg))
    ensures Get(JpegOptions(jpeg), k) ==
      if HasKey(OwnFields(jpeg), k) then Get(OwnFields(jpeg), k) else Get(JpegDefaults, k)
  {
    assert DistinctKeys(JpegDefaults);
    SpreadGet(JpegDefaults, OwnFields(jpeg), k);
  }

  /** `v.k` on a value known not to be `undefined` or `null`. */
  function Prop(v: Value, k: string): Value
    requires v != Undefined && v != Null
  {
    Member(v, k).value
  }

  /** `if (v !== undefined) o[k] = v` */
  function AssignIfDefined(o: Fields, k: string, v: Value): Fields {
    if v != Undefined then Assign(o, k, v) else o
  }

  /** A conditional assignment of a new key appends it exactly when the value is defined. */
  lemma AssignIfDefinedKeys(o: Fields, k: string, v: Value)
    requires DistinctKeys(o) && !HasKey(o, k)
    ensures DistinctKeys(AssignIfDefined(o, k, v))
    ensures Keys(AssignIfDefined(o, k, v)) == Keys(o) + (if v != Undefined then [k] else [])
    ensures Get(AssignIfDefined(o, k, v), k) == v
  {
    if v != Undefined {
      AssignDistinct(o, k, v);
      KeysAppend(o, (k, v));
    }
  }

  /** A conditional assignment leaves every other key alone. */
  lemma AssignIfDefinedOther(o: Fields, k: string, v: Value, k': string)
    requires DistinctKeys(o) && k' != k
    ensures Get(AssignIfDefined(o, k, v), k') == Get(o, k')
    ensures HasKey(AssignIfDefined(o, k, v), k') <==> HasKey(o, k')
  {
    if v != Undefined {
      AssignGet(o, k, v, k');
      var r := Assign(o, k, v);
      if HasKey(r, k') {
        var i :| 0 <= i < |r| && r[i].0 == k';
        if i < |o| { assert o[i].0 == k'; }
      }
      if HasKey(o, k') {
        var i :| 0 <= i < |o| && o[i].0 == k';
        assert r[i].0 == k';
      }
    }
  }

  /** The object literal of `pngConfig`, with its three `||` fallbacks. */
  function PngLiteral(png: Value): Fields
    requires png != Undefined && png != Null
  {
    [("compressionLevel", Or(Prop(png, "compressionLevel"), Num(9))),
     ("progressive", Or(Prop(png, "progressive"), Bool(false))),
     ("palette", Or(Prop(png, "palette"), Bool(false)))]
  }

  /** The PNG options: the literal, then `quality` and `dither` where configured; `None` when
      `compression.png` is `undefined` or `null` and reading from it throws. */
  function PngConfig(png: Value): (r: Option<Fields>)
    ensures r.None? <==> png == Undefined || png == Null
  {
    if png == Undefined || png == Null then None
    else
      var withQuality := AssignIfDefined(PngLiteral(png), "quality", Prop(png, "quality"));
      Some(AssignIfDefined(withQuality, "dither", Prop(png, "dither")))
  }

  lemma PngLiteralSpec(png: Value)
    requires png != Undefined && png != Null
    ensures var l := PngLiteral(png);
      DistinctKeys(l) && !HasKey(l, "quality") && !HasKey(l, "dither") &&
      Keys(l) == ["compressionLevel", "progressive", "palette"] &&
      Get(l, "compressionLevel") == Or(Prop(png, "compressionLevel"), Num(9)) &&
      Get(l, "progressive") == Or(Prop(png, "progressive"), Bool(false)) &&
      Get(l, "palette") == Or(Prop(png, "palette"), Bool(false))
  {
    var l := PngLiteral(png);
    assert DistinctKeys(l);
    GetAt(l, 0);
    GetAt(l, 1);
    GetAt(l, 2);
  }

  /** `pngConfig` is the literal with `quality`, then `dither`, assigned where configured. */
  lemma PngConfigStages(png: Value)
    requires png != Undefined && png != Null
    ensures var l := PngLiteral(png);
      var w := AssignIfDefined(l, "quality", Prop(png, "quality"));
      PngConfig(png) == Some(AssignIfDefined(w, "dither", Prop(png, "dither")))
  {
  }

  /** The keys of the PNG options: the three of the literal, then `quality` and `dither`
      exactly when configured. */
  lemma PngConfigKeys(png: Value)
    requires png != Undefined && png != Null
    ensures Keys(PngConfig(png).value) == ["compressionLevel", "progressive", "palette"] +
      (if Prop(png, "quality") != Undefined then ["quality"] else []) +
      (if Prop(png, "dither") != Undefined then ["dither"] else [])
  {
    var l := PngLiteral(png);
    var q := Prop(png, "quality");
    var d := Prop(png, "dither");
    PngLiteralSpec(png);
    PngConfigStages(png);
    AssignIfDefinedKeys(l, "quality", q);
    var w := AssignIfDefined(l, "quality", q);
    AssignIfDefinedOther(l, "quality", q, "dither");
    AssignIfDefinedKeys(w, "dither", d);
  }

  /** The values of the PNG options: the three `||` fallbacks (so a configured `0` or `false`
      gives the default), and `quality` and `dither` as configured. */
  lemma PngConfigValues(png: Value)
    requires png != Undefined && png != Null
    ensures var r := PngConfig(png).value;
      Get(r, "compressionLevel") == Or(Prop(png, "compressionLevel"), Num(9)) &&
      Get(r, "progressive") == Or(Prop(png, "progressive"), Bool(false)) &&
      Get(r, "palette") == Or(Prop(png, "palette"), Bool(false)) &&
      Get(r, "quality") == Prop(png, "quality") && Get(r, "dither") == Prop(png, "dither")
  {
    PngLiteralSpec(png);
    PngConfigStages(png);
    var l := PngLiteral(png);
    var q := Prop(png, "quality");
    var d := Prop(png, "dither");
    TwoAssignsGet(l, q, d, "compressionLevel");
    TwoAssignsGet(l, q, d, "progressive");
    TwoAssignsGet(l, q, d, "palette");
    TwoAssignsGet(l, q, d, "quality");
    TwoAssignsGet(l, q, d, "dither");
  }

  lemma TwoAssignsGet(l: Fields, q: Value, d: Value, n: string)
    requires DistinctKeys(l) && !HasKey(l, "quality") && !HasKey(l, "dither")
    ensures Get(AssignIfDefined(AssignIfDefined(l, "quality", q), "dither", d), n) ==
      if n == "dither" then d else if n == "quality" then q else Get(l, n)
  {
    var w := AssignIfDefined(l, "quality", q);
    AssignIfDefinedKeys(l, "quality", q);
    AssignIfDefinedOther(l, "quality", q, "dither");
    AssignIfDefinedKeys(w, "dither", d);
    if n != "dither" {
      AssignIfDefinedOther(w, "dither", d, n);
      if n != "quality" {
        AssignIfDefinedOther(l, "quality", q, n);
      }
    }
  }

  /** The construction of `pngConfig`: the literal, then the assignments made only for
      configured keys. */
  method BuildPngConfig(png: Value) returns (r: Option<Fields>)
    ensures r == PngConfig(png)
  {
    if png == Undefined || png == Null {
      return None;
    }
    var config := [("compressionLevel", Or(Prop(png, "compressionLevel"), Num(9))),
                   ("progressive", Or(Prop(png, "progressive"), Bool(false))),
                   ("palette", Or(Prop(png, "palette"), Bool(false)))];
    if Prop(png, "quality") != Undefined {
      config := Assign(config, "quality", Prop(png, "quality"));
    }
    if Prop(png, "dither") != Undefined {
      config := Assign(config, "dither", Prop(png, "dither"));
    }
    return Some(config);
  }
}
