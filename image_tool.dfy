/** The image tool: for every PNG, JPEG and SVG file of the input tree, either skip it (its hash
    and compression settings are cached and its output exists) or optimise it (SVG) or start the
    configured sharp encodes (AVIF, WebP, the re-encoded original), caching it only when all of
    them succeed; then prune the output tree. Errors are caught per file and per entry. */
module ImageTool {
  import opened Wrappers
  import opened JsStrings
  import opened JsValues
  import opened NodePath
  import opened FileTree
  import opened ImageOptions
  import opened ImagePrune

  /** The keys of the YAML configuration the tool destructures. */
  datatype ImageConfig = ImageConfig(inputDirectory: string, outputDirectory: string, compression: Value,
                                     forceOptim: Value, svgoOptions: Value, output: Value)

  /** `cache[filePath]` as written after a successful run. */
  datatype ImageEntry = ImageEntry(hash: string, compression: Value, svgoOptions: Value)

  /** The file system and the libraries, as parameters: the SHA-256 hash of every input file that
      can be read (`calculateHash` returns `null` for any other), the paths that exist in the
      output directory, and the inputs whose SVG optimisation or one of whose encodes fails. */
  datatype ImageHost = ImageHost(hashes: map<string, string>, outputs: set<string>, failing: set<string>)

  /** One piece of work the tool starts. */
  datatype Task =
    /** `optimize(svg, options)` written to `output` */
    | Optimise(input: string, options: Fields, output: string)
    /** `sharp(input).<format>(options).toFile(output)` */
    | Encode(input: string, format: string, options: Fields, output: string)

  function InputPath(cfg: ImageConfig, relativePath: string, file: string): string {
    Join(Join(cfg.inputDirectory, relativePath), file)
  }

  function OutputPath(cfg: ImageConfig, relativePath: string, file: string): string {
    Join(Join(cfg.outputDirectory, relativePath), file)
  }

  /** The skip test: not forced, cached with the same hash and the same compression settings
      (`JSON.stringify` of both agrees exactly when the values, key order included, agree), and
      the output of the input's own name exists. */
  predicate UpToDate(cfg: ImageConfig, cache: map<string, ImageEntry>, filePath: string, hash: string,
                     outputPath: string, outputs: set<string>) {
    !Truthy(cfg.forceOptim) && filePath in cache && cache[filePath].hash == hash &&
    cache[filePath].compression == cfg.compression && outputPath in outputs
  }

  predicate Defined(v: Value) {
    v != Undefined && v != Null
  }

  /** `compression[format].quality` and `compression[format].effort`; `None` when one of the
      reads throws. */
  function QualityAndEffort(compression: Value, format: string): (r: Option<(Value, Value)>)
    ensures r.Some? <==> Defined(compression) && Defined(Prop(compression, format))
  {
    match Member(compression, format)
    case Thrown => None
    case Got(c) => if Defined(c) then Some((Prop(c, "quality"), Prop(c, "effort"))) else None
  }

  /** The options of the AVIF and WebP encoders; AVIF always asks for 4:4:4 chroma. */
  function ModernOptions(format: string, quality: Value, effort: Value): Fields {
    if format == "avif" then [("quality", quality), ("chromaSubsampling", Str("4:4:4")), ("effort", effort)]
    else [("quality", quality), ("effort", effort)]
  }

  /** The SVG optimisation: `{ ...svgoOptions, path: filePath }`, written over the input's own
      name. */
  function SvgTask(cfg: ImageConfig, filePath: string, outputPath: string): Task {
    Optimise(filePath, Spread(OwnFields(cfg.svgoOptions), [("path", Str(filePath))]), outputPath)
  }

  /** What part of the task list pushes, and whether it got to its end without throwing (the
      tasks pushed before a throw have been started all the same). */
  datatype Pushed = Pushed(tasks: seq<Task>, ok: bool)

  function Then(a: Pushed, b: Pushed): Pushed {
    if !a.ok then a else Pushed(a.tasks + b.tasks, b.ok)
  }

  /** `if (output.avif) processTasks.push(...)`, likewise for `webp`. */
  function ModernStage(cfg: ImageConfig, format: string, filePath: string, outputPath: string): Pushed {
    match Member(cfg.output, format)
    case Thrown => Pushed([], false)
    case Got(on) =>
      if !Truthy(on) then Pushed([], true)
      else match QualityAndEffort(cfg.compression, format)
        case None => Pushed([], false)
        case Some((q, e)) => Pushed([Encode(filePath, format, ModernOptions(format, q, e), RasterOutput(outputPath, "." + format))], true)
  }

  predicate IsJpegName(file: string) {
    EndsWith(file, ".jpeg") || EndsWith(file, ".jpg")
  }

  function JpegStage(cfg: ImageConfig, file: string, filePath: string, outputPath: string): Pushed {
    if !IsJpegName(file) then Pushed([], true)
    else match Member(cfg.compression, "jpeg")
      case Thrown => Pushed([], false)
      case Got(j) => Pushed([Encode(filePath, "jpeg", JpegOptions(j), JpegOutput(outputPath))], true)
  }

  function PngStage(cfg: ImageConfig, file: string, filePath: string, outputPath: string): Pushed {
    if !EndsWith(file, ".png") then Pushed([], true)
    else match Member(cfg.compression, "png")
      case Thrown => Pushed([], false)
      case Got(p) =>
        match PngConfig(p)
        case None => Pushed([], false)
        case Some(o) => Pushed([Encode(filePath, "png", o, PngOutput(outputPath))], true)
  }

  /** `if (output.original) { ... }` */
  function OriginalStage(cfg: ImageConfig, file: string, filePath: string, outputPath: string): Pushed {
    match Member(cfg.output, "original")
    case Thrown => Pushed([], false)
    case Got(on) =>
      if !Truthy(on) then Pushed([], true)
      else Then(JpegStage(cfg, file, filePath, outputPath), PngStage(cfg, file, filePath, outputPath))
  }

  /** `processTasks` of a raster input, in the order the source pushes them. */
  function RasterTasks(cfg: ImageConfig, file: string, filePath: string, outputPath: string): Pushed {
    Then(Then(ModernStage(cfg, "avif", filePath, outputPath), ModernStage(cfg, "webp", filePath, outputPath)),
         OriginalStage(cfg, file, filePath, outputPath))
  }

  /** The configuration can be read for this file without a TypeError: `output` is an object,
      and every enabled format finds its `compression` section. */
  predicate TasksReadable(cfg: ImageConfig, file: string) {
    Defined(cfg.output) &&
    (Truthy(Prop(cfg.output, "avif")) ==> Defined(cfg.compression) && Defined(Prop(cfg.compression, "avif"))) &&
    (Truthy(Prop(cfg.output, "webp")) ==> Defined(cfg.compression) && Defined(Prop(cfg.compression, "webp"))) &&
    (Truthy(Prop(cfg.output, "original")) && IsJpegName(file) ==> Defined(cfg.compression)) &&
    (Truthy(Prop(cfg.output, "original")) && EndsWith(file, ".png") ==>
       Defined(cfg.compression) && Defined(Prop(cfg.compression, "png")))
  }

  function TaskFormats(ts: seq<Task>): (r: seq<string>)
    requires forall i :: 0 <= i < |ts| ==> ts[i].Encode?
    ensures |r| == |ts|
    ensures forall i :: 0 <= i < |ts| ==> r[i] == ts[i].format
  {
    if ts == [] then [] else [ts[0].format] + TaskFormats(ts[1..])
  }

  /** The name an encode to `format` writes for the output path of the input's own name. */
  function OutputFor(outputPath: string, format: string): string {
    if format == "jpeg" then JpegOutput(outputPath)
    else if format == "png" then PngOutput(outputPath)
    else RasterOutput(outputPath, "." + format)
  }

  lemma ThenTasks(a: Pushed, b: Pushed)
    ensures Then(a, b).ok <==> a.ok && b.ok
    ensures a.ok ==> Then(a, b).tasks == a.tasks + b.tasks
  {
  }

  /** The task list of a raster input completes exactly when the configuration can be read. */
  lemma RasterTasksComplete(cfg: ImageConfig, file: string, filePath: string, outputPath: string)
    requires !(EndsWith(file, ".png") && IsJpegName(file))
    ensures RasterTasks(cfg, file, filePath, outputPath).ok <==> TasksReadable(cfg, file)
  {
    var a := ModernStage(cfg, "avif", filePath, outputPath);
    var w := ModernStage(cfg, "webp", filePath, outputPath);
    var o := OriginalStage(cfg, file, filePath, outputPath);
    ThenTasks(a, w);
    ThenTasks(Then(a, w), o);
    if Defined(cfg.output) && Truthy(Prop(cfg.output, "original")) {
      ThenTasks(JpegStage(cfg, file, filePath, outputPath), PngStage(cfg, file, filePath, outputPath));
    }
  }

  /** Every task is an encode of the input that writes the name `OutputFor` gives its format. */
  predicate WritesOwnOutputs(ts: seq<Task>, filePath: string, outputPath: string) {
    forall i :: 0 <= i < |ts| ==>
      ts[i].Encode? && ts[i].input == filePath && ts[i].output == OutputFor(outputPath, ts[i].format)
  }

  lemma {:induction false} WritesAppend(a: seq<Task>, b: seq<Task>, filePath: string, outputPath: string)
    requires WritesOwnOutputs(a, filePath, outputPath) && WritesOwnOutputs(b, filePath, outputPath)
    ensures WritesOwnOutputs(a + b, filePath, outputPath)
    ensures TaskFormats(a + b) == TaskFormats(a) + TaskFormats(b)
  {
    if a != [] {
      assert (a + b)[1..] == a[1..] + b;
      WritesAppend(a[1..], b, filePath, outputPath);
    }
  }

  lemma ModernStageWrites(cfg: ImageConfig, format: string, filePath: string, outputPath: string)
    requires format == "avif" || format == "webp"
    requires ModernStage(cfg, format, filePath, outputPath).ok
    ensures var ts := ModernStage(cfg, format, filePath, outputPath).tasks;
      WritesOwnOutputs(ts, filePath, outputPath) &&
      TaskFormats(ts) == if Truthy(Prop(cfg.output, format)) then [format] else []
  {
  }

  lemma JpegStageWrites(cfg: ImageConfig, file: string, filePath: string, outputPath: string)
    requires JpegStage(cfg, file, filePath, outputPath).ok
    ensures var ts := JpegStage(cfg, file, filePath, outputPath).tasks;
      WritesOwnOutputs(ts, filePath, outputPath) &&
      TaskFormats(ts) == if IsJpegName(file) then ["jpeg"] else []
  {
  }

  lemma PngStageWrites(cfg: ImageConfig, file: string, filePath: string, outputPath: string)
    requires PngStage(cfg, file, filePath, outputPath).ok
    ensures var ts := PngStage(cfg, file, filePath, outputPath).tasks;
      WritesOwnOutputs(ts, filePath, outputPath) &&
      TaskFormats(ts) == if EndsWith(file, ".png") then ["png"] else []
  {
  }

  lemma OriginalStageWrites(cfg: ImageConfig, file: string, filePath: string, outputPath: string)
    requires OriginalStage(cfg, file, filePath, outputPath).ok
    ensures var ts := OriginalStage(cfg, file, filePath, outputPath).tasks;
      var original := Truthy(Prop(cfg.output, "original"));
      WritesOwnOutputs(ts, filePath, outputPath) &&
      TaskFormats(ts) ==
        (if original && IsJpegName(file) then ["jpeg"] else []) +
        (if original && EndsWith(file, ".png") then ["png"] else [])
  {
    if Truthy(Prop(cfg.output, "original")) {
      var j := JpegStage(cfg, file, filePath, outputPath);
      var p := PngStage(cfg, file, filePath, outputPath);
      ThenTasks(j, p);
      JpegStageWrites(cfg, file, filePath, outputPath);
      PngStageWrites(cfg, file, filePath, outputPath);
      WritesAppend(j.tasks, p.tasks, filePath, outputPath);
    }
  }

  /** With a readable configuration a raster input gets one encode per enabled output, in the
      order AVIF, WebP, then the original's own format; each reads the input and writes the
      name `OutputFor` gives. */
  lemma RasterTasksFormats(cfg: ImageConfig, file: string, filePath: string, outputPath: string)
    requires !(EndsWith(file, ".png") && IsJpegName(file))
    requires TasksReadable(cfg, file)
    ensures var ts := RasterTasks(cfg, file, filePath, outputPath).tasks;
      var original := Truthy(Prop(cfg.output, "original"));
      WritesOwnOutputs(ts, filePath, outputPath) &&
      TaskFormats(ts) ==
        (if Truthy(Prop(cfg.output, "avif")) then ["avif"] else []) +
        (if Truthy(Prop(cfg.output, "webp")) then ["webp"] else []) +
        ((if original && IsJpegName(file) then ["jpeg"] else []) +
         (if original && EndsWith(file, ".png") then ["png"] else []))
  {
    var a := ModernStage(cfg, "avif", filePath, outputPath);
    var w := ModernStage(cfg, "webp", filePath, outputPath);
    var o := OriginalStage(cfg, file, filePath, outputPath);
    RasterTasksComplete(cfg, file, filePath, outputPath);
    ThenTasks(a, w);
    ThenTasks(Then(a, w), o);
    ModernStageWrites(cfg, "avif", filePath, outputPath);
    ModernStageWrites(cfg, "webp", filePath, outputPath);
    OriginalStageWrites(cfg, file, filePath, outputPath);
    ThenWrites(a, w, o, filePath, outputPath);
  }

  /** Three stages that each write their own outputs write them together, formats in order. */
  lemma ThenWrites(a: Pushed, w: Pushed, o: Pushed, filePath: string, outputPath: string)
    requires a.ok && w.ok && o.ok
    requires WritesOwnOutputs(a.tasks, filePath, outputPath) && WritesOwnOutputs(w.tasks, filePath, outputPath)
    requires WritesOwnOutputs(o.tasks, filePath, outputPath)
    ensures WritesOwnOutputs(Then(Then(a, w), o).tasks, filePath, outputPath)
    ensures TaskFormats(Then(Then(a, w), o).tasks) == TaskFormats(a.tasks) + TaskFormats(w.tasks) + TaskFormats(o.tasks)
  {
    WritesAppend(a.tasks, w.tasks, filePath, outputPath);
    WritesAppend(a.tasks + w.tasks, o.tasks, filePath, outputPath);
  }

  /** `if (output.<format>) processTasks.push(...)` for AVIF and WebP: what it pushes, and
      whether it got there without throwing. */
  method PushModern(cfg: ImageConfig, format: string, filePath: string, outputPath: string)
    returns (pushed: seq<Task>, ok: bool)
    ensures Pushed(pushed, ok) == ModernStage(cfg, format, filePath, outputPath)
  {
    if !Defined(cfg.output) {
      return [], false;
    }
    if !Truthy(Prop(cfg.output, format)) {
      return [], true;
    }
    var s := QualityAndEffort(cfg.compression, format);
    if s.None? {
      return [], false;
    }
    return [Encode(filePath, format, ModernOptions(format, s.value.0, s.value.1), RasterOutput(outputPath, "." + format))], true;
  }

  /** `if (output.original) { ... }`: the JPEG re-encode of a `.jpeg`/`.jpg` input, the PNG
      re-encode of a `.png` input. */
  method PushOriginal(cfg: ImageConfig, file: string, filePath: string, outputPath: string)
    returns (pushed: seq<Task>, ok: bool)
    ensures Pushed(pushed, ok) == OriginalStage(cfg, file, filePath, outputPath)
  {
    if !Defined(cfg.output) {
      return [], false;
    }
    pushed := [];
    if !Truthy(Prop(cfg.output, "original")) {
      return [], true;
    }
    if IsJpegName(file) {
      if !Defined(cfg.compression) {
        return [], false;
      }
      pushed := pushed + [Encode(filePath, "jpeg", JpegOptions(Prop(cfg.compression, "jpeg")), JpegOutput(outputPath))];
    }
    assert Pushed(pushed, true) == JpegStage(cfg, file, filePath, outputPath);
    if EndsWith(file, ".png") {
      if !Defined(cfg.compression) {
        return pushed, false;
      }
      var pngConfig := BuildPngConfig(Prop(cfg.compression, "png"));
      if pngConfig.None? {
        return pushed, false;
      }
      pushed := pushed + [Encode(filePath, "png", pngConfig.value, PngOutput(outputPath))];
    }
    return pushed, true;
  }

  /** The task list, built by pushes in the order the source tests the flags. */
  method PlanRasterTasks(cfg: ImageConfig, file: string, filePath: string, outputPath: string)
    returns (tasks: seq<Task>, ok: bool)
    ensures Pushed(tasks, ok) == RasterTasks(cfg, file, filePath, outputPath)
  {
    ghost var avif := ModernStage(cfg, "avif", filePath, outputPath);
    ghost var webp := ModernStage(cfg, "webp", filePath, outputPath);
    ghost var original := OriginalStage(cfg, file, filePath, outputPath);
    ThenTasks(avif, webp);
    ThenTasks(Then(avif, webp), original);
    tasks, ok := PushModern(cfg, "avif", filePath, outputPath);
    if !ok {
      return;
    }
    var pushed;
    pushed, ok := PushModern(cfg, "webp", filePath, outputPath);
    tasks := tasks + pushed;
    if !ok {
      return;
    }
    pushed, ok := PushOriginal(cfg, file, filePath, outputPath);
    tasks := tasks + pushed;
  }

  /** What `processImage` does with one file. */
  datatype ImageOutcome =
    /** the hash could not be computed */
    | Unreadable
    | Skipped
    /** an exception was caught: the cache is not updated */
    | Failed(started: seq<Task>)
    | Processed(started: seq<Task>, entry: ImageEntry)

  function StartedBy(o: ImageOutcome): seq<Task> {
    match o
    case Failed(ts) => ts
    case Processed(ts, _) => ts
    case _ => []
  }

  /** `processImage(file, relativePath)` */
  function PlanImage(cfg: ImageConfig, host: ImageHost, cache: map<string, ImageEntry>, file: string,
                     relativePath: string): ImageOutcome {
    var filePath := InputPath(cfg, relativePath, file);
    if filePath !in host.hashes || host.hashes[filePath] == "" then Unreadable
    else
      var hash := host.hashes[filePath];
      var outputPath := OutputPath(cfg, relativePath, file);
      if UpToDate(cfg, cache, filePath, hash, outputPath, host.outputs) then Skipped
      else
        var p := if EndsWith(file, ".svg") then Pushed([SvgTask(cfg, filePath, outputPath)], true)
                 else RasterTasks(cfg, file, filePath, outputPath);
        if !p.ok || filePath in host.failing then Failed(p.tasks)
        else Processed(p.tasks, ImageEntry(hash, cfg.compression, cfg.svgoOptions))
  }

  /** A readable file is skipped exactly when it is up to date; in particular `forceOptim` and
      a change of the compression settings always reprocess. */
  lemma SkipIffUpToDate(cfg: ImageConfig, host: ImageHost, cache: map<string, ImageEntry>, file: string, relativePath: string)
    requires InputPath(cfg, relativePath, file) in host.hashes
    ensures var filePath := InputPath(cfg, relativePath, file);
      var hash := host.hashes[filePath];
      PlanImage(cfg, host, cache, file, relativePath) == Skipped <==>
        hash != "" && !Truthy(cfg.forceOptim) && filePath in cache && cache[filePath].hash == hash &&
        cache[filePath].compression == cfg.compression && OutputPath(cfg, relativePath, file) in host.outputs
  {
  }

  /** The cache entry is written exactly when every started task succeeded, and it records the
      hash and the settings of this run. */
  lemma ProcessedIffAllSucceed(cfg: ImageConfig, host: ImageHost, cache: map<string, ImageEntry>, file: string, relativePath: string)
    requires !(EndsWith(file, ".png") && IsJpegName(file))
    ensures var filePath := InputPath(cfg, relativePath, file);
      var o := PlanImage(cfg, host, cache, file, relativePath);
      o.Processed? <==>
        (filePath in host.hashes && host.hashes[filePath] != "" &&
         !UpToDate(cfg, cache, filePath, host.hashes[filePath], OutputPath(cfg, relativePath, file), host.outputs) &&
         (EndsWith(file, ".svg") || TasksReadable(cfg, file)) && filePath !in host.failing)
    ensures var o := PlanImage(cfg, host, cache, file, relativePath);
      o.Processed? ==> o.entry == ImageEntry(host.hashes[InputPath(cfg, relativePath, file)], cfg.compression, cfg.svgoOptions)
  {
    RasterTasksComplete(cfg, file, InputPath(cfg, relativePath, file), OutputPath(cfg, relativePath, file));
  }

  /** The paths the tasks write. */
  function TaskOutputs(ts: seq<Task>): set<string> {
    set i | 0 <= i < |ts| :: ts[i].output
  }

  /** A second run over an unchanged input, after a successful first run whose outputs now
      exist, skips it exactly when not forced and an output of the input's own name exists. */
  lemma SecondRun(cfg: ImageConfig, host: ImageHost, cache: map<string, ImageEntry>, file: string, relativePath: string)
    requires PlanImage(cfg, host, cache, file, relativePath).Processed?
    ensures var o := PlanImage(cfg, host, cache, file, relativePath);
      var host2 := host.(outputs := host.outputs + TaskOutputs(o.started));
      var cache2 := cache[InputPath(cfg, relativePath, file) := o.entry];
      PlanImage(cfg, host2, cache2, file, relativePath) == Skipped <==>
        !Truthy(cfg.forceOptim) && OutputPath(cfg, relativePath, file) in host2.outputs
  {
  }

  /** An SVG file is written over its own name, so a successful run is followed by skips. */
  lemma SvgSecondRunSkips(cfg: ImageConfig, host: ImageHost, cache: map<string, ImageEntry>, file: string, relativePath: string)
    requires EndsWith(file, ".svg") && !Truthy(cfg.forceOptim)
    requires PlanImage(cfg, host, cache, file, relativePath).Processed?
    ensures var o := PlanImage(cfg, host, cache, file, relativePath);
      var host2 := host.(outputs := host.outputs + TaskOutputs(o.started));
      PlanImage(cfg, host2, cache[InputPath(cfg, relativePath, file) := o.entry], file, relativePath) == Skipped
  {
    var o := PlanImage(cfg, host, cache, file, relativePath);
    SecondRun(cfg, host, cache, file, relativePath);
    assert o.started[0].output == OutputPath(cfg, relativePath, file);
  }

  /** A PNG file with `output.original` on is re-encoded over its own name, so a successful run
      is followed by skips. */
  lemma PngSecondRunSkips(cfg: ImageConfig, host: ImageHost, cache: map<string, ImageEntry>, file: string, relativePath: string)
    requires EndsWith(file, ".png") && !Truthy(cfg.forceOptim)
    requires PlanImage(cfg, host, cache, file, relativePath).Processed?
    requires Truthy(Prop(cfg.output, "original"))
    ensures var o := PlanImage(cfg, host, cache, file, relativePath);
      var host2 := host.(outputs := host.outputs + TaskOutputs(o.started));
      PlanImage(cfg, host2, cache[InputPath(cfg, relativePath, file) := o.entry], file, relativePath) == Skipped
  {
    var filePath := InputPath(cfg, relativePath, file);
    var outputPath := OutputPath(cfg, relativePath, file);
    var o := PlanImage(cfg, host, cache, file, relativePath);
    PngNameIsNoOther(file);
    SecondRun(cfg, host, cache, file, relativePath);
    ProcessedIffAllSucceed(cfg, host, cache, file, relativePath);
    RasterTasksFormats(cfg, file, filePath, outputPath);
    var ts := o.started;
    var k := |ts| - 1;
    assert TaskFormats(ts)[k] == "png";
    PngOutputUnchanged(outputPath);
    assert ts[k].output == outputPath;
  }

  lemma PngNameIsNoOther(file: string)
    requires EndsWith(file, ".png")
    ensures !IsJpegName(file) && !EndsWith(file, ".svg")
  {
    assert file[|file| - 3] == 'p';
    assert file[|file| - 4] == '.';
  }

  lemma JpegNameIsNoOther(file: string)
    requires EndsWith(file, ".jpeg")
    ensures IsJpegName(file) && !EndsWith(file, ".png") && !EndsWith(file, ".svg")
  {
    assert file[|file| - 3] == 'p';
    assert file[|file| - 4] == 'j';
  }

  /** A `.jpeg` input is looked up under its own name in the output directory, but no task
      writes that name (the original is re-encoded as `.jpg`): unless some other file of that
      name exists, such an input is never skipped and is encoded again on every run. */
  lemma JpegInputNeverSkipped(cfg: ImageConfig, host: ImageHost, cache: map<string, ImageEntry>, file: string, relativePath: string)
    requires EndsWith(file, ".jpeg")
    requires PlanImage(cfg, host, cache, file, relativePath).Processed?
    requires OutputPath(cfg, relativePath, file) !in host.outputs
    ensures var o := PlanImage(cfg, host, cache, file, relativePath);
      var host2 := host.(outputs := host.outputs + TaskOutputs(o.started));
      PlanImage(cfg, host2, cache[InputPath(cfg, relativePath, file) := o.entry], file, relativePath) != Skipped
  {
    JpegNameIsNoOther(file);
    SecondRun(cfg, host, cache, file, relativePath);
    ProcessedIffAllSucceed(cfg, host, cache, file, relativePath);
    JoinKeepsSuffix(Join(cfg.outputDirectory, relativePath), file, ".jpeg");
    JpegTasksMissOwnName(cfg, file, InputPath(cfg, relativePath, file), OutputPath(cfg, relativePath, file));
  }

  lemma JoinKeepsSuffix(dir: string, file: string, suffix: string)
    requires EndsWith(file, suffix)
    ensures EndsWith(Join(dir, file), suffix)
  {
    if dir != "" && file != "" {
      assert Join(dir, file) == (dir + "/") + file;
      assert (dir + "/" + file)[|dir + "/" + file| - |suffix|..] == file[|file| - |suffix|..];
    }
  }

  /** No task of a `.jpeg` input writes the output path of the input's own name. */
  lemma JpegTasksMissOwnName(cfg: ImageConfig, file: string, filePath: string, outputPath: string)
    requires EndsWith(file, ".jpeg") && EndsWith(outputPath, ".jpeg") && TasksReadable(cfg, file)
    ensures outputPath !in TaskOutputs(RasterTasks(cfg, file, filePath, outputPath).tasks)
  {
    JpegNameIsNoOther(file);
    RasterTasksFormats(cfg, file, filePath, outputPath);
    var ts := RasterTasks(cfg, file, filePath, outputPath).tasks;
    NoPngFormat(ts, Truthy(Prop(cfg.output, "avif")), Truthy(Prop(cfg.output, "webp")),
                Truthy(Prop(cfg.output, "original")));
    NoTaskWritesJpegName(ts, filePath, outputPath);
  }

  lemma NoPngFormat(ts: seq<Task>, a: bool, w: bool, o: bool)
    requires forall i :: 0 <= i < |ts| ==> ts[i].Encode?
    requires TaskFormats(ts) == (if a then ["avif"] else []) + (if w then ["webp"] else []) +
                                ((if o then ["jpeg"] else []) + [])
    ensures forall i :: 0 <= i < |ts| ==> ts[i].format != "png"
  {
    var l := TaskFormats(ts);
    NoPngListed(a, w, o, l);
  }

  lemma NoPngListed(a: bool, w: bool, o: bool, l: seq<string>)
    requires l == (if a then ["avif"] else []) + (if w then ["webp"] else []) + ((if o then ["jpeg"] else []) + [])
    ensures forall i :: 0 <= i < |l| ==> l[i] != "png"
  {
    forall i | 0 <= i < |l| ensures l[i] != "png" {
      assert l[i] in l;
    }
  }

  lemma NoTaskWritesJpegName(ts: seq<Task>, filePath: string, outputPath: string)
    requires EndsWith(outputPath, ".jpeg") && WritesOwnOutputs(ts, filePath, outputPath)
    requires forall i :: 0 <= i < |ts| ==> ts[i].format != "png"
    ensures outputPath !in TaskOutputs(ts)
  {
    forall i | 0 <= i < |ts| ensures ts[i].output != outputPath {
      OtherNameThanJpeg(outputPath, ts[i].format);
    }
  }

  /** Only the PNG re-encode writes over the name of a `.jpeg` path. */
  lemma OtherNameThanJpeg(outputPath: string, f: string)
    requires EndsWith(outputPath, ".jpeg") && f != "png"
    ensures OutputFor(outputPath, f) != outputPath
  {
    var n := |outputPath|;
    if f == "jpeg" {
      assert |JpegOutput(outputPath)| == n - 1;
    } else {
      var d := DropLast(outputPath, 5);
      var r := OutputFor(outputPath, f);
      assert r == d + ("." + f);
      if |r| == n {
        assert r[|d|..] == "." + f;
        assert ("." + f)[1..] == f;
        assert outputPath[|d|..] == ".jpeg";
        assert ".jpeg"[1..] == "jpeg";
      }
    }
  }

  /** The state the walk threads through the files: the cache and the tasks started. */
  datatype ImageWalkState = ImageWalkState(cache: map<string, ImageEntry>, started: seq<Task>)

  /** The extension filter of `processDirectory`. */
  predicate IsImageName(name: string) {
    EndsWith(name, ".png") || EndsWith(name, ".jpeg") || EndsWith(name, ".jpg") || EndsWith(name, ".svg")
  }

  function FileStep(cfg: ImageConfig, host: ImageHost, st: ImageWalkState, relativePath: string, file: string): ImageWalkState {
    match PlanImage(cfg, host, st.cache, file, relativePath)
    case Processed(ts, entry) => ImageWalkState(st.cache[InputPath(cfg, relativePath, file) := entry], st.started + ts)
    case Failed(ts) => ImageWalkState(st.cache, st.started + ts)
    case _ => st
  }

  /** `processDirectory(inputDirectory, relativePath)` over the listed entries, in listing order.
      Nothing ends the walk early: an entry `statSync` cannot describe is skipped and every
      file's errors are caught by `processImage`. */
  function ImageWalk(cfg: ImageConfig, host: ImageHost, st: ImageWalkState, relativePath: string, entries: seq<Entry>): ImageWalkState
    decreases entries, 1
  {
    if entries == [] then st
    else ImageWalk(cfg, host, ImageStep(cfg, host, st, relativePath, entries[0]), relativePath, entries[1..])
  }

  function ImageStep(cfg: ImageConfig, host: ImageHost, st: ImageWalkState, relativePath: string, e: Entry): ImageWalkState
    decreases e, 0
  {
    match e
    case Dir(name, kids) => ImageWalk(cfg, host, st, Join(relativePath, name), kids)
    case Dangling(_) => st
    case File(name) => if IsImageName(name) then FileStep(cfg, host, st, relativePath, name) else st
  }

  /** The walk over two runs of entries is the walk over the second from where the first left
      off: whatever happens to an entry, its later siblings are still processed. */
  lemma {:induction false} ImageWalkConcat(cfg: ImageConfig, host: ImageHost, st: ImageWalkState, relativePath: string,
                                           a: seq<Entry>, b: seq<Entry>)
    ensures ImageWalk(cfg, host, st, relativePath, a + b) ==
      ImageWalk(cfg, host, ImageWalk(cfg, host, st, relativePath, a), relativePath, b)
    decreases a
  {
    if a != [] {
      assert (a + b)[0] == a[0] && (a + b)[1..] == a[1..] + b;
      ImageWalkConcat(cfg, host, ImageStep(cfg, host, st, relativePath, a[0]), relativePath, a[1..], b);
    } else {
      assert a + b == b;
    }
  }

  /** The input paths of the image files of a tree whose directory is `relativePath`. */
  function ImagePaths(cfg: ImageConfig, relativePath: string, entries: seq<Entry>): set<string>
    decreases entries
  {
    if entries == [] then {}
    else
      (match entries[0]
       case Dir(name, kids) => ImagePaths(cfg, Join(relativePath, name), kids)
       case Dangling(_) => {}
       case File(name) => if IsImageName(name) then {InputPath(cfg, relativePath, name)} else {})
      + ImagePaths(cfg, relativePath, entries[1..])
  }

  /** The walk writes cache entries for image files only, never removes one, and appends to the
      tasks started before. */
  lemma {:induction false} ImageWalkTouchesOnlyImages(cfg: ImageConfig, host: ImageHost, st: ImageWalkState,
                                                      relativePath: string, entries: seq<Entry>)
    ensures var r := ImageWalk(cfg, host, st, relativePath, entries);
      st.cache.Keys <= r.cache.Keys &&
      (forall k :: k in r.cache && k !in ImagePaths(cfg, relativePath, entries) ==>
         k in st.cache && r.cache[k] == st.cache[k]) &&
      |st.started| <= |r.started| && r.started[..|st.started|] == st.started
    decreases entries, 1
  {
    if entries != [] {
      var st1 := ImageStep(cfg, host, st, relativePath, entries[0]);
      ImageStepTouchesOnlyImages(cfg, host, st, relativePath, entries[0]);
      ImageWalkTouchesOnlyImages(cfg, host, st1, relativePath, entries[1..]);
      assert [entries[0]][1..] == [] && [entries[0]][0] == entries[0];
      assert ImagePaths(cfg, relativePath, entries) ==
        ImagePaths(cfg, relativePath, [entries[0]]) + ImagePaths(cfg, relativePath, entries[1..]);
      var r := ImageWalk(cfg, host, st, relativePath, entries);
      assert r.started[..|st1.started|] == st1.started;
      assert st1.started[..|st.started|] == st.started;
    }
  }

  lemma {:induction false} ImageStepTouchesOnlyImages(cfg: ImageConfig, host: ImageHost, st: ImageWalkState,
                                                      relativePath: string, e: Entry)
    ensures var r := ImageStep(cfg, host, st, relativePath, e);
      st.cache.Keys <= r.cache.Keys &&
      (forall k :: k in r.cache && k !in ImagePaths(cfg, relativePath, [e]) ==> k in st.cache && r.cache[k] == st.cache[k]) &&
      |st.started| <= |r.started| && r.started[..|st.started|] == st.started
    decreases e, 0
  {
    assert [e][1..] == [];
    match e
    case Dir(name, kids) =>
      ImageWalkTouchesOnlyImages(cfg, host, st, Join(relativePath, name), kids);
    case Dangling(_) =>
    case File(name) =>
  }

  /** The tool's state: its configuration and environment, the cache, and the tasks started. */
  class ImageProcessor {
    const config: ImageConfig
    const host: ImageHost
    var cache: map<string, ImageEntry>
    var started: seq<Task>

    constructor(config: ImageConfig, host: ImageHost, cache: map<string, ImageEntry>)
      ensures this.config == config && this.host == host && this.cache == cache && started == []
    {
      this.config := config;
      this.host := host;
      this.cache := cache;
      this.started := [];
    }

    /** `processImage(file, relativePath)`: the cache entry is written only after every task
        succeeded. */
    method ProcessImage(file: string, relativePath: string) returns (outcome: ImageOutcome)
      modifies this
      ensures outcome == PlanImage(config, host, old(cache), file, relativePath)
      ensures started == old(started) + StartedBy(outcome)
      ensures cache == if outcome.Processed? then old(cache)[InputPath(config, relativePath, file) := outcome.entry] else old(cache)
    {
      var filePath := InputPath(config, relativePath, file);
      if filePath !in host.hashes || host.hashes[filePath] == "" {
        return Unreadable;
      }
      var fileHash := host.hashes[filePath];
      var outputPath := OutputPath(config, relativePath, file);
      if UpToDate(config, cache, filePath, fileHash, outputPath, host.outputs) {
        return Skipped;
      }
      var tasks, ok;
      if EndsWith(file, ".svg") {
        tasks, ok := [SvgTask(config, filePath, outputPath)], true;
      } else {
        tasks, ok := PlanRasterTasks(config, file, filePath, outputPath);
      }
      started := started + tasks;
      if !ok || filePath in host.failing {
        return Failed(tasks);
      }
      var entry := ImageEntry(fileHash, config.compression, config.svgoOptions);
      cache := cache[filePath := entry];
      return Processed(tasks, entry);
    }

    /** `processDirectory(inputDirectory, relativePath)` over the listed entries. */
    method ProcessDirectory(relativePath: string, entries: seq<Entry>)
      modifies this
      ensures ImageWalkState(cache, started) == ImageWalk(config, host, ImageWalkState(old(cache), old(started)), relativePath, entries)
      decreases entries
    {
      var i := 0;
      while i < |entries|
        invariant 0 <= i <= |entries|
        invariant ImageWalk(config, host, ImageWalkState(old(cache), old(started)), relativePath, entries) ==
          ImageWalk(config, host, ImageWalkState(cache, started), relativePath, entries[i..])
      {
        assert entries[i..][0] == entries[i] && entries[i..][1..] == entries[i + 1..];
        ghost var st := ImageWalkState(cache, started);
        assert ImageWalk(config, host, st, relativePath, entries[i..]) ==
          ImageWalk(config, host, ImageStep(config, host, st, relativePath, entries[i]), relativePath, entries[i + 1..]);
        match entries[i] {
          case Dir(name, kids) =>
            ProcessDirectory(Join(relativePath, name), kids);
          case Dangling(_) =>
          case File(name) =>
            if IsImageName(name) {
              var o := ProcessImage(name, relativePath);
            }
        }
        assert ImageStep(config, host, st, relativePath, entries[i]) == ImageWalkState(cache, started);
        i := i + 1;
      }
    }

    /** The main flow: the walk over the input tree, then the pruning pass over the output tree;
        the cache is always written back. */
    method Run(pruner: ImagePruner, inputEntries: seq<Entry>, outputEntries: seq<Entry>)
      returns (saved: map<string, ImageEntry>)
      modifies this, pruner
      ensures var w := ImageWalk(config, host, ImageWalkState(old(cache), old(started)), "", inputEntries);
        cache == w.cache && started == w.started && saved == cache &&
        pruner.removed == PruneWalk(pruner.inputs, old(pruner.removed), config.inputDirectory, config.outputDirectory, outputEntries)
    {
      ProcessDirectory("", inputEntries);
      pruner.DeleteRemovedImages(config.inputDirectory, config.outputDirectory, outputEntries);
      return cache;
    }
  }
}
