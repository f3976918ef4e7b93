/** The video tool: every `.mp4`/`.mov` file under the input directory is encoded to H.264,
    H.265 and VP9 with a poster image, unless the cache shows it is up to date. */
module VideoTool {
  import opened Wrappers
  import opened JsStrings
  import opened JsValues
  import opened NodePath
  import opened FileTree
  import opened VideoSettings
  import opened VideoCache
  import opened VideoPrune

  /** The keys of the configuration file the tool reads. */
  datatype VideoConfig = VideoConfig(
    inputDirectory: string,
    outputDirectory: string,
    formats: Formats,
    includeAudio: Value,
    audioFrequency: Value,
    webpQuality: Value,
    syncDir: Value,
    individualBitrates: Overrides)

  /** `syncDir = true` in the destructuring: only an absent key takes the default. */
  predicate SyncDirEnabled(cfg: VideoConfig) {
    cfg.syncDir == Undefined || Truthy(cfg.syncDir)
  }

  /** What the file system and ffmpeg answer: the SHA-256 of each readable input, the output
      paths that exist, and the inputs for which the poster or an encode fails. */
  datatype VideoHost = VideoHost(
    hashes: map<string, string>,
    outputs: set<string>,
    posterFails: set<string>,
    encodeFails: set<string>)

  datatype Audio = NoAudio | WithAudio(bitrate: Value, frequency: Value)

  /** An external command the tool starts. */
  datatype Command =
    | Poster(input: string, output: string, quality: Value)
    | Encode(input: string, codec: string, videoBitrate: Value, audio: Audio, output: string)

  /** `convertFile`: audio is kept only when it is enabled and a bitrate is given. */
  function ConvertFile(input: string, outputPath: string, name: string, extension: string, codec: string,
                       videoBitrate: Value, audioBitrate: Value, useAudio: Value, frequency: Value): (c: Command)
    ensures c.Encode? && c.input == input && c.codec == codec && c.videoBitrate == videoBitrate
    ensures c.output == outputPath + "/" + name + "." + extension
    ensures c.audio.WithAudio? <==> Truthy(useAudio) && Truthy(audioBitrate)
    ensures c.audio.WithAudio? ==> c.audio == WithAudio(audioBitrate, frequency)
  {
    var audio := if Truthy(useAudio) && Truthy(audioBitrate) then WithAudio(audioBitrate, frequency) else NoAudio;
    Encode(input, codec, videoBitrate, audio, outputPath + "/" + name + "." + extension)
  }

  /** One of the three encodes: the format it reads, its codec, and what its output name adds to
      the base name. */
  datatype Target = Target(format: string, codec: string, suffix: string, extension: string)

  const Mp4: Target := Target("mp4", "libx264", "", "mp4")
  const H265: Target := Target("h265", "libx265", "-h265", "mp4")
  const Webm: Target := Target("webm", "libvpx-vp9", "", "webm")

  predicate HasAllTargets(formats: Formats) {
    Lookup(formats, Mp4.format).Some? && Lookup(formats, H265.format).Some? && Lookup(formats, Webm.format).Some?
  }

  /** The `convertFile` call for target `t` with the settings `f` of its format. */
  function EncodeFor(t: Target, f: FormatSettings, input: string, outputPath: string, base: string,
                     useAudio: Value, frequency: Value): Command {
    ConvertFile(input, outputPath, base + t.suffix, t.extension, t.codec, f.videoBitrate,
                if Truthy(useAudio) then f.audioBitrate else Null, useAudio, frequency)
  }

  /** The three `convertFile` calls in the order their arguments are evaluated: the encodes
      started before reading the bitrate of a missing format throws, and whether none was
      missing. */
  function StartEncodes(input: string, outputPath: string, base: string,
                        formats: Formats, useAudio: Value, frequency: Value): (r: (seq<Command>, bool))
    ensures r.1 <==> HasAllTargets(formats)
    ensures |r.0| <= 3 && (r.1 ==> |r.0| == 3)
  {
    match Lookup(formats, Mp4.format)
    case None => ([], false)
    case Some(m) =>
      var c1 := EncodeFor(Mp4, m, input, outputPath, base, useAudio, frequency);
      match Lookup(formats, H265.format)
      case None => ([c1], false)
      case Some(h) =>
        var c2 := EncodeFor(H265, h, input, outputPath, base, useAudio, frequency);
        match Lookup(formats, Webm.format)
        case None => ([c1, c2], false)
        case Some(w) => ([c1, c2, EncodeFor(Webm, w, input, outputPath, base, useAudio, frequency)], true)
  }

  /** What processing one input comes to. `started` lists the commands started, in order. */
  datatype VideoOutcome =
    | Skipped
    | Processed(started: seq<Command>, entry: VideoEntry)
    | Crashed(started: seq<Command>)

  function StartedBy(o: VideoOutcome): seq<Command> {
    if o.Skipped? then [] else o.started
  }

  /** The formats and the audio switch an input is encoded with; `None` when resolving them
      throws (in `getIndividualSettings`, or in the progress message, which reads the audio
      bitrate of all three formats when audio is on). */
  function ResolveSettings(cfg: VideoConfig, relativePath: string, filename: string): Option<(Formats, Value)> {
    var ind := IndividualSettings(cfg.individualBitrates, cfg.formats, Join(relativePath, filename));
    if ind.Threw? then None
    else
      var formats := CurrentFormats(ind, cfg.formats);
      var audio := CurrentIncludeAudio(ind, cfg.includeAudio);
      if Truthy(audio) && !HasAllTargets(formats) then None
      else Some((formats, audio))
  }

  /** The poster and the encodes of an input that must be processed. */
  function EncodeInput(cfg: VideoConfig, host: VideoHost, inputPath: string, outputPath: string, filename: string,
                       formats: Formats, audio: Value, hash: string): VideoOutcome
  {
    var base := ReplaceFirst(filename, ".mp4", "");
    var poster := Poster(inputPath, outputPath + "/" + base + ".webp", cfg.webpQuality);
    if inputPath in host.posterFails then Crashed([poster])
    else
      var (encodes, complete) := StartEncodes(inputPath, outputPath, base, formats, audio, cfg.audioFrequency);
      if !complete || inputPath in host.encodeFails then Crashed([poster] + encodes)
      else Processed([poster] + encodes, VideoEntry(hash, formats, audio))
  }

  /** `processVideoFile(inputPath, outputPath, filename, relativePath)` as a function of the
      configuration, the host and the cache. */
  function PlanVideoFile(cfg: VideoConfig, host: VideoHost, cache: map<string, VideoEntry>,
                         inputPath: string, outputPath: string, filename: string, relativePath: string): VideoOutcome
  {
    match ResolveSettings(cfg, relativePath, filename)
    case None => Crashed([])
    case Some((formats, audio)) =>
      if inputPath !in host.hashes then Crashed([])
      else
        var hash := host.hashes[inputPath];
        var verdict := ProcessedBefore(cache, inputPath, outputPath, filename, hash, formats, host.outputs);
        if verdict == CheckThrew then Crashed([])
        else if verdict == AlreadyProcessed then Skipped
        else EncodeInput(cfg, host, inputPath, outputPath, filename, formats, audio, hash)
  }

  /** An input is skipped exactly when its settings resolve, its content can be hashed, and
      `isFileProcessedBefore` finds it processed with the same hash, all outputs present and
      the same bitrates. */
  lemma SkipIffUpToDate(cfg: VideoConfig, host: VideoHost, cache: map<string, VideoEntry>,
                        inputPath: string, outputPath: string, filename: string, relativePath: string)
    ensures PlanVideoFile(cfg, host, cache, inputPath, outputPath, filename, relativePath) == Skipped <==>
      var ind := IndividualSettings(cfg.individualBitrates, cfg.formats, Join(relativePath, filename));
      ind.Individual? &&
      (Truthy(CurrentIncludeAudio(ind, cfg.includeAudio)) ==> HasAllTargets(CurrentFormats(ind, cfg.formats))) &&
      inputPath in host.hashes && inputPath in cache &&
      cache[inputPath].hash == host.hashes[inputPath] &&
      (forall o :: o in ExpectedOutputs(outputPath, filename, CurrentFormats(ind, cfg.formats)) ==> o in host.outputs) &&
      (forall i :: 0 <= i < |cache[inputPath].bitrates| ==>
         Lookup(CurrentFormats(ind, cfg.formats), cache[inputPath].bitrates[i].0) == Some(cache[inputPath].bitrates[i].1))
  {
  }

  /** The step from `isFileProcessedBefore` to a skipped input. */
  lemma SkippedWhenFoundProcessed(cfg: VideoConfig, host: VideoHost, cache: map<string, VideoEntry>,
                                  inputPath: string, outputPath: string, filename: string, relativePath: string,
                                  formats: Formats, audio: Value)
    requires ResolveSettings(cfg, relativePath, filename) == Some((formats, audio))
    requires inputPath in host.hashes
    requires ProcessedBefore(cache, inputPath, outputPath, filename, host.hashes[inputPath], formats, host.outputs) == AlreadyProcessed
    ensures PlanVideoFile(cfg, host, cache, inputPath, outputPath, filename, relativePath) == Skipped
  {
  }

  /** `c` is the encode for target `t` with the settings `f`: its codec, its bitrate, its output
      name, and audio exactly when audio is on and the format has an audio bitrate. */
  predicate EncodesAs(c: Command, t: Target, f: FormatSettings, outputPath: string, base: string, audio: Value) {
    c.Encode? && c.codec == t.codec && c.videoBitrate == f.videoBitrate &&
    c.output == outputPath + "/" + (base + t.suffix) + "." + t.extension &&
    (c.audio.WithAudio? <==> Truthy(audio) && Truthy(f.audioBitrate))
  }

  /** A processed input starts the poster and the three encodes, each with the bitrates of its
      format; the cache entry records the hash and the settings used. */
  lemma ProcessedStartsFourCommands(cfg: VideoConfig, host: VideoHost, cache: map<string, VideoEntry>,
                                    inputPath: string, outputPath: string, filename: string, relativePath: string)
    requires PlanVideoFile(cfg, host, cache, inputPath, outputPath, filename, relativePath).Processed?
    ensures ResolveSettings(cfg, relativePath, filename).Some?
    ensures var o := PlanVideoFile(cfg, host, cache, inputPath, outputPath, filename, relativePath);
      var (formats, audio) := ResolveSettings(cfg, relativePath, filename).value;
      var base := ReplaceFirst(filename, ".mp4", "");
      HasAllTargets(formats) &&
      o.entry == VideoEntry(host.hashes[inputPath], formats, audio) &&
      |o.started| == 4 &&
      o.started[0] == Poster(inputPath, outputPath + "/" + base + ".webp", cfg.webpQuality) &&
      EncodesAs(o.started[1], Mp4, Lookup(formats, Mp4.format).value, outputPath, base, audio) &&
      EncodesAs(o.started[2], H265, Lookup(formats, H265.format).value, outputPath, base, audio) &&
      EncodesAs(o.started[3], Webm, Lookup(formats, Webm.format).value, outputPath, base, audio)
  {
  }

  /** A changed content hash always leads to a new encode attempt. */
  lemma HashChangeReprocesses(cfg: VideoConfig, host: VideoHost, cache: map<string, VideoEntry>,
                              inputPath: string, outputPath: string, filename: string, relativePath: string)
    requires inputPath in cache && inputPath in host.hashes && cache[inputPath].hash != host.hashes[inputPath]
    ensures PlanVideoFile(cfg, host, cache, inputPath, outputPath, filename, relativePath) != Skipped
  {
  }

  /** The name of an input whose first `.mp4` is its extension. */
  predicate Mp4Name(filename: string) {
    |filename| >= 4 && IndexOf(filename, ".mp4") == |filename| - 4
  }

  /** Running again over an input just processed, with the same content, the same configuration
      and its outputs in place, encodes nothing, as long as its formats are among `mp4`,
      `h265` and `webm` (another key would be looked for under a name never written). */
  lemma {:induction false} SecondRunSkips(cfg: VideoConfig, host: VideoHost, cache: map<string, VideoEntry>,
                                          host2: VideoHost, cache2: map<string, VideoEntry>,
                                          inputPath: string, outputPath: string, filename: string, relativePath: string)
    requires PlanVideoFile(cfg, host, cache, inputPath, outputPath, filename, relativePath).Processed?
    requires var o := PlanVideoFile(cfg, host, cache, inputPath, outputPath, filename, relativePath);
      inputPath in cache2 && cache2[inputPath] == o.entry &&
      inputPath in host2.hashes && host2.hashes[inputPath] == host.hashes[inputPath] &&
      (forall c :: c in o.started ==> c.output in host2.outputs) &&
      (forall a, b :: 0 <= a < b < |o.entry.bitrates| ==> o.entry.bitrates[a].0 != o.entry.bitrates[b].0) &&
      (forall i :: 0 <= i < |o.entry.bitrates| ==> o.entry.bitrates[i].0 in {"mp4", "h265", "webm"})
    requires Mp4Name(filename) && outputPath != ""
    ensures PlanVideoFile(cfg, host2, cache2, inputPath, outputPath, filename, relativePath) == Skipped
  {
    var o := PlanVideoFile(cfg, host, cache, inputPath, outputPath, filename, relativePath);
    ProcessedStartsFourCommands(cfg, host, cache, inputPath, outputPath, filename, relativePath);
    var (formats, audio) := ResolveSettings(cfg, relativePath, filename).value;
    var hash := host.hashes[inputPath];
    Mp4NameReplace(filename, "");
    EncodesWriteExpectedOutputs(outputPath, filename, formats, audio, o.started);
    assert cache2[inputPath] == VideoEntry(hash, formats, audio);
    ExpectedOutputsPresent(outputPath, filename, formats, o.started, host2.outputs);
    FoundProcessedAfterEncoding(cache2, inputPath, outputPath, filename, hash, formats, audio, host2.outputs);
    SkippedWhenFoundProcessed(cfg, host2, cache2, inputPath, outputPath, filename, relativePath, formats, audio);
  }

  /** The four commands of a processed input write every output `isFileProcessedBefore` looks
      for, when its formats are among `mp4`, `h265` and `webm`. */
  lemma EncodesWriteExpectedOutputs(outputPath: string, filename: string, formats: Formats, audio: Value,
                                    cmds: seq<Command>)
    requires Mp4Name(filename) && outputPath != "" && HasAllTargets(formats) && |cmds| == 4
    requires forall i :: 0 <= i < |formats| ==> formats[i].0 in {Mp4.format, H265.format, Webm.format}
    requires var base := filename[..|filename| - 4];
      EncodesAs(cmds[1], Mp4, Lookup(formats, Mp4.format).value, outputPath, base, audio) &&
      EncodesAs(cmds[2], H265, Lookup(formats, H265.format).value, outputPath, base, audio) &&
      EncodesAs(cmds[3], Webm, Lookup(formats, Webm.format).value, outputPath, base, audio)
    ensures forall i :: 0 <= i < |formats| ==>
      exists c :: c in cmds && c.output == Join(outputPath, ReplaceFirst(filename, ".mp4", OutputSuffix(formats[i].0)))
  {
    forall i | 0 <= i < |formats|
      ensures exists c :: c in cmds && c.output == Join(outputPath, ReplaceFirst(filename, ".mp4", OutputSuffix(formats[i].0)))
    {
      KeyOutputWritten(outputPath, filename, formats, audio, cmds, formats[i].0);
    }
  }

  lemma ExpectedOutputsPresent(outputPath: string, filename: string, formats: Formats, cmds: seq<Command>,
                               outputs: set<string>)
    requires forall c :: c in cmds ==> c.output in outputs
    requires forall i :: 0 <= i < |formats| ==>
      exists c :: c in cmds && c.output == Join(outputPath, ReplaceFirst(filename, ".mp4", OutputSuffix(formats[i].0)))
    ensures forall x :: x in ExpectedOutputs(outputPath, filename, formats) ==> x in outputs
  {
    var expected := ExpectedOutputs(outputPath, filename, formats);
    forall x | x in expected ensures x in outputs {
      var i :| 0 <= i < |formats| && expected[i] == x;
      var c :| c in cmds && c.output == x;
    }
  }

  lemma KeyOutputWritten(outputPath: string, filename: string, formats: Formats, audio: Value,
                         cmds: seq<Command>, key: string)
    requires Mp4Name(filename) && outputPath != "" && HasAllTargets(formats) && |cmds| == 4
    requires key in {Mp4.format, H265.format, Webm.format}
    requires var base := filename[..|filename| - 4];
      EncodesAs(cmds[1], Mp4, Lookup(formats, Mp4.format).value, outputPath, base, audio) &&
      EncodesAs(cmds[2], H265, Lookup(formats, H265.format).value, outputPath, base, audio) &&
      EncodesAs(cmds[3], Webm, Lookup(formats, Webm.format).value, outputPath, base, audio)
    ensures exists c :: c in cmds && c.output == Join(outputPath, ReplaceFirst(filename, ".mp4", OutputSuffix(key)))
  {
    if key == Mp4.format {
      TargetOutputName(outputPath, filename, cmds[1], Mp4, Lookup(formats, Mp4.format).value, audio);
      assert cmds[1] in cmds;
    } else if key == H265.format {
      TargetOutputName(outputPath, filename, cmds[2], H265, Lookup(formats, H265.format).value, audio);
      assert cmds[2] in cmds;
    } else {
      TargetOutputName(outputPath, filename, cmds[3], Webm, Lookup(formats, Webm.format).value, audio);
      assert cmds[3] in cmds;
    }
  }

  /** The name an encode writes is the name the cache check expects for its format. */
  lemma TargetOutputName(outputPath: string, filename: string, c: Command, t: Target, f: FormatSettings, audio: Value)
    requires Mp4Name(filename) && outputPath != "" && (t == Mp4 || t == H265 || t == Webm)
    requires EncodesAs(c, t, f, outputPath, filename[..|filename| - 4], audio)
    ensures c.output == Join(outputPath, ReplaceFirst(filename, ".mp4", OutputSuffix(t.format)))
  {
    Mp4NameReplace(filename, OutputSuffix(t.format));
    TargetName(outputPath, filename[..|filename| - 4], t);
  }

  lemma TargetName(outputPath: string, base: string, t: Target)
    requires outputPath != "" && (t == Mp4 || t == H265 || t == Webm)
    ensures outputPath + "/" + (base + t.suffix) + "." + t.extension == Join(outputPath, base + OutputSuffix(t.format))
  {
    assert OutputSuffix(t.format) == t.suffix + "." + t.extension;
    assert (base + t.suffix) + "." + t.extension == base + (t.suffix + "." + t.extension);
  }

  /** In a name whose first `.mp4` is its extension, replacing the first `.mp4` replaces the
      extension. */
  lemma Mp4NameReplace(filename: string, x: string)
    requires Mp4Name(filename)
    ensures ReplaceFirst(filename, ".mp4", x) == filename[..|filename| - 4] + x
    ensures ReplaceFirst(filename, ".mp4", "") == filename[..|filename| - 4]
  {
    assert filename[|filename|..] == [];
  }

  /** A `.mov` input is looked for under its own name, which is never written: it is encoded on
      every run. */
  lemma MovInputNeverSkipped(cfg: VideoConfig, host: VideoHost, cache: map<string, VideoEntry>,
                             inputPath: string, outputPath: string, filename: string, relativePath: string)
    requires !Includes(filename, ".mp4") && Join(outputPath, filename) !in host.outputs
    requires IndividualSettings(cfg.individualBitrates, cfg.formats, Join(relativePath, filename)).Individual?
    requires CurrentFormats(IndividualSettings(cfg.individualBitrates, cfg.formats, Join(relativePath, filename)), cfg.formats) != []
    ensures PlanVideoFile(cfg, host, cache, inputPath, outputPath, filename, relativePath) != Skipped
  {
    var ind := IndividualSettings(cfg.individualBitrates, cfg.formats, Join(relativePath, filename));
    if inputPath in host.hashes {
      NameWithoutMp4IsNeverProcessed(cache, inputPath, outputPath, filename, host.hashes[inputPath],
                                     CurrentFormats(ind, cfg.formats), host.outputs);
    }
  }

  /** The state the directory walk threads through: the cache, every command started so far,
      and whether it is still running (an exception ends the run). */
  datatype WalkState = WalkState(cache: map<string, VideoEntry>, started: seq<Command>, running: bool)

  predicate IsVideoName(name: string) {
    EndsWith(name, ".mp4") || EndsWith(name, ".mov")
  }

  function FileStep(cfg: VideoConfig, host: VideoHost, st: WalkState, directory: string, relativePath: string, file: string): WalkState {
    var inputPath := Join(Join(directory, relativePath), file);
    var o := PlanVideoFile(cfg, host, st.cache, inputPath, Join(cfg.outputDirectory, relativePath), file, relativePath);
    match o
    case Skipped => st
    case Processed(started, entry) => WalkState(st.cache[inputPath := entry], st.started + started, true)
    case Crashed(started) => WalkState(st.cache, st.started + started, false)
  }

  /** `processDirectory(directory, relativePath)`: the entries one after another, directories
      depth first; a file that `statSync` cannot describe ends the run. */
  function Walk(cfg: VideoConfig, host: VideoHost, st: WalkState, directory: string, relativePath: string, entries: seq<Entry>): WalkState
    decreases entries, 1
  {
    if entries == [] || !st.running then st
    else Walk(cfg, host, Step(cfg, host, st, directory, relativePath, entries[0]), directory, relativePath, entries[1..])
  }

  function Step(cfg: VideoConfig, host: VideoHost, st: WalkState, directory: string, relativePath: string, e: Entry): WalkState
    decreases e, 0
  {
    match e
    case Dir(name, kids) => Walk(cfg, host, st, directory, Join(relativePath, name), kids)
    case Dangling(_) => WalkState(st.cache, st.started, false)
    case File(name) => if IsVideoName(name) then FileStep(cfg, host, st, directory, relativePath, name) else st
  }

  /** The input paths the walk may process: the video files of the tree. */
  function VideoPaths(directory: string, relativePath: string, entries: seq<Entry>): set<string>
    decreases entries
  {
    if entries == [] then {}
    else
      (match entries[0]
       case Dir(name, kids) => VideoPaths(directory, Join(relativePath, name), kids)
       case Dangling(_) => {}
       case File(name) => if IsVideoName(name) then {Join(Join(directory, relativePath), name)} else {})
      + VideoPaths(directory, relativePath, entries[1..])
  }

  /** The walk adds cache entries for video files only and never removes or changes any other
      entry; the commands it starts are appended to those started before. */
  lemma {:induction false} WalkTouchesOnlyVideos(cfg: VideoConfig, host: VideoHost, st: WalkState,
                                                directory: string, relativePath: string, entries: seq<Entry>)
    ensures var r := Walk(cfg, host, st, directory, relativePath, entries);
      st.cache.Keys <= r.cache.Keys &&
      (forall k :: k in r.cache && k !in VideoPaths(directory, relativePath, entries) ==>
         k in st.cache && r.cache[k] == st.cache[k]) &&
      |st.started| <= |r.started| && r.started[..|st.started|] == st.started
    decreases entries, 1
  {
    if entries != [] && st.running {
      var st1 := Step(cfg, host, st, directory, relativePath, entries[0]);
      StepTouchesOnlyVideos(cfg, host, st, directory, relativePath, entries[0]);
      WalkTouchesOnlyVideos(cfg, host, st1, directory, relativePath, entries[1..]);
      var r := Walk(cfg, host, st, directory, relativePath, entries);
      assert r.started[..|st1.started|] == st1.started;
      assert st1.started[..|st.started|] == st.started;
    }
  }

  lemma {:induction false} StepTouchesOnlyVideos(cfg: VideoConfig, host: VideoHost, st: WalkState,
                                                directory: string, relativePath: string, e: Entry)
    ensures var r := Step(cfg, host, st, directory, relativePath, e);
      var touched := VideoPaths(directory, relativePath, [e]);
      st.cache.Keys <= r.cache.Keys &&
      (forall k :: k in r.cache && k !in touched ==> k in st.cache && r.cache[k] == st.cache[k]) &&
      |st.started| <= |r.started| && r.started[..|st.started|] == st.started
    decreases e, 0
  {
    assert [e][1..] == [];
    match e
    case Dir(name, kids) =>
      WalkTouchesOnlyVideos(cfg, host, st, directory, Join(relativePath, name), kids);
    case Dangling(_) =>
    case File(name) =>
  }

  /** The tool's state: its configuration and environment, the cache, and the commands started. */
  class VideoProcessor {
    const config: VideoConfig
    const host: VideoHost
    var cache: map<string, VideoEntry>
    var started: seq<Command>

    constructor(config: VideoConfig, host: VideoHost, cache: map<string, VideoEntry>)
      ensures this.config == config && this.host == host && this.cache == cache && started == []
    {
      this.config := config;
      this.host := host;
      this.cache := cache;
      this.started := [];
    }

    /** `processVideoFile`: on success the cache entry of the input is replaced. */
    method ProcessVideoFile(inputPath: string, outputPath: string, filename: string, relativePath: string)
      returns (outcome: VideoOutcome)
      modifies this
      ensures outcome == PlanVideoFile(config, host, old(cache), inputPath, outputPath, filename, relativePath)
      ensures started == old(started) + StartedBy(outcome)
      ensures cache == if outcome.Processed? then old(cache)[inputPath := outcome.entry] else old(cache)
    {
      var ind := GetIndividualSettings(config.individualBitrates, config.formats, relativePath, filename);
      if ind.Threw? {
        return Crashed([]);
      }
      var formats := CurrentFormats(ind, config.formats);
      var audio := CurrentIncludeAudio(ind, config.includeAudio);
      if Truthy(audio) && !HasAllTargets(formats) {
        return Crashed([]);
      }
      if inputPath !in host.hashes {
        return Crashed([]);
      }
      assert ResolveSettings(config, relativePath, filename) == Some((formats, audio));
      var hash := host.hashes[inputPath];
      var verdict := ProcessedBefore(cache, inputPath, outputPath, filename, hash, formats, host.outputs);
      if verdict == CheckThrew {
        return Crashed([]);
      }
      if verdict == AlreadyProcessed {
        return Skipped;
      }
      outcome := EncodeVideo(inputPath, outputPath, filename, formats, audio, hash);
    }

    /** The poster and the encodes of an input that has to be (re-)encoded, then its cache
        entry once every command has succeeded. */
    method EncodeVideo(inputPath: string, outputPath: string, filename: string, formats: Formats, audio: Value, hash: string)
      returns (outcome: VideoOutcome)
      modifies this
      ensures outcome == EncodeInput(config, host, inputPath, outputPath, filename, formats, audio, hash)
      ensures started == old(started) + StartedBy(outcome)
      ensures cache == if outcome.Processed? then old(cache)[inputPath := outcome.entry] else old(cache)
    {
      var base := ReplaceFirst(filename, ".mp4", "");
      var poster := Poster(inputPath, outputPath + "/" + base + ".webp", config.webpQuality);
      if inputPath in host.posterFails {
        started := started + [poster];
        return Crashed([poster]);
      }
      var (encodes, complete) := StartEncodes(inputPath, outputPath, base, formats, audio, config.audioFrequency);
      var commands := [poster] + encodes;
      started := started + commands;
      if !complete || inputPath in host.encodeFails {
        return Crashed(commands);
      }
      var entry := VideoEntry(hash, formats, audio);
      cache := cache[inputPath := entry];
      return Processed(commands, entry);
    }

    /** `processDirectory(directory, relativePath)` over the listed entries; `false` when an
        exception ended the run. */
    method ProcessDirectory(directory: string, relativePath: string, entries: seq<Entry>) returns (running: bool)
      modifies this
      ensures WalkState(cache, started, running) ==
        Walk(config, host, WalkState(old(cache), old(started), true), directory, relativePath, entries)
      decreases entries
    {
      var i := 0;
      while i < |entries|
        invariant 0 <= i <= |entries|
        invariant Walk(config, host, WalkState(old(cache), old(started), true), directory, relativePath, entries) ==
          Walk(config, host, WalkState(cache, started, true), directory, relativePath, entries[i..])
      {
        assert entries[i..][0] == entries[i] && entries[i..][1..] == entries[i + 1..];
        ghost var st := WalkState(cache, started, true);
        assert Walk(config, host, st, directory, relativePath, entries[i..]) ==
          Walk(config, host, Step(config, host, st, directory, relativePath, entries[i]), directory, relativePath, entries[i + 1..]);
        match entries[i] {
          case Dir(name, kids) =>
            var ok := ProcessDirectory(directory, Join(relativePath, name), kids);
            assert Step(config, host, st, directory, relativePath, entries[i]) == WalkState(cache, started, ok);
            if !ok {
              return false;
            }
          case Dangling(_) =>
            return false;
          case File(name) =>
            if IsVideoName(name) {
              var o := ProcessVideoFile(Join(Join(directory, relativePath), name),
                                        Join(config.outputDirectory, relativePath), name, relativePath);
              assert Step(config, host, st, directory, relativePath, entries[i]) == WalkState(cache, started, !o.Crashed?);
              if o.Crashed? {
                return false;
              }
            }
        }
        i := i + 1;
      }
      assert entries[i..] == [];
      return true;
    }

    /** The main flow: the walk over the input tree; when `syncDir` is on, the pruning pass over
        the output tree; then the cache entries of inputs that no longer exist (`existing` is
        the set of paths that do) are dropped. Returns the cache that is written back, or `None`
        when an exception ended the run first. */
    method Run(pruner: OutputPruner, inputEntries: seq<Entry>, outputEntries: seq<Entry>, existing: set<string>)
      returns (saved: Option<map<string, VideoEntry>>)
      modifies this, pruner
      ensures var w := Walk(config, host, WalkState(old(cache), old(started), true), config.inputDirectory, "", inputEntries);
        var p := PruneWalk(pruner.inputs, PruneState(old(pruner.deleted), true), "", outputEntries);
        started == w.started &&
        pruner.deleted == (if w.running && SyncDirEnabled(config) then p.deleted else old(pruner.deleted)) &&
        (saved.Some? <==> w.running && (SyncDirEnabled(config) ==> p.running)) &&
        cache == (if saved.Some? then map k | k in w.cache && k in existing :: w.cache[k] else w.cache) &&
        (saved.Some? ==> saved.value == cache)
    {
      var ok := ProcessDirectory(config.inputDirectory, "", inputEntries);
      if !ok {
        return None;
      }
      if SyncDirEnabled(config) {
        var pruned := pruner.DeleteRemovedVideos("", outputEntries);
        if !pruned {
          return None;
        }
      }
      SyncCacheWithFileSystem(existing);
      return Some(cache);
    }

    /** `syncCacheWithFileSystem`: entries for inputs that no longer exist are dropped. */
    method SyncCacheWithFileSystem(existing: set<string>)
      modifies this
      ensures cache == map k | k in old(cache) && k in existing :: old(cache)[k]
      ensures started == old(started)
    {
      var keys := cache.Keys;
      while keys != {}
        invariant keys <= old(cache).Keys
        invariant cache.Keys <= old(cache).Keys
        invariant forall k :: k in cache ==> cache[k] == old(cache)[k]
        invariant forall k :: k in old(cache) && k !in keys ==> (k in cache <==> k in existing)
        invariant forall k :: k in keys ==> k in cache
        invariant started == old(started)
        decreases keys
      {
        var k :| k in keys;
        if k !in existing {
          cache := map j | j in cache && j != k :: cache[j];
        }
        keys := keys - {k};
      }
    }
  }
}
