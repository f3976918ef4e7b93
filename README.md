# try-builder-io core, modelled in Dafny

This project models the logic under a Builder.io-based web site and its asset build tools.

- **Video tool** (`VideoTool`, `VideoSettings`, `VideoCache`, `VideoPrune`, `Wildcard`). Every `.mp4`/`.mov` file under the input directory is encoded to H.264, H.265 and VP9, and gets a WebP poster. Bitrates come from the global `formats`, or from the first `individualBitrates` wildcard pattern that matches the file name. A file is skipped when its hash, its bitrates and every expected output are unchanged. The cache is updated only for files whose encodes all succeed, and output files whose input is gone are deleted.
- **Image tool** (`ImageTool`, `ImageOptions`, `ImagePrune`). PNG, JPEG and SVG inputs are handled. A file is skipped when its hash and compression settings are cached and its output exists. Otherwise an SVG is optimised, and a raster image is encoded to AVIF and WebP and re-encoded in its own format, with the configured options merged over their defaults. Orphaned outputs and output directories are pruned.
- **Image format detection** (`ImgOptUtils`). It parses Safari and Chrome versions from the user agent and applies the AVIF version gates. A one-shot asynchronous check caches the supported formats and hands them to the waiting callbacks. It also picks the optimal image path (`.avif`, `.webp` or the original) and prefixes the base path.
- **Responsive styles** (`Responsive`). The media queries come from the breakpoint configuration. `getUnitType` calls a value `auto` when it is a keyword or a number with one of the listed units (`px`, `rem`, `em`, `vh`, `%` and others; `vw` is not among them), and `vw` otherwise. Numbers are converted and strings pass through. `createResponsiveStyle` always gives a property its PC `vw` value and an SP and a tablet entry, each falling back to the default when its own value is omitted or falsy. It adds a `px` entry at the pixel limit exactly when `useLimit` is on. `createMqStyle` keeps the default as given and adds an SP or tablet entry exactly when that value is given. It adds a PC-over entry when the PC-over value is given, and otherwise when the default is, converted to `px`.
- **Campaign parameters** (`UtmParams`, `InitUtm`, `UseUtm`, `Referrer`). The page's `utm_*` parameters come from the URL, else from the referrer (organic Google, Yahoo or Bing), else from session storage, else from the defaults. They become the current parameters, are stored, and are announced with a change event when they differ from the previous ones. They are carried onto external links as missing query parameters and onto internal paths as an appended query. `applyUtmParamsToUrl`, which appends the missing parameters to the page URL, is exported and modelled, but `extractAndProcessUtm` does not call it and neither does the application's start-up, which calls only `initUtm`.
- **Smaller utilities**:
  - `BrowserInfo`: operating system, web-view, browser, application and device classification of a user agent;
  - `UseMeta`: the route meta data chosen by slug and completed with fallbacks;
  - `ResizeTrigger`: a resize listener that, as written, fires when the new width is at least the threshold away from the recorded width or from the recorded height (see Findings), and then records the new size;
  - `ExternalLink`: the external-link test.

The helpers are shared. `Wrappers` is an option type. `JsStrings` holds the JavaScript string operations. `JsValues` models JavaScript values. `NodePath` and `FileTree` model Node's `path` module and directory listings.

File systems, encoders, hashes, storage and the browser are parameters of the model. Operations that change state step by step are methods of classes whose fields hold that state:
- the pruners, the video and image processors;
- the format detection state, the UTM store;
- the resize listener.

Each such method is proved equal to a specification function, and the properties are proved about that function.

## Model

| member | source | states |
|---|---|---|
| NodePath.Join | tools/asseets-opt/convertVideo.mjs:56 | `path.join` with one empty side gives the other side unchanged |
| NodePath.Extname | tools/asseets-opt/convertVideo.mjs:52-55 | `path.extname`: a suffix of the name that is empty or starts with its only `.` and is not the whole name |
| NodePath.Stem | tools/asseets-opt/convertVideo.mjs:52-55 | `path.basename(name, path.extname(name))`: stem followed by extension gives back the name |
| NodePath.StemOfExtension | tools/asseets-opt/convertVideo.mjs:52-55 | a non-empty base followed by a one-dot extension splits back into that base and that extension |
| Wildcard.Translate | tools/asseets-opt/convertVideo.mjs:294-296 | `*` becomes `.*` and `?` becomes `.`, one regular-expression element per pattern character, every other character kept |
| Wildcard.StarSplits | tools/asseets-opt/convertVideo.mjs:298-299 | a leading `*` matches exactly a prefix without line terminators, of any length, followed by a match of the rest |
| Wildcard.StarFreeLength | tools/asseets-opt/convertVideo.mjs:292-299 | a pattern without `*` matches only strings as long as itself |
| Wildcard.TranslateConcat | tools/asseets-opt/convertVideo.mjs:294-296 | the translation works character by character, so it distributes over concatenation |
| Wildcard.PlainPrefix | tools/asseets-opt/convertVideo.mjs:292-299 | a plain pattern prefix matches exactly itself in front of a match of the rest |
| Wildcard.LiteralPatternMatchesOnlyItself | tools/asseets-opt/convertVideo.mjs:292-299 | a pattern without `*`, `?` or `.` matches a path if and only if the path equals it (anchored at both ends) |
| Wildcard.PlainPrefixMismatch | tools/asseets-opt/convertVideo.mjs:292-299 | a plain pattern rejects every other string of its length |
| Wildcard.StarAlone | tools/asseets-opt/convertVideo.mjs:292-299 | the pattern `*` matches exactly the paths without a line terminator |
| Wildcard.PatternMatchesItself | tools/asseets-opt/convertVideo.mjs:292-299 | every pattern without line terminators matches its own text |
| Wildcard.StarThen | tools/asseets-opt/convertVideo.mjs:295 | `*` can absorb any line in front of a match of the rest |
| Wildcard.StarMatchesAnyRun | tools/asseets-opt/convertVideo.mjs:295 | `*` matches any run of characters, `/` included, so `a/*/c` also matches paths several directories deep |
| Wildcard.DotMatchesAnyCharacter | tools/asseets-opt/convertVideo.mjs:294-298 | a `.` in a pattern is not escaped and matches any character except a line terminator |
| VideoSettings.Lookup | tools/asseets-opt/convertVideo.mjs:273 | `formats[k]` is undefined exactly when no entry has key `k`; otherwise it is the first entry with that key |
| VideoSettings.LookupAt | tools/asseets-opt/convertVideo.mjs:273 | with distinct keys, looking up an entry's key gives that entry's settings |
| VideoSettings.FillAudioSpec | tools/asseets-opt/convertVideo.mjs:269-275 | filling keeps every format in order and keeps its video bitrate. A truthy audio bitrate is kept and a falsy one is replaced by the global one. It throws exactly when some format with a falsy audio bitrate has no global format |
| VideoSettings.FillAudioIdempotent | tools/asseets-opt/convertVideo.mjs:269-275 | filling an already filled set of formats changes nothing, so filling the override's own objects in place across files is the same as filling fresh copies |
| VideoSettings.FirstMatch | tools/asseets-opt/convertVideo.mjs:262-265 | the index of a pattern that matches the path, with no earlier pattern matching it; or -1 when no pattern matches |
| VideoSettings.GetIndividualSettings | tools/asseets-opt/convertVideo.mjs:254-289 | the loop over the patterns returns the settings of the first pattern matching `join(relativePath, basename)`, or the no-override result |
| VideoSettings.FillAudioLoop | tools/asseets-opt/convertVideo.mjs:271-275 | the loop over the copied formats computes the fill that `FillAudioSpec` characterises, including the throwing case |
| VideoSettings.FirstMatchWins | tools/asseets-opt/convertVideo.mjs:262-286 | once a pattern matches, the patterns after it have no effect |
| VideoSettings.NoMatchUsesGlobals | tools/asseets-opt/convertVideo.mjs:288 | a file that no pattern matches gets `customFormats: null, useAudio: undefined` |
| VideoSettings.AudioOverrideFillsBitrates | tools/asseets-opt/convertVideo.mjs:168-170 | with `includeAudio: true` in the override, audio is on and every format of the override keeps its truthy audio bitrate or takes the global one |
| VideoCache.CompareBitratesSpec | tools/asseets-opt/convertVideo.mjs:100-107 | `isBitrateUnchanged` holds exactly when every cached format has the same settings now. It throws exactly when the first cached format that differs is missing from the current formats |
| VideoCache.SameFirstShifts | tools/asseets-opt/convertVideo.mjs:101-106 | an unchanged first format leaves both verdicts to the remaining formats |
| VideoCache.CompareBitratesReflexive | tools/asseets-opt/convertVideo.mjs:100-107 | formats with distinct keys compared with themselves are unchanged |
| VideoCache.ExpectedOutputs | tools/asseets-opt/convertVideo.mjs:119-138 | one output path per format key, named by replacing the first `.mp4` of the name with `-h265.mp4` for `h265` and with `.<key>` for every other key |
| VideoCache.ProcessedBefore | tools/asseets-opt/convertVideo.mjs:109-153 | the four reasons, each an if-and-only-if in the source's order: no cache entry; a different hash; a missing expected output; otherwise processed exactly when every cached format is unchanged |
| VideoCache.FoundProcessedAfterEncoding | tools/asseets-opt/convertVideo.mjs:246-250 | the cache entry a successful run writes, with its outputs in place, makes the next check report the input as processed |
| VideoCache.NameWithoutMp4IsNeverProcessed | tools/asseets-opt/convertVideo.mjs:137 | an input name without `.mp4` (a `.mov`) is looked up under its own name, so while that path does not exist it is never found processed |
| VideoPrune.OriginalFileName | tools/asseets-opt/convertVideo.mjs:39-41 | a name without `-h265` is left as it is |
| VideoPrune.InputListing | tools/asseets-opt/convertVideo.mjs:62-63 | the input root can always be listed |
| VideoPrune.PruneWalkSpec | tools/asseets-opt/convertVideo.mjs:43-75 | the pruning walk only appends, and only orphaned files of the tree. It finishes exactly when every directory it enters can be read. When it finishes it has deleted every orphaned file |
| VideoPrune.PruneStepSpec | tools/asseets-opt/convertVideo.mjs:50-73 | the same as `PruneWalkSpec`, for one entry of a listing |
| VideoPrune.DeletesExactlyOrphans | tools/asseets-opt/convertVideo.mjs:43-75 | from the output root: deleted only files of the tree, and, when the walk finishes, a file is deleted if and only if it has no input counterpart |
| VideoPrune.DottedOutputKept | tools/asseets-opt/convertVideo.mjs:51-55 | an output named base plus extension maps back to the base |
| VideoPrune.H265SuffixDropped | tools/asseets-opt/convertVideo.mjs:40 | `-h265.mp4` becomes `.mp4` |
| VideoPrune.H265OutputKept | tools/asseets-opt/convertVideo.mjs:39-55 | the H.265 output `<base>-h265.mp4` maps back to `<base>` |
| VideoPrune.EncodedOutputsKept | tools/asseets-opt/convertVideo.mjs:62-66 | the poster and the three encodes of a listed `.mp4` input all have a counterpart, so pruning keeps them |
| VideoPrune.OutputPruner.constructor | tools/asseets-opt/convertVideo.mjs:353-356 | a pruner over the input listings, with nothing deleted yet |
| VideoPrune.OutputPruner.DeleteRemovedVideos | tools/asseets-opt/convertVideo.mjs:43-75 | the recursive walk deletes what `PruneWalk` says, in the same order, and reports whether an exception ended it |
| VideoTool.ConvertFile | tools/asseets-opt/convertVideo.mjs:316-333 | one encode of the input with the given codec and video bitrate into `<outputPath>/<name>.<extension>`. It keeps audio, at the configured frequency, if and only if audio is on and a bitrate is given |
| VideoTool.StartEncodes | tools/asseets-opt/convertVideo.mjs:211-242 | the run gets past the encodes exactly when `mp4`, `h265` and `webm` are all configured, and then all three encodes are started; at most three start in any case |
| VideoTool.SkipIffUpToDate | tools/asseets-opt/convertVideo.mjs:155-197 | an input is skipped if and only if its settings resolve, it can be hashed, and its cache entry has the same hash, all expected outputs and the same bitrates |
| VideoTool.SkippedWhenFoundProcessed | tools/asseets-opt/convertVideo.mjs:182-197 | a processed verdict leads to a skip |
| VideoTool.ProcessedStartsFourCommands | tools/asseets-opt/convertVideo.mjs:207-250 | a processed input starts the poster, then the H.264, H.265 and VP9 encodes, each with its format's bitrates. The cache entry records the hash, the formats and the audio switch used |
| VideoTool.HashChangeReprocesses | tools/asseets-opt/convertVideo.mjs:129-133 | a changed content hash is never skipped |
| VideoTool.SecondRunSkips | tools/asseets-opt/convertVideo.mjs:246-250 | a second run over an input just processed, with the same content and configuration and its outputs in place, encodes nothing |
| VideoTool.EncodesWriteExpectedOutputs | tools/asseets-opt/convertVideo.mjs:211-242 | the encodes write every output the cache check expects, for formats among `mp4`, `h265` and `webm` |
| VideoTool.ExpectedOutputsPresent | tools/asseets-opt/convertVideo.mjs:136-138 | outputs that were all written make the output check pass |
| VideoTool.KeyOutputWritten | tools/asseets-opt/convertVideo.mjs:120 | for each of `mp4`, `h265` and `webm`, some encode writes the name the cache check expects |
| VideoTool.TargetOutputName | tools/asseets-opt/convertVideo.mjs:225 | the name an encode writes equals the name expected for its format |
| VideoTool.TargetName | tools/asseets-opt/convertVideo.mjs:331 | the `${outputPath}/${filename}.${extension}` name equals the joined name with the format's suffix |
| VideoTool.Mp4NameReplace | tools/asseets-opt/convertVideo.mjs:207 | in a name ending in its only `.mp4`, replacing the first `.mp4` replaces the extension |
| VideoTool.MovInputNeverSkipped | tools/asseets-opt/convertVideo.mjs:93 | a `.mov` input is encoded again on every run |
| VideoTool.WalkTouchesOnlyVideos | tools/asseets-opt/convertVideo.mjs:84-98 | the directory walk only adds cache entries for `.mp4`/`.mov` files of the tree and leaves every other entry as it was. Its commands are appended to the earlier ones |
| VideoTool.StepTouchesOnlyVideos | tools/asseets-opt/convertVideo.mjs:88-96 | the same as `WalkTouchesOnlyVideos`, for one entry |
| VideoTool.VideoProcessor.constructor | tools/asseets-opt/convertVideo.mjs:18-37 | the loaded configuration and cache, with nothing started |
| VideoTool.VideoProcessor.ProcessVideoFile | tools/asseets-opt/convertVideo.mjs:155-251 | the outcome is `PlanVideoFile`: the commands started are appended, and the cache entry of the input is replaced exactly when it was processed |
| VideoTool.VideoProcessor.EncodeVideo | tools/asseets-opt/convertVideo.mjs:207-250 | the poster, the three encodes, then the new cache entry once all have succeeded |
| VideoTool.VideoProcessor.ProcessDirectory | tools/asseets-opt/convertVideo.mjs:84-98 | the loop and the recursion compute `Walk`, including a run ended by an exception |
| VideoTool.VideoProcessor.Run | tools/asseets-opt/convertVideo.mjs:353-363 | the walk, then the pruning pass only when `syncDir` is on, then the cache sync. The cache is written only when nothing threw, and the cache written is the synced cache |
| VideoTool.VideoProcessor.SyncCacheWithFileSystem | tools/asseets-opt/convertVideo.mjs:336-344 | the cache keeps exactly the entries whose input still exists |
| JsValues.Or | tools/asseets-opt/convertImage.mjs:190-192 | `a \|\| b` is `a` when `a` is truthy and `b` otherwise |
| JsValues.Keys | tools/asseets-opt/convertVideo.mjs:101 | `Object.keys` lists the properties in insertion order, one per property |
| JsValues.KeysAppend | tools/asseets-opt/convertImage.mjs:196-201 | adding a new property puts its key last |
| JsValues.Get | tools/asseets-opt/convertImage.mjs:190-200 | reading a property is `undefined` when the object lacks it and otherwise the value stored under it |
| JsValues.GetAt | tools/asseets-opt/convertImage.mjs:190-200 | with distinct keys, reading a property gives the value stored under it |
| JsValues.Assign | tools/asseets-opt/convertImage.mjs:197 | an assignment to an existing property keeps its position and an assignment to a new one appends it; no other property changes, and the property then holds the new value |
| JsValues.HasKeyTail | tools/asseets-opt/convertImage.mjs:197 | lookup past a first property with a different key |
| JsValues.AssignDistinct | tools/asseets-opt/convertImage.mjs:197 | assignment never creates a second property with the same key |
| JsValues.AssignGet | tools/asseets-opt/convertImage.mjs:197-200 | after `o[k] = v`, reading `k` gives `v` and reading any other key gives what it gave before |
| JsValues.SpreadGet | tools/asseets-opt/convertImage.mjs:174-181 | in `{...base, ...over}` a key of `over` wins and every other key reads as in `base` |
| JsValues.FirstKeyUnique | tools/asseets-opt/convertImage.mjs:174-181 | with distinct keys, the first key does not occur again |
| JsValues.Member | tools/asseets-opt/convertImage.mjs:190 | reading a property of `undefined` or `null` throws, and reading a property of anything else does not |
| ImageOptions.DropSuffix | tools/asseets-opt/convertImage.mjs:153 | a name ending in an extension is that extension after the rest of the name |
| ImageOptions.RasterOutputOf | tools/asseets-opt/convertImage.mjs:153 | `replace(/(\.jpeg\|\.jpg\|\.png)$/, rep)` swaps a final raster extension for `rep` |
| ImageOptions.JpegOutputOf | tools/asseets-opt/convertImage.mjs:183 | a `.jpeg` or `.jpg` output is written as `.jpg` |
| ImageOptions.PngOutputUnchanged | tools/asseets-opt/convertImage.mjs:206 | `replace(/\.png$/, '.png')` never changes the path |
| ImageOptions.RasterOutputOfOther | tools/asseets-opt/convertImage.mjs:153-183 | a name without a final raster extension is written under its own name |
| ImageOptions.JpegOptionsGet | tools/asseets-opt/convertImage.mjs:172-182 | each JPEG option is the configured value when `compression.jpeg` has it and the built-in default (quality 70, 4:4:4, mozjpeg, trellis quantisation, overshoot deringing) otherwise |
| ImageOptions.OwnFields | tools/asseets-opt/convertImage.mjs:181 | `{...v}` copies an object's own properties, a string's characters and an array's items under the index keys `"0"`, `"1"`, ..., and nothing of `undefined`, `null`, booleans or numbers |
| ImageOptions.AssignIfDefinedKeys | tools/asseets-opt/convertImage.mjs:196-201 | a setting that is not `undefined` is added as a new last key with that value; an `undefined` one adds nothing |
| ImageOptions.AssignIfDefinedOther | tools/asseets-opt/convertImage.mjs:196-201 | the conditional assignment leaves every other key as it was |
| ImageOptions.PngConfig | tools/asseets-opt/convertImage.mjs:189-201 | building the PNG options throws exactly when `compression.png` is `undefined` or `null` |
| ImageOptions.PngLiteralSpec | tools/asseets-opt/convertImage.mjs:189-193 | the literal has the keys `compressionLevel`, `progressive` and `palette`, in that order, with defaults 9, false and false for falsy settings |
| ImageOptions.PngConfigStages | tools/asseets-opt/convertImage.mjs:189-201 | the options are the literal, then `quality`, then `dither` |
| ImageOptions.PngConfigKeys | tools/asseets-opt/convertImage.mjs:189-201 | the option keys in order: the three literal keys, then `quality` and `dither` only where they are defined |
| ImageOptions.PngConfigValues | tools/asseets-opt/convertImage.mjs:189-201 | each PNG option's value: the three defaults as in the literal, and `quality` and `dither` copied as configured |
| ImageOptions.TwoAssignsGet | tools/asseets-opt/convertImage.mjs:196-201 | reading after both conditional assignments |
| ImageOptions.BuildPngConfig | tools/asseets-opt/convertImage.mjs:189-201 | the statements building `pngConfig` compute `PngConfig` |
| ImagePrune.PruneWalkSound | tools/asseets-opt/convertImage.mjs:43-83 | the pruner only appends removals, and each is justified: a removed directory has no input path and a deleted file has no input counterpart |
| ImagePrune.PruneStepSound | tools/asseets-opt/convertImage.mjs:49-78 | the same as `PruneWalkSound`, for one entry |
| ImagePrune.HandledKept | tools/asseets-opt/convertImage.mjs:49-79 | a removal already made stays in the record as the walk goes on |
| ImagePrune.PruneStepHandles | tools/asseets-opt/convertImage.mjs:54-75 | an entry without input counterpart is removed by its own step: a directory as a whole, a file by deletion |
| ImagePrune.PruneWalkComplete | tools/asseets-opt/convertImage.mjs:49-79 | every listed entry without input counterpart ends up removed, whatever happens to its siblings, since an error on one entry is caught |
| ImagePrune.PruneWalkReaches | tools/asseets-opt/convertImage.mjs:43-83 | at every depth, the walk only appends reachable removals and makes every justified reachable one |
| ImagePrune.PruneStepReaches | tools/asseets-opt/convertImage.mjs:49-79 | the same for one entry, recursing into a directory whose input path exists |
| ImagePrune.RemovesExactlyOrphans | tools/asseets-opt/convertImage.mjs:43-83 | over the whole tree, every removal is reachable and justified, a reachable file is deleted exactly when it has no input counterpart, and a reachable directory without input path is removed |
| ImagePrune.ReachableDirectoriesJustified | tools/asseets-opt/convertImage.mjs:55-62 | a directory the walk can remove never has an input path |
| ImagePrune.SameNameKept | tools/asseets-opt/convertImage.mjs:63-69 | an output whose own path exists in the input tree is kept, when the path has no `.webp` |
| ImagePrune.JoinAppend | tools/asseets-opt/convertImage.mjs:50 | joining a name with an extension appends the extension to the joined path |
| ImagePrune.ReplaceWhole | tools/asseets-opt/convertImage.mjs:66-68 | replacing a whole string gives the replacement |
| ImagePrune.EncodedImageOutputsKept | tools/asseets-opt/convertImage.mjs:63-69 | the `.avif`, `.webp` and re-encoded outputs of a `.png`, `.jpeg` or `.jpg` input are kept while the input exists, provided the directory part does not itself contain the output extension |
| ImagePrune.ImagePruner.constructor | tools/asseets-opt/convertImage.mjs:266 | a pruner over the existing input paths, with nothing removed yet |
| ImagePrune.ImagePruner.DeleteRemovedImages | tools/asseets-opt/convertImage.mjs:43-83 | the recursive walk makes exactly the removals of `PruneWalk`, in order |
| ImageTool.QualityAndEffort | tools/asseets-opt/convertImage.mjs:149-151 | the quality and effort of a format can be read exactly when `compression` and `compression[format]` are neither `undefined` nor `null` |
| ImageTool.TaskFormats | tools/asseets-opt/convertImage.mjs:144-209 | the formats of the pushed encodes, one per task, in order |
| ImageTool.ThenTasks | tools/asseets-opt/convertImage.mjs:144-209 | two stages of pushes get through exactly when both do, and their tasks are concatenated |
| ImageTool.RasterTasksComplete | tools/asseets-opt/convertImage.mjs:144-209 | building the task list gets to its end without a TypeError exactly when `output` is an object and every enabled format finds its `compression` section |
| ImageTool.WritesAppend | tools/asseets-opt/convertImage.mjs:144-209 | tasks that each write their own format's output still do so once concatenated |
| ImageTool.ModernStageWrites | tools/asseets-opt/convertImage.mjs:145-166 | the AVIF or WebP stage pushes one encode of its format exactly when that output is enabled, written under the raster name with the extension swapped |
| ImageTool.JpegStageWrites | tools/asseets-opt/convertImage.mjs:170-185 | the JPEG stage pushes one `jpeg` encode exactly for `.jpeg` and `.jpg` inputs |
| ImageTool.PngStageWrites | tools/asseets-opt/convertImage.mjs:188-208 | the PNG stage pushes one `png` encode exactly for `.png` inputs |
| ImageTool.OriginalStageWrites | tools/asseets-opt/convertImage.mjs:168-209 | with `output.original` the re-encode of the input's own format is pushed, and otherwise nothing |
| ImageTool.RasterTasksFormats | tools/asseets-opt/convertImage.mjs:144-209 | a readable configuration pushes, in this order, AVIF if enabled, WebP if enabled and the re-encoded original if enabled, each under its own output name |
| ImageTool.ThenWrites | tools/asseets-opt/convertImage.mjs:144-209 | the three stages together keep the per-task output names and concatenate their formats |
| ImageTool.PushModern | tools/asseets-opt/convertImage.mjs:145-166 | the statements of one AVIF or WebP push compute `ModernStage`, including the throw |
| ImageTool.PushOriginal | tools/asseets-opt/convertImage.mjs:168-209 | the statements of the original-format block compute `OriginalStage` |
| ImageTool.PlanRasterTasks | tools/asseets-opt/convertImage.mjs:144-209 | building `processTasks` computes `RasterTasks` |
| ImageTool.SkipIffUpToDate | tools/asseets-opt/convertImage.mjs:113-134 | an input is skipped if and only if it has a hash, `forceOptim` is off, its cache entry has the same hash and the same compression settings, and an output of its own name exists |
| ImageTool.ProcessedIffAllSucceed | tools/asseets-opt/convertImage.mjs:109-220 | an input is cached if and only if it can be hashed, is not up to date, its tasks can be built and none of them fails. The new entry records the hash, the compression settings and the SVGO options |
| ImageTool.SecondRun | tools/asseets-opt/convertImage.mjs:125-134 | after a successful run, the next run skips the input exactly when not forced and an output of the input's own name exists |
| ImageTool.SvgSecondRunSkips | tools/asseets-opt/convertImage.mjs:137-141 | an optimised SVG is written under its own name, so it is skipped next time |
| ImageTool.PngSecondRunSkips | tools/asseets-opt/convertImage.mjs:203-206 | a PNG re-encoded under its own name is skipped next time |
| ImageTool.PngNameIsNoOther | tools/asseets-opt/convertImage.mjs:170-188 | a `.png` name takes neither the JPEG nor the SVG branch |
| ImageTool.JpegNameIsNoOther | tools/asseets-opt/convertImage.mjs:137-188 | a `.jpeg` name takes the JPEG branch only |
| ImageTool.JpegInputNeverSkipped | tools/asseets-opt/convertImage.mjs:130-183 | a `.jpeg` input is written as `.jpg`, never under its own name, so the skip test fails and it is encoded again on every run |
| ImageTool.JoinKeepsSuffix | tools/asseets-opt/convertImage.mjs:116 | joining a directory keeps the file's extension at the end |
| ImageTool.JpegTasksMissOwnName | tools/asseets-opt/convertImage.mjs:145-209 | no task of a `.jpeg` input writes its own output name |
| ImageTool.NoPngFormat | tools/asseets-opt/convertImage.mjs:188 | a JPEG input's tasks contain no PNG encode |
| ImageTool.NoPngListed | tools/asseets-opt/convertImage.mjs:188 | the format list of a JPEG input lists no `png` |
| ImageTool.NoTaskWritesJpegName | tools/asseets-opt/convertImage.mjs:153-183 | encodes that write their own formats' names never write a `.jpeg` name |
| ImageTool.OtherNameThanJpeg | tools/asseets-opt/convertImage.mjs:153-183 | every format other than PNG renames a `.jpeg` output |
| ImageTool.ImageWalkConcat | tools/asseets-opt/convertImage.mjs:228-248 | walking two runs of entries is walking the second from where the first left off, so an entry's failure never stops its siblings |
| ImageTool.ImageWalkTouchesOnlyImages | tools/asseets-opt/convertImage.mjs:223-255 | the walk only adds or replaces cache entries of PNG, JPEG and SVG files of the tree, and appends the tasks it starts |
| ImageTool.ImageStepTouchesOnlyImages | tools/asseets-opt/convertImage.mjs:230-243 | the same as `ImageWalkTouchesOnlyImages`, for one entry |
| ImageTool.ImageProcessor.constructor | tools/asseets-opt/convertImage.mjs:16-93 | the loaded configuration and cache, with nothing started |
| ImageTool.ImageProcessor.ProcessImage | tools/asseets-opt/convertImage.mjs:109-220 | the outcome is `PlanImage`: the tasks started are appended, and the input's cache entry is replaced exactly when it was processed |
| ImageTool.ImageProcessor.ProcessDirectory | tools/asseets-opt/convertImage.mjs:223-255 | the recursive walk computes `ImageWalk` |
| ImageTool.ImageProcessor.Run | tools/asseets-opt/convertImage.mjs:262-274 | the walk, then the pruning pass; the cache written is the walk's cache |
| JsStrings.IndexOfFrom | tools/asseets-opt/convertVideo.mjs:137 | the first occurrence at or after `from`, or -1 when there is none |
| JsStrings.IndexOf | tools/asseets-opt/convertVideo.mjs:137 | `indexOf` is -1 exactly when the pattern does not occur, and otherwise the first position where it occurs |
| JsStrings.ReplaceFirst | tools/asseets-opt/convertVideo.mjs:40 | a string replacement of a string: unchanged when the pattern does not occur, one occurrence replaced when it does |
| JsStrings.ReplaceFirstAt | tools/asseets-opt/convertVideo.mjs:40 | exactly the first occurrence is replaced |
| JsStrings.ReplaceFirstInSuffix | tools/asseets-opt/convertImage.mjs:66-68 | a pattern that cannot start in, or straddle the end of, a prefix is replaced within the rest |
| JsStrings.LastIndexOf | src/components/utils/ImgOpt/ImgOptUtils.ts:216 | `lastIndexOf(c)` is -1 exactly when `c` does not occur, and otherwise its last position |
| JsStrings.ToLower | src/components/utils/ImgOpt/ImgOptUtils.ts:211 | `toLowerCase` maps every character and keeps the length |
| JsStrings.ToUpper | src/hooks/useMeta/useMeta.ts:13 | `toUpperCase` maps every character and keeps the length |
| JsStrings.DigitRun | src/components/utils/ImgOpt/ImgOptUtils.ts:52 | `\d+` takes the longest run of digits: the run stays in the string and is not followed by a digit |
| JsStrings.DigitRunDigits | src/components/utils/ImgOpt/ImgOptUtils.ts:52 | every character of the run is a digit |
| JsStrings.DigitRunOf | src/components/utils/ImgOpt/ImgOptUtils.ts:52 | a run of digits followed by a non-digit or the end is exactly the run `\d+` takes |
| JsStrings.NatToString | src/styles/responsive.css.ts:6-13 | a number interpolated into a template string is a non-empty run of decimal digits |
| JsStrings.NatToStringRoundTrip | src/components/utils/ImgOpt/ImgOptUtils.ts:56-57 | `parseInt(String(n), 10)` is `n` |
| JsStrings.JoinWith | src/styles/responsive.css.ts:78 | `join(sep)` of no parts is empty and of one part is that part |
| ImgOptUtils.MatchVersionLeftmost | src/components/utils/ImgOpt/ImgOptUtils.ts:52 | a successful `match` finds the leftmost position where the prefix, digits, a dot and digits follow, and returns that position's groups |
| ImgOptUtils.MatchVersionNone | src/components/utils/ImgOpt/ImgOptUtils.ts:52 | a failed `match` means no position holds the pattern |
| ImgOptUtils.MatchVersionDigits | src/components/utils/ImgOpt/ImgOptUtils.ts:52-57 | both captured groups are non-empty digit strings |
| ImgOptUtils.SafariGateMonotone | src/components/utils/ImgOpt/ImgOptUtils.ts:100 | AVIF support from Safari 16.4 on holds for every later version |
| ImgOptUtils.AvifGateCases | src/components/utils/ImgOpt/ImgOptUtils.ts:95-120 | the user-agent gate: Safari with a detected version decides by 16.4; Chrome 85 or later says yes; older Chrome and any `Edg` agent defer to feature detection; only Safari ever says no |
| ImgOptUtils.SafariGateFromUserAgent | src/components/utils/ImgOpt/ImgOptUtils.ts:48-62 | a Safari agent carrying `Version/<major>.<minor>` is decided by that version |
| ImgOptUtils.ChromeGateFromUserAgent | src/components/utils/ImgOpt/ImgOptUtils.ts:68-79 | a Chrome agent carrying `Chrome/<major>.<minor>` supports AVIF from major 85, and otherwise defers to feature detection |
| ImgOptUtils.CheckImageTypeSupportCases | src/components/utils/ImgOpt/ImgOptUtils.ts:86-174 | outside a browser the answer is no. A non-AVIF type is decided by the image probe. AVIF without a gate verdict is decided by the canvas probe, then the image probe |
| ImgOptUtils.VersionAtParts | src/components/utils/ImgOpt/ImgOptUtils.ts:52 | prefix, digits, dot, digits and a non-digit at a position form a match there, with those two groups |
| ImgOptUtils.MatchVersionHere | src/components/utils/ImgOpt/ImgOptUtils.ts:52 | the search started at a matching position returns its groups |
| ImgOptUtils.VersionLayout | src/components/utils/ImgOpt/ImgOptUtils.ts:52 | the offsets of the pieces of `prefix + major + "." + minor + rest` |
| ImgOptUtils.MatchVersionRoundTrip | src/components/utils/ImgOpt/ImgOptUtils.ts:52-58 | a user agent starting with the prefix and a version gives back that version's digit strings |
| ImgOptUtils.ParsedVersionRoundTrip | src/components/utils/ImgOpt/ImgOptUtils.ts:52-58 | a version written as numbers is parsed back to the same numbers |
| ImgOptUtils.ApplyBasePathCases | src/components/utils/ImgOpt/ImgOptUtils.ts:181-198 | `http(s)://` URLs and relative paths are returned unchanged. A root path gets the base URL in front, without doubling a trailing `/` |
| ImgOptUtils.ApplyBasePathDefault | src/components/utils/ImgOpt/ImgOptUtils.ts:187 | an empty or `/` base URL changes no path |
| ImgOptUtils.LastIndexOfIs | src/components/utils/ImgOpt/ImgOptUtils.ts:216 | a position holding `c` with no `c` after it is the last index |
| ImgOptUtils.ExtensionDot | src/components/utils/ImgOpt/ImgOptUtils.ts:216-221 | the dot that starts the file name's extension: a dot with no dot or `/` after it, or -1 when the last path segment has no dot |
| ImgOptUtils.OptimalImagePathSpec | src/components/utils/ImgOpt/ImgOptUtils.ts:206-230 | SVGs and paths without an extension are returned after the base path. Any other path has its extension replaced by `.avif` when AVIF is supported and by `.webp` otherwise. The `webp` flag plays no part |
| ImgOptUtils.ExtensionDotAt | src/components/utils/ImgOpt/ImgOptUtils.ts:216 | a characterisation of the extension dot by position |
| ImgOptUtils.NotSvgBySlash | src/components/utils/ImgOpt/ImgOptUtils.ts:211 | a path with a `/` among its last four characters is no SVG |
| ImgOptUtils.NotSvgByDot | src/components/utils/ImgOpt/ImgOptUtils.ts:211 | a path whose fourth-last character is not a dot is no SVG |
| ImgOptUtils.OptimalImagePathAtDot | src/components/utils/ImgOpt/ImgOptUtils.ts:221-229 | everything before the extension dot is kept and the new extension appended |
| ImgOptUtils.OptimalImagePathRenames | src/components/utils/ImgOpt/ImgOptUtils.ts:206-230 | `name.ext` becomes `name.avif` or `name.webp` |
| ImgOptUtils.ExtensionDotOfSuffix | src/components/utils/ImgOpt/ImgOptUtils.ts:216 | in `head.ext` with a plain `ext`, the extension dot follows `head` |
| ImgOptUtils.OptimalImagePathAsWrittenAtDot | src/components/utils/ImgOpt/ImgOptUtils.ts:216-229 | the code as written cuts at the last dot of the whole path |
| ImgOptUtils.OptimalImagePathAsWrittenSpec | src/components/utils/ImgOpt/ImgOptUtils.ts:206-230 | the code as written, for every base: an SVG in any letter case and a path without any `.` are returned unchanged; otherwise the path is cut at its last `.` and the AVIF or WebP extension appended; `formats.webp` makes no difference |
| ImgOptUtils.OptimalImagePathNoDot | src/components/utils/ImgOpt/ImgOptUtils.ts:217-219 | a file name without a dot is returned unchanged |
| ImgOptUtils.DirectoryDotDiscrepancy | src/components/utils/ImgOpt/ImgOptUtils.ts:216-222 | for `dir.ext/name` with no dot in the file name, the code as written cuts inside the directory name, while the corrected function returns the path unchanged |
| ImgOptUtils.FormatDetection.constructor | src/components/utils/ImgOpt/ImgOptUtils.ts:335-341 | module load: in a browser a check is started and the logging callback registered; outside a browser the defaults `{avif: false, webp: true}` are set at once |
| ImgOptUtils.FormatDetection.GetSupportedFormats | src/components/utils/ImgOpt/ImgOptUtils.ts:287-311 | known formats are returned and handed to the callback at once. Otherwise the callback is queued, `null` is returned and a check is started unless one is running. Outside a browser the check settles at once on the defaults |
| ImgOptUtils.FormatDetection.FinishCheck | src/components/utils/ImgOpt/ImgOptUtils.ts:257-273 | a finished check records `{avif, webp: true}`, clears `isChecking` and calls every queued callback in order with that result |
| ImgOptUtils.FormatDetection.FailCheck | src/components/utils/ImgOpt/ImgOptUtils.ts:274-278 | a failed check records the error, clears `isChecking` and calls no callback |
| ImgOptUtils.FormatDetection.LogSupportedFormats | src/components/utils/ImgOpt/ImgOptUtils.ts:328-333 | the logging callback is called at once when the formats are known, and queued otherwise |
| ImgOptUtils.FormatDetection.ResetFormatDetection | src/components/utils/ImgOpt/ImgOptUtils.ts:316-323 | reset forgets the formats and the error and starts a new check; the queued callbacks stay queued |
| UtmParams.Keys | src/hooks/useUtm/initUtm.ts:176 | `Object.keys` of a parameter object lists its keys in order |
| UtmParams.Get | src/hooks/useUtm/initUtm.ts:181 | reading a key the object lacks gives `undefined` |
| UtmParams.GetFound | src/hooks/useUtm/initUtm.ts:181 | a defined read comes from a property with that key |
| UtmParams.GetAt | src/hooks/useUtm/initUtm.ts:181 | with distinct keys, reading a property's key gives its value |
| UtmParams.QueryGet | src/hooks/useUtm/initUtm.ts:28-34 | `URLSearchParams.get` is `null` exactly when the name is absent, and otherwise a value given for that name |
| UtmParams.MissingFrom | src/hooks/useUtm/initUtm.ts:135-140 | at most one query parameter is added per UTM parameter |
| UtmParams.QueryHasAppend | src/hooks/useUtm/initUtm.ts:136-137 | after appending, a name is present if and only if it was present before or was appended |
| UtmParams.TailKeys | src/hooks/useUtm/initUtm.ts:135 | the keys of an entry list split into its first key and the rest, which it does not repeat |
| UtmParams.MissingFromKeys | src/hooks/useUtm/initUtm.ts:135-140 | only names of the given parameters are appended |
| UtmParams.AppendMissingFrom | src/hooks/useUtm/initUtm.ts:135-140 | appending one by one, each test seeing the earlier appends, gives the same as appending all missing ones at once |
| UtmParams.AppendMissingSpec | src/hooks/useUtm/initUtm.ts:135-140 | the query becomes the old query followed by exactly the missing parameters |
| UtmParams.MissingFromContents | src/hooks/useUtm/initUtm.ts:135-140 | a parameter is appended if and only if its value is non-empty and the query does not already have the name |
| InitUtm.AppendMissingGrows | src/hooks/useUtm/initUtm.ts:135-140 | the existing query parameters are kept, in order, in front |
| InitUtm.FilterEmptyValues | src/hooks/useUtm/initUtm.ts:222-226 | no entry the filter keeps is `undefined`, `null` or empty, and it never adds entries |
| InitUtm.FilterEmptyValuesKeeps | src/hooks/useUtm/initUtm.ts:222-226 | an entry is kept if and only if its value is present |
| InitUtm.FilterEmptyValuesKeys | src/hooks/useUtm/initUtm.ts:222-226 | the filter introduces no key |
| InitUtm.FilterEmptyValuesDistinct | src/hooks/useUtm/initUtm.ts:222-226 | the filter repeats no key |
| InitUtm.FilterEmptyValuesGet | src/hooks/useUtm/initUtm.ts:222-226 | after filtering a key reads as before when its value was present, and as `undefined` otherwise |
| InitUtm.FilterEmptyValuesClean | src/hooks/useUtm/initUtm.ts:222-226 | filtering clean parameters changes nothing, so the filter is idempotent |
| InitUtm.FromQuery | src/hooks/useUtm/initUtm.ts:30-34 | `get(name) \|\| undefined` is either `undefined` or a non-empty string |
| InitUtm.UtmNamesDistinct | src/hooks/useUtm/initUtm.ts:29-35 | the five UTM names are distinct keys |
| InitUtm.DefinedIffKept | src/hooks/useUtm/initUtm.ts:38-42 | for values that are `undefined` or present, some value is defined if and only if the filter keeps something |
| InitUtm.UtmFromUrlValues | src/hooks/useUtm/initUtm.ts:28-42 | the parameters read from the URL have distinct keys, and the URL counts as carrying UTM parameters exactly when the filter keeps some |
| InitUtm.UrlDefinedIffKept | src/hooks/useUtm/initUtm.ts:38-42 | the URL test `some(v => v !== undefined)` agrees with the filtered parameters being non-empty |
| InitUtm.ChooseUtmPriority | src/hooks/useUtm/initUtm.ts:26-74 | the URL's parameters win when it has any; then the referrer's, then the stored ones, then the defaults. Each origin is chosen if and only if every earlier one is empty |
| InitUtm.UrlChoiceNames | src/hooks/useUtm/initUtm.ts:29-35 | parameters taken from the URL only ever use the five UTM names |
| InitUtm.ChooseUtmWellFormed | src/hooks/useUtm/initUtm.ts:26-74 | the chosen parameters are never empty, repeat no key and hold present values only |
| InitUtm.CampaignDistinct | src/hooks/useUtm/initUtm.ts:79-85 | the default and referrer parameter lists repeat no key |
| InitUtm.Stringified | src/hooks/useUtm/initUtm.ts:213 | `JSON.stringify` drops exactly the `undefined` values |
| InitUtm.StringifiedClean | src/hooks/useUtm/initUtm.ts:213 | parameters with present values survive the storage round trip unchanged |
| InitUtm.StoreUtm | src/hooks/useUtm/initUtm.ts:211-217 | when storage is available, reading back gives the stored parameters; no other storage key changes |
| InitUtm.ChooseUtmStable | src/hooks/useUtm/initUtm.ts:155-160 | extracting again with the stored result of an extraction chooses the same parameters |
| InitUtm.SecondExtractionSilent | src/hooks/useUtm/initUtm.ts:155-169 | so a repeated extraction, as on a route change, fires no change event |
| InitUtm.IsEqual | src/hooks/useUtm/initUtm.ts:175-187 | the loop computes the shallow comparison: the same number of keys, and every key of the first object reads the same in the second |
| InitUtm.ShallowEqualIffSameEntries | src/hooks/useUtm/initUtm.ts:175-187 | for defined values and distinct keys, the comparison holds if and only if both objects have the same entries |
| InitUtm.ShallowEqualUndefined | src/hooks/useUtm/initUtm.ts:175-187 | objects holding only `undefined` under different keys count as equal |
| InitUtm.UtmStore.constructor | src/hooks/useUtm/initUtm.ts:5 | the module starts with empty current parameters, no event and no URL change |
| InitUtm.UtmStore.GetCurrentUtmParams | src/hooks/useUtm/initUtm.ts:192-194 | returns the current parameters |
| InitUtm.UtmStore.GetStoredUtm | src/hooks/useUtm/initUtm.ts:199-206 | returns what storage holds under `utm_params`, or nothing when storage fails |
| InitUtm.UtmStore.StoreUtmParams | src/hooks/useUtm/initUtm.ts:211-217 | storing changes only the storage, as `StoreUtm` says |
| InitUtm.UtmStore.UpdateUtmParams | src/hooks/useUtm/initUtm.ts:155-170 | the parameters become current and are stored. A change event carrying them is fired exactly when they differ from the previous ones |
| InitUtm.UtmStore.ExtractAndProcessUtm | src/hooks/useUtm/initUtm.ts:26-74 | the parameters chosen by priority become current and stored, with an event exactly when they changed |
| InitUtm.UtmStore.ApplyUtmParamsToUrl | src/hooks/useUtm/initUtm.ts:128-150 | the missing UTM parameters are appended to the query. The URL is replaced exactly once, and only when something was appended |
| UseUtm.ApplyWithUtm | src/hooks/useUtm/useUtm.ts:34-55 | the statements of `withUtm` compute `WithUtm` |
| UseUtm.WithUtmKeepsExisting | src/hooks/useUtm/useUtm.ts:39-49 | a parsed URL keeps its query parameters in front. A parameter is appended if and only if its value is non-empty and the URL does not already have the name |
| UseUtm.WithUtmAsGiven | src/hooks/useUtm/useUtm.ts:35-53 | the URL is returned as given exactly when it is empty, there are no UTM parameters, or it cannot be parsed |
| UseUtm.UtmQueryParts | src/hooks/useUtm/useUtm.ts:67-69 | one non-empty `key=value` part per present UTM parameter |
| UseUtm.JoinWithNonEmpty | src/hooks/useUtm/useUtm.ts:70-72 | joining parts whose first part is non-empty gives a non-empty query |
| UseUtm.PreserveUtmAppends | src/hooks/useUtm/useUtm.ts:58-77 | with UTM parameters, the path gets them appended after `&` when it already has a `?`, and after `?` otherwise |
| UseUtm.PreserveUtmUnchangedIff | src/hooks/useUtm/useUtm.ts:58-77 | the path stays unchanged if and only if it is empty or there are no UTM parameters |
| UseUtm.IsExternalUrlAgrees | src/hooks/useUtm/useUtm.ts:80-97 | the corrected test agrees with the code as written on every URL not starting with `//` |
| UseUtm.IsExternalUrlSpec | src/hooks/useUtm/useUtm.ts:80-97 | a URL is external exactly when it is non-empty, not a fragment, dot-relative or root-relative path, and it resolves to another origin. Protocol-relative `//host` URLs are included |
| UseUtm.ProtocolRelativeCounterexample | src/hooks/useUtm/useUtm.ts:84-93 | `//other.example/page` on `https://site.example` is internal as written, and external after the correction |
| Referrer.DetectReferrer | src/utils/detectReferrer.ts:7-52 | without a document, a referrer or a parsable URL there are no parameters. Any parameters found are organic search parameters naming one engine |
| Referrer.DetectReferrerEngines | src/utils/detectReferrer.ts:14-47 | a referrer is judged by the engine rules on its lower-cased host name |
| Referrer.EngineParamsSource | src/utils/detectReferrer.ts:17-47 | `google` exactly for Google hosts, `yahoo` exactly for Yahoo Japan hosts that are not Google's, `msa` exactly for the remaining Bing/MSN hosts, and nothing exactly for other hosts |
| Referrer.YahooSearchHostRedundant | src/utils/detectReferrer.ts:27-28 | the test for `search.yahoo.co.jp` adds nothing to the subdomain test |
| Referrer.SubdomainsMatch | src/utils/detectReferrer.ts:17-38 | subdomains such as `www.google.co.jp`, `news.google.com` and `www.bing.com` count |
| Referrer.LookalikeNotGoogle | src/utils/detectReferrer.ts:17-18 | a host that only ends in `google.com` without a dot before it is not Google |
| Referrer.PrefixNotGoogle | src/utils/detectReferrer.ts:17-18 | a host that only starts with `google.com` is not Google |
| Referrer.EndsWithAt | src/utils/detectReferrer.ts:17-38 | `endsWith` fixes the last characters |
| Referrer.GoogleTail | src/utils/detectReferrer.ts:17-18 | what the end of a Google host must look like |
| Referrer.YahooTail | src/utils/detectReferrer.ts:27-28 | what the end of a Yahoo host must look like |
| Referrer.BingTail | src/utils/detectReferrer.ts:37-38 | what the end of a Bing/MSN host must look like |
| Referrer.EnginesExclusive | src/utils/detectReferrer.ts:17-44 | no host passes two engine tests, so the order of the rules does not matter |
| Referrer.LowerCharIdempotent | src/utils/detectReferrer.ts:15 | lower-casing twice is lower-casing once |
| Referrer.DetectReferrerIgnoresCase | src/utils/detectReferrer.ts:15 | the result does not depend on the case of the host name |
| ExternalLink.IsExternalLinkChars | src/utils/isExternalLink/isExternalLink.ts:3-7 | `/^https?:\/\//` holds exactly for links starting with `http://` or `https://`, case-sensitively |
| ExternalLink.ExternalLinkExtends | src/utils/isExternalLink/isExternalLink.ts:6 | the test only looks at the start of the link |
| ExternalLink.InternalUnlessH | src/utils/isExternalLink/isExternalLink.ts:6 | a link not starting with `h` is internal |
| ExternalLink.InternalLinks | src/utils/isExternalLink/isExternalLink.ts:6 | root paths, fragments, the empty link, `ftp:`, upper-case `HTTP:`, protocol-relative and `mailto:` links are internal; `https://example.com` and `http://` are external |
| ResizeTrigger.Abs | src/utils/resizeTrigger/index.ts:17-18 | `Math.abs` of an integer |
| ResizeTrigger.ThresholdKeepsConfigured | src/utils/resizeTrigger/index.ts:5-18 | `resizeBasicValue ?? 50` keeps any configured number, 0 and negative numbers included, and takes 50 when the option or its value is missing |
| ResizeTrigger.IntendedQuietIffNear | src/utils/resizeTrigger/index.ts:16-23 | corrected: no callback exactly when both width and height stay strictly within the threshold of the recorded size |
| ResizeTrigger.AsWrittenQuietIffNear | src/utils/resizeTrigger/index.ts:16-23 | as written: no callback exactly when the width stays within the threshold of both the recorded width and the recorded height |
| ResizeTrigger.NonPositiveThresholdAlwaysFires | src/utils/resizeTrigger/index.ts:17-18 | a threshold of 0 or less calls back on every event |
| ResizeTrigger.AgreeWhileOnlyWidthMoves | src/utils/resizeTrigger/index.ts:17-18 | while the height stays put and the width stays near the recorded height, both decisions agree |
| ResizeTrigger.AsWrittenCounterexamples | src/utils/resizeTrigger/index.ts:17-18 | as written, a 1-pixel width change on a 1000x800 window calls back, and a height change from 1000 to 500 on a square window does not |
| ResizeTrigger.AfterEventsRecordsObservedSizes | src/utils/resizeTrigger/index.ts:9-24 | each event calls back at most once. The recorded size is the starting size or the size of an event. Without callbacks nothing changes |
| ResizeTrigger.DriftAccumulates | src/utils/resizeTrigger/index.ts:17-21 | distances are measured from the size at the last callback, so two 30-pixel steps call back once at threshold 50 |
| ResizeTrigger.ResizeListener.constructor | src/utils/resizeTrigger/index.ts:3-10 | registration records the window's size and the threshold |
| ResizeTrigger.ResizeListener.OnResizeAsWritten | src/utils/resizeTrigger/index.ts:12-24 | as written: it calls back exactly when `FiresAsWritten`, and then records both dimensions; otherwise nothing changes |
| ResizeTrigger.ResizeListener.OnResize | src/utils/resizeTrigger/index.ts:12-24 | corrected: the same with `FiresIntended` |
| UseMeta.RouteKeyFromSlug | src/hooks/useMeta/useMeta.ts:9-21 | the key is always a key of the route table: `TOP`, or the upper-cased slug |
| UseMeta.RouteKeyChoice | src/hooks/useMeta/useMeta.ts:9-21 | a missing or empty slug gives `TOP`. An upper-cased slug is used exactly when it is a key of the table, and `TOP` is used otherwise |
| UseMeta.ToUpperOfUpper | src/hooks/useMeta/useMeta.ts:13 | upper-casing leaves a string without lower-case letters unchanged |
| UseMeta.RouteKeyIdempotent | src/hooks/useMeta/useMeta.ts:9-21 | a route key mapped again gives itself |
| UseMeta.UpperUnderscore | src/hooks/useMeta/useMeta.ts:13 | an `_` after upper-casing was an `_` before |
| UseMeta.SlugWithoutUnderscoreIsTop | src/hooks/useMeta/useMeta.ts:9-21 | every non-`TOP` key holds an `_`, so a slug without one always gives the `TOP` entry |
| UseMeta.SlugExamples | src/hooks/useMeta/useMeta.ts:9-21 | the URL slug `figma-components` does not reach `FIGMA_COMPONENTS`, since upper-casing keeps the hyphen; `top` gives `TOP` |
| UseMeta.OrString | src/hooks/useMeta/useMeta.ts:35-43 | `s \|\| fallback` is a non-empty `s`, or the fallback |
| UseMeta.CompleteMetaDataFields | src/hooks/useMeta/useMeta.ts:34-45 | every field's fallback chain: `ogTitle` and `ogSiteName` fall back to the title, `ogDescription` to the description, `ogType` to `website` and `twitterCard` to `summary_large_image`. An empty image becomes `null` and a missing `customMeta` becomes `[]` |
| UseMeta.CompleteMetaDataIdempotent | src/hooks/useMeta/useMeta.ts:34-45 | completing completed meta data changes nothing |
| UseMeta.UseMetaOfTable | src/hooks/useMeta/useMeta.ts:24-48 | the hook returns the route entry's own title, OG fields and canonical URL, image `/` and no custom meta |
| BrowserInfo.MatchIosMajorLeftmost | src/utils/browserInfo/browserInfo.ts:38-41 | a successful match is at the leftmost position where `OS <digits>_<digits>` occurs (case-insensitively), and its first group is a non-empty digit string |
| BrowserInfo.MatchIosMajorNone | src/utils/browserInfo/browserInfo.ts:38-39 | a failed match means no position holds the pattern |
| BrowserInfo.MatchIosMajorSkip | src/utils/browserInfo/browserInfo.ts:38 | positions without a match may be skipped |
| BrowserInfo.IosMajorRoundTrip | src/utils/browserInfo/browserInfo.ts:38-41 | in an agent carrying `OS <major>_<minor>` with no earlier match, the iOS version found is the major number's text |
| BrowserInfo.DetectTouchDevice | src/utils/browserInfo/browserInfo.ts:17-22 | multi-touch exactly when in a browser with more than one touch point |
| BrowserInfo.DetectOs | src/utils/browserInfo/browserInfo.ts:35-49 | the first of iPhone/iPad/iPod, Android, Macintosh and Windows that the agent contains decides the OS. The iOS version is set only for iOS, from the first `OS n_m` match |
| BrowserInfo.DetectWebView | src/utils/browserInfo/browserInfo.ts:51-57 | a web view exactly when a device token is followed on the line by `AppleWebKit` with no `Safari` after it, or the lower-cased agent contains `wv` |
| BrowserInfo.DetectBrowserName | src/utils/browserInfo/browserInfo.ts:59-73 | the first of Chrome/CriOS, Edge, Firefox and Safari that the agent contains names the browser, then web view; each case is an if-and-only-if. The app name is the browser's |
| BrowserInfo.OverrideAppName | src/utils/browserInfo/browserInfo.ts:76-86 | an in-app browser token, if any, replaces the app name |
| BrowserInfo.DetectDeviceType | src/utils/browserInfo/browserInfo.ts:89-103 | a tablet exactly for iPad, Macintosh with multi-touch, or Android without `Mobile`. Otherwise a phone exactly for iPhone or `Mobile`, and otherwise a PC; never the empty value |
| BrowserInfo.DetectBrowser | src/utils/browserInfo/browserInfo.ts:24-107 | every field of the result, as the five rules above decide it, with an empty web-view version |
| BrowserInfo.InAppName | src/utils/browserInfo/browserInfo.ts:76-86 | an app is named exactly when the lower-cased agent contains `line`, `fbav`, `instagram`, `slack` or `twitter` |
| BrowserInfo.GetBrowserInfo | src/utils/browserInfo/browserInfo.ts:109-113 | the whole `detectBrowser` classification of every field, with more than one touch point in a browser as the multi-touch flag |
| BrowserInfo.ClassifiesUnique | src/utils/browserInfo/browserInfo.ts:24-107 | the classification determines every field, so any two results for the same agent and flag are equal |
| BrowserInfo.IncludesLonger | src/utils/browserInfo/browserInfo.ts:84 | an agent containing a string contains each piece of it |
| BrowserInfo.XTwitterRedundant | src/utils/browserInfo/browserInfo.ts:84 | the `x-twitter` test adds nothing to the `twitter` test |
| BrowserInfo.AppNamePriority | src/utils/browserInfo/browserInfo.ts:59-86 | `line` wins over every other token. The default app name remains exactly when no app token occurs and no named browser was found |
| BrowserInfo.PhonePatternIff | src/utils/browserInfo/browserInfo.ts:100 | `/iPhone\|Android.*Mobile\|Mobile/` is the same test as `iPhone` or `Mobile` |
| BrowserInfo.WebViewWithoutSafari | src/utils/browserInfo/browserInfo.ts:51 | a device token followed on the same line by `AppleWebKit` and no later `Safari` is a web view |
| Responsive.MediaRangesPartition | src/styles/responsive.css.ts:6-13 | every integer viewport width falls in exactly one of the SP (up to 500), tablet (501-1023), PC (1024-1511) and PC-over (from 1512) queries |
| Responsive.FractionalWidthGap | src/styles/responsive.css.ts:7-10 | fractional widths between two ranges, such as 500.5, 1023.5 and 1511.5, match no query |
| Responsive.MediaQueryTexts | src/styles/responsive.css.ts:6-13 | the query texts built from the breakpoints have their literal lengths, and the pixel-limit query is the same query as PC-over, since both start at 1512 |
| Responsive.GetUnitTypeCases | src/styles/responsive.css.ts:59-66 | `auto` is given exactly for the three keywords and for a number with a CSS unit. Numbers give `vw`. `px` is never given |
| Responsive.NumberWithUnitOf | src/styles/responsive.css.ts:62 | digits followed by a unit count as a number with a unit |
| Responsive.DigitsAloneNotUnit | src/styles/responsive.css.ts:62 | a unitless digit string gives `vw` |
| Responsive.ProcessValueSpec | src/styles/responsive.css.ts:69-74 | strings are passed through unchanged whatever the conversion, and numbers go through the conversion |
| Responsive.ProcessedParts | src/styles/responsive.css.ts:78 | one processed part per value, in order |
| Responsive.ProcessValuesCons | src/styles/responsive.css.ts:77-79 | the parts are joined with single spaces |
| Responsive.JoinWithSpaces | src/styles/responsive.css.ts:78 | joining adds exactly one space between neighbouring parts |
| Responsive.SpacesInCons | src/styles/responsive.css.ts:78 | counting spaces part by part |
| Responsive.ProcessValuesCount | src/styles/responsive.css.ts:77-79 | parts without spaces give a value with one space fewer than values |
| Responsive.AsArray | src/styles/responsive.css.ts:90 | an array is kept and a single value is wrapped |
| Responsive.OrDefault | src/styles/responsive.css.ts:91-92 | a truthy SP or tablet value is used, wrapped as array; a falsy one, `0` and `''` included, falls back to the default array |
| Responsive.SetMedia | src/styles/responsive.css.ts:123-125 | setting one query's entry changes only that entry of `@media` |
| Responsive.CreateResponsiveStyle | src/styles/responsive.css.ts:82-129 | the rule holds the property in PC `vw` and `@media` entries for SP and tablet in their own `vw` conversions, with falsy values taken from the default. When `useLimit` is on it also holds the pixel-limit entry in `px`; an omitted `useLimit` takes `usePixelLimit` (false) |
| Responsive.At | src/styles/responsive.css.ts:136 | destructuring a short array gives `undefined` past its end |
| Responsive.CreateMqStyle | src/styles/responsive.css.ts:132-170 | the property holds the first value. SP and tablet entries exist exactly for defined values. The PC-over entry is the fourth value if defined, and otherwise the first value converted to `px` |
| Responsive.MediaWrappers | src/styles/responsive.css.ts:192-214 | `sp`, `tablet`, `pc` and `pcOver` each wrap the styles under their own query only, and `pixelBreakpoint` is the same as `pcOver` |

## Left out

- Encoding itself (ffmpeg, sharp, svgo) and SHA-256 hashing are outside the model. Their results are parameters: the hash of each readable file, the existing outputs, and the inputs whose encodes fail.
- File-system I/O (`readdirSync`, `statSync`, `existsSync`, `mkdirSync`, `unlinkSync`, `rmdirSync`, `writeFileSync`) is modelled on values. Listings are trees, existing paths are sets, and removals are recorded as a sequence instead of performed.
- Loading the YAML configuration and the JSON cache file is left out, and so are their parse errors and the `process.exit` calls on failure. The cache round trip through `JSON.stringify`/`JSON.parse` is modelled as the identity on values.
- Concurrency is not modelled. The video tool's `Promise.all` over encodes and the image tool's parallel `processImage` calls run in listing order. The asynchronous format check is split into a start (`GetSupportedFormats`) and its completion (`FinishCheck`, `FailCheck`).
- Canvas and `Image` probing in `checkImageTypeSupport` are boolean parameters. So are `typeof window`, `navigator.maxTouchPoints`, session storage availability and `new URL` failures.
- Console logging is left out, as is `logSupportedFormats`' output. Only its registration as a callback is kept.
- Numbers are integers: fractional numbers and NaN are not modelled in configuration values. The responsive helpers use `real` widths. Their number formatting (`stripUnit`, `parseFloat`, `vwCalc`, `vwTabletCalc`, `vwPcCalc`, `toPx`) is left abstract as a conversion parameter, and so are the design widths `PcDesignWidth`, `TabletDesignWidth` and `SpDesignWidth` that those conversions divide by.
- The `rvw` and `mqStyle` Proxy objects are left out. They only forward property names to `createResponsiveStyle` and `createMqStyle`, which are modelled.
- `hover` and `hoverInteraction` are left out, because they contain no logic to prove. `hover(styles)` nests `styles` under `:hover` inside the hover media query. `hoverInteraction()` takes no argument and returns fixed `cursor` and `transition` declarations and a `:hover` brightness filter under that query.
- Responsive.CreateResponsiveStyle: requires `property != "@media"`. The style object's keys are a map, so a property literally named `@media` would collide with the media key, and the insertion order of the keys is not modelled.
- Responsive.CreateMqStyle: requires `property != "@media"`, for the same reason as `CreateResponsiveStyle`.
- `toLowerCase`/`toUpperCase` are modelled for ASCII letters only. Unicode case mapping is not modelled.
- Wildcard: of the regular-expression characters a pattern may contain besides `*` and `?`, only `.` keeps its meaning. Every other one is matched literally.
- NodePath: `path.join`, `extname` and `basename` are modelled for already-normalised POSIX paths, with no `.`/`..` segments and no repeated or trailing `/`. Joining two empty strings gives `""` here, where Node gives `"."`; the tools never join an empty file name.
- JsStrings.ReplaceFirst: the `$` patterns of a replacement string are not modelled; replacements are taken literally.
- Strict equality `===` on objects is modelled as equality of values; object identity is not modelled.
- In `initUtm`, the `typeof window` guard and the start-up call are left out. Also left out: the history patch and `popstate` listener (`setupRouteChangeListener`), and the route-change hook that calls `extractAndProcessUtm` again (`handleRouteChange`). Each route change is an `ExtractAndProcessUtm` call.
- The React parts of `useUtm` (the `useState`/`useEffect` pair and its event listener) and of `useMeta` (`useAppLocation`) are left out. The hooks are modelled as functions of the current parameters, or of the slug.
- UseUtm.WithUtm: the serialised URL `urlObj.toString()` is represented only by its query. The scheme, host, path, hash and the URL normalisation of the parsed URL are not represented.
- `encodeURIComponent` is a parameter of `PreserveUtm`; its escaping rules are not modelled.
- The browser-information store around `initialState`, and its updates, is not modelled. `src/utils/browserInfo/constants.ts` and `types.ts` are not part of this model; their constant names are datatype constructors here.

## Findings

| source | as written | input that shows it | evidently intended | confidence | as-written member | corrected member |
|---|---|---|---|---|---|---|
| src/utils/resizeTrigger/index.ts:17-18 | the horizontal test compares `currentWidth` with `lastHeight` | threshold 50, last size 1000×800: a resize to 1001×800 fires; last size 1000×1000: a resize to 1000×500 does not (height change mixed into the width test) | compare `currentWidth` with `lastWidth` and `currentHeight` with `lastHeight` | high, not executed | ResizeTrigger.AsWrittenCounterexamples | ResizeTrigger.IntendedQuietIffNear |
| src/hooks/useUtm/useUtm.ts:84-93 | a protocol-relative URL is never external: every URL starting with `/` returns `false` before the `//` case the comment promises is reached | `//other.example/page` on origin `https://site.example` | a `//host` URL resolves against the page's protocol and is external when its origin differs | high, not executed | UseUtm.ProtocolRelativeCounterexample | UseUtm.IsExternalUrlSpec |
| src/components/utils/ImgOpt/ImgOptUtils.ts:216-222 | the extension is cut at the last `.` of the whole path, even in a directory name | `assets.v2/hero` becomes `assets.avif` | only a `.` after the last `/` starts an extension; a path whose last segment has none is returned as it is | medium, not executed | ImgOptUtils.DirectoryDotDiscrepancy | ImgOptUtils.OptimalImagePathSpec |
