/** The video tool's cache of processed inputs and the test that decides whether an input must
    be encoded again. */
module VideoCache {
  import opened Wrappers
  import opened JsStrings
  import opened JsValues
  import opened NodePath
  import opened VideoSettings

  /** What the cache records for an input: its content hash and the settings it was encoded
      with. */
  datatype VideoEntry = VideoEntry(hash: string, bitrates: Formats, includeAudio: Value)

  /** The outcome of `isBitrateUnchanged`: it may also throw, when the current formats lack a
      format the cache has. */
  datatype Comparison = Unchanged | Changed | Throws

  /** `isBitrateUnchanged(cached, current)`: walks the cached formats in order and stops at the
      first one whose bitrates differ (or that the current formats lack, which throws). */
  function CompareBitrates(cached: Formats, current: Formats): Comparison {
    if cached == [] then Unchanged
    else match Lookup(current, cached[0].0)
      case None => Throws
      case Some(c) => if c != cached[0].1 then Changed else CompareBitrates(cached[1..], current)
  }

  /** Every cached format has the same settings in the current formats. */
  predicate AllSame(cached: Formats, current: Formats) {
    forall i :: 0 <= i < |cached| ==> Lookup(current, cached[i].0) == Some(cached[i].1)
  }

  /** The first cached format that differs is missing from the current formats. */
  predicate FirstDifferenceMissing(cached: Formats, current: Formats) {
    exists i :: 0 <= i < |cached| && Lookup(current, cached[i].0).None? &&
      forall j :: 0 <= j < i ==> Lookup(current, cached[j].0) == Some(cached[j].1)
  }

  /** The comparison is unchanged exactly when every cached format is the same now, and throws
      exactly when the first difference is a format the current formats lack. */
  lemma {:induction false} CompareBitratesSpec(cached: Formats, current: Formats)
    ensures CompareBitrates(cached, current) == Unchanged <==> AllSame(cached, current)
    ensures CompareBitrates(cached, current) == Throws <==> FirstDifferenceMissing(cached, current)
  {
    if cached != [] {
      var t := cached[1..];
      CompareBitratesSpec(t, current);
      var first := Lookup(current, cached[0].0);
      if first.None? {
        assert !AllSame(cached, current) by {
          assert Lookup(current, cached[0].0) != Some(cached[0].1);
        }
        assert FirstDifferenceMissing(cached, current) by {
          assert Lookup(current, cached[0].0).None?;
        }
      } else if first.value != cached[0].1 {
        assert !AllSame(cached, current) by {
          assert Lookup(current, cached[0].0) != Some(cached[0].1);
        }
        assert !FirstDifferenceMissing(cached, current) by {
          forall i | 0 <= i < |cached| && Lookup(current, cached[i].0).None?
            ensures exists j :: 0 <= j < i && Lookup(current, cached[j].0) != Some(cached[j].1)
          {
            assert i > 0;
            assert Lookup(current, cached[0].0) != Some(cached[0].1);
          }
        }
      } else {
        SameFirstShifts(cached, current);
      }
    }
  }

  /** When the first cached format is the same now, both properties are those of the rest. */
  lemma SameFirstShifts(cached: Formats, current: Formats)
    requires cached != [] && Lookup(current, cached[0].0) == Some(cached[0].1)
    ensures AllSame(cached, current) <==> AllSame(cached[1..], current)
    ensures FirstDifferenceMissing(cached, current) <==> FirstDifferenceMissing(cached[1..], current)
  {
    SameFirstAllSame(cached, current);
    SameFirstMissing(cached, current);
  }

  lemma SameFirstAllSame(cached: Formats, current: Formats)
    requires cached != [] && Lookup(current, cached[0].0) == Some(cached[0].1)
    ensures AllSame(cached, current) <==> AllSame(cached[1..], current)
  {
    var t := cached[1..];
    if AllSame(cached, current) {
      forall i | 0 <= i < |t| ensures Lookup(current, t[i].0) == Some(t[i].1) {
        assert t[i] == cached[i + 1];
      }
    }
    if AllSame(t, current) {
      forall i | 0 <= i < |cached| ensures Lookup(current, cached[i].0) == Some(cached[i].1) {
        if i > 0 {
          assert cached[i] == t[i - 1];
        }
      }
    }
  }

  lemma SameFirstMissing(cached: Formats, current: Formats)
    requires cached != [] && Lookup(current, cached[0].0) == Some(cached[0].1)
    ensures FirstDifferenceMissing(cached, current) <==> FirstDifferenceMissing(cached[1..], current)
  {
    var t := cached[1..];
    if FirstDifferenceMissing(cached, current) {
      var i :| 0 <= i < |cached| && Lookup(current, cached[i].0).None? &&
        forall j :: 0 <= j < i ==> Lookup(current, cached[j].0) == Some(cached[j].1);
      assert i > 0;
      assert t[i - 1] == cached[i];
      forall j | 0 <= j < i - 1 ensures Lookup(current, t[j].0) == Some(t[j].1) {
        assert t[j] == cached[j + 1];
      }
    }
    if FirstDifferenceMissing(t, current) {
      var i :| 0 <= i < |t| && Lookup(current, t[i].0).None? &&
        forall j :: 0 <= j < i ==> Lookup(current, t[j].0) == Some(t[j].1);
      assert cached[i + 1] == t[i];
      forall j | 0 <= j < i + 1 ensures Lookup(current, cached[j].0) == Some(cached[j].1) {
        if j > 0 {
          assert cached[j] == t[j - 1];
        }
      }
    }
  }

  /** Formats compared with themselves are unchanged. */
  lemma {:induction false} CompareBitratesReflexive(f: Formats)
    requires forall a, b :: 0 <= a < b < |f| ==> f[a].0 != f[b].0
    ensures CompareBitrates(f, f) == Unchanged
  {
    forall i | 0 <= i < |f| ensures Lookup(f, f[i].0) == Some(f[i].1) {
      LookupAt(f, i);
    }
    CompareBitratesSpec(f, f);
  }

  /** The name an output has for the format named `key`: `h265` gives `-h265.mp4`, every other
      key `.<key>`. */
  function OutputSuffix(key: string): string {
    if key == "h265" then "-h265.mp4" else "." + key
  }

  /** The outputs `isFileProcessedBefore` looks for: one per key of the formats, named by
      replacing the first `.mp4` of the input's name. */
  function ExpectedOutputs(outputPath: string, filename: string, formats: Formats): (r: seq<string>)
    ensures |r| == |formats|
    ensures forall i :: 0 <= i < |formats| ==>
      r[i] == Join(outputPath, ReplaceFirst(filename, ".mp4", OutputSuffix(formats[i].0)))
  {
    if formats == [] then []
    else
      var first := Join(outputPath, ReplaceFirst(filename, ".mp4", OutputSuffix(formats[0].0)));
      [first] + ExpectedOutputs(outputPath, filename, formats[1..])
  }

  /** The verdict of `isFileProcessedBefore`, with the reason it gives. */
  datatype Verdict =
    | AlreadyProcessed
    | NoCacheInfo
    | HashMismatch
    | OutputsMissing
    | BitrateChanged
    /** the bitrate comparison threw */
    | CheckThrew

  /** `isFileProcessedBefore`: the four tests, in the order the source makes them. `outputs` is
      the set of paths that exist. */
  function ProcessedBefore(cache: map<string, VideoEntry>, inputPath: string, outputPath: string,
                           filename: string, hash: string, formats: Formats, outputs: set<string>): (v: Verdict)
    ensures v == NoCacheInfo <==> inputPath !in cache
    ensures v == HashMismatch <==> (inputPath in cache && cache[inputPath].hash != hash)
    ensures v == OutputsMissing <==>
      (inputPath in cache && cache[inputPath].hash == hash &&
       exists o :: o in ExpectedOutputs(outputPath, filename, formats) && o !in outputs)
    ensures v == AlreadyProcessed <==>
      (inputPath in cache && cache[inputPath].hash == hash &&
       (forall o :: o in ExpectedOutputs(outputPath, filename, formats) ==> o in outputs) &&
       (forall i :: 0 <= i < |cache[inputPath].bitrates| ==>
          Lookup(formats, cache[inputPath].bitrates[i].0) == Some(cache[inputPath].bitrates[i].1)))
  {
    if inputPath !in cache then NoCacheInfo
    else
      var cached := cache[inputPath];
      if cached.hash != hash then HashMismatch
      else if exists o :: o in ExpectedOutputs(outputPath, filename, formats) && o !in outputs then OutputsMissing
      else
        CompareBitratesSpec(cached.bitrates, formats);
        match CompareBitrates(cached.bitrates, formats)
        case Unchanged => AlreadyProcessed
        case Changed => BitrateChanged
        case Throws => CheckThrew
  }

  /** An input whose cache entry holds its current hash and formats, and whose expected
      outputs all exist, is found processed: this is what a successful run leaves behind. */
  lemma FoundProcessedAfterEncoding(cache: map<string, VideoEntry>, inputPath: string, outputPath: string,
                                    filename: string, hash: string, formats: Formats, audio: Value, outputs: set<string>)
    requires inputPath in cache && cache[inputPath] == VideoEntry(hash, formats, audio)
    requires forall a, b :: 0 <= a < b < |formats| ==> formats[a].0 != formats[b].0
    requires forall o :: o in ExpectedOutputs(outputPath, filename, formats) ==> o in outputs
    ensures ProcessedBefore(cache, inputPath, outputPath, filename, hash, formats, outputs) == AlreadyProcessed
  {
    CompareBitratesReflexive(formats);
  }

  /** An input whose name has no `.mp4` (a `.mov` input) is looked for under its own name in the
      output directory, once per format; since no output is written under that name, such an
      input is never found processed. */
  lemma NameWithoutMp4IsNeverProcessed(cache: map<string, VideoEntry>, inputPath: string, outputPath: string,
                                       filename: string, hash: string, formats: Formats, outputs: set<string>)
    requires !Includes(filename, ".mp4") && formats != []
    requires Join(outputPath, filename) !in outputs
    ensures ProcessedBefore(cache, inputPath, outputPath, filename, hash, formats, outputs) != AlreadyProcessed
  {
    var e := ExpectedOutputs(outputPath, filename, formats);
    assert e[0] == Join(outputPath, filename);
  }
}
