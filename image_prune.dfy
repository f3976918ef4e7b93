/** The image tool's orphan pruner: an output directory without an input path of the same name is
    removed with everything in it, an output file is deleted unless one of its extensions,
    replaced by a raster input extension, names an existing input path. An error on one entry
    does not stop its siblings. */
module ImagePrune {
  import opened JsStrings
  import opened NodePath
  import opened FileTree

  /** The extensions the keep rule tries to replace, in the order it tries them. */
  const OutputExtensions: seq<string> := [".webp", ".avif", ".jpeg", ".jpg", ".png"]

  /** One of the three replacements made for `ext` in the full input path names an existing
      path. Only the first occurrence of `ext` is replaced; where `ext` does not occur the path
      itself is looked up. */
  predicate CounterpartFor(inputs: set<string>, inputFilePath: string, ext: string) {
    ReplaceFirst(inputFilePath, ext, ".png") in inputs ||
    ReplaceFirst(inputFilePath, ext, ".jpeg") in inputs ||
    ReplaceFirst(inputFilePath, ext, ".jpg") in inputs
  }

  /** `correspondingInputFileExists` */
  predicate HasInputCounterpart(inputs: set<string>, inputFilePath: string) {
    exists i | 0 <= i < |OutputExtensions| :: CounterpartFor(inputs, inputFilePath, OutputExtensions[i])
  }

  /** What the pruner removes, with the input path whose absence justified it. */
  datatype Removal =
    /** `rmdirSync(output, { recursive: true })` */
    | RemovedDirectory(input: string, output: string)
    /** `unlinkSync(output)` */
    | DeletedFile(input: string, output: string)

  /** `deleteRemovedImages(inputPath, outputPath)` over the entries of the output directory, in
      listing order, appending to what was removed before. An entry `statSync` cannot describe
      is skipped. */
  function PruneWalk(inputs: set<string>, done: seq<Removal>, inputPath: string, outputPath: string,
                     entries: seq<Entry>): seq<Removal>
    decreases entries, 1
  {
    if entries == [] then done
    else PruneWalk(inputs, PruneStep(inputs, done, inputPath, outputPath, entries[0]), inputPath, outputPath, entries[1..])
  }

  function PruneStep(inputs: set<string>, done: seq<Removal>, inputPath: string, outputPath: string, e: Entry): seq<Removal>
    decreases e, 0
  {
    match e
    case Dangling(_) => done
    case Dir(name, kids) =>
      if Join(inputPath, name) in inputs then PruneWalk(inputs, done, Join(inputPath, name), Join(outputPath, name), kids)
      else done + [RemovedDirectory(Join(inputPath, name), Join(outputPath, name))]
    case File(name) =>
      if HasInputCounterpart(inputs, Join(inputPath, name)) then done
      else done + [DeletedFile(Join(inputPath, name), Join(outputPath, name))]
  }

  /** Every removal is justified: a removed directory has no input path, a deleted file no input
      counterpart. */
  predicate Justified(inputs: set<string>, r: Removal) {
    match r
    case RemovedDirectory(i, _) => i !in inputs
    case DeletedFile(i, _) => !HasInputCounterpart(inputs, i)
  }

  /** The walk only appends, and only justified removals. */
  lemma {:induction false} PruneWalkSound(inputs: set<string>, done: seq<Removal>, inputPath: string,
                                          outputPath: string, entries: seq<Entry>)
    ensures var r := PruneWalk(inputs, done, inputPath, outputPath, entries);
      |done| <= |r| && r[..|done|] == done &&
      forall k :: |done| <= k < |r| ==> Justified(inputs, r[k])
    decreases entries, 1
  {
    if entries != [] {
      var mid := PruneStep(inputs, done, inputPath, outputPath, entries[0]);
      PruneStepSound(inputs, done, inputPath, outputPath, entries[0]);
      PruneWalkSound(inputs, mid, inputPath, outputPath, entries[1..]);
      var r := PruneWalk(inputs, done, inputPath, outputPath, entries);
      assert r[..|mid|][..|done|] == r[..|done|];
    }
  }

  lemma {:induction false} PruneStepSound(inputs: set<string>, done: seq<Removal>, inputPath: string,
                                          outputPath: string, e: Entry)
    ensures var r := PruneStep(inputs, done, inputPath, outputPath, e);
      |done| <= |r| && r[..|done|] == done &&
      forall k :: |done| <= k < |r| ==> Justified(inputs, r[k])
    decreases e, 0
  {
    match e
    case Dangling(_) =>
    case Dir(name, kids) =>
      if Join(inputPath, name) in inputs {
        PruneWalkSound(inputs, done, Join(inputPath, name), Join(outputPath, name), kids);
      }
    case File(name) =>
  }

  /** `e`, listed under `inputPath`/`outputPath`, has been dealt with in `r`: a file without
      counterpart deleted, a directory without input path removed. */
  predicate Handled(inputs: set<string>, inputPath: string, outputPath: string, e: Entry, r: seq<Removal>) {
    match e
    case File(name) =>
      !HasInputCounterpart(inputs, Join(inputPath, name)) ==>
        DeletedFile(Join(inputPath, name), Join(outputPath, name)) in r
    case Dir(name, _) =>
      Join(inputPath, name) !in inputs ==>
        RemovedDirectory(Join(inputPath, name), Join(outputPath, name)) in r
    case Dangling(_) => true
  }

  /** What has been dealt with stays dealt with when more is appended. */
  lemma HandledKept(inputs: set<string>, inputPath: string, outputPath: string, e: Entry, mid: seq<Removal>, r: seq<Removal>)
    requires Handled(inputs, inputPath, outputPath, e, mid)
    requires |mid| <= |r| && r[..|mid|] == mid
    ensures Handled(inputs, inputPath, outputPath, e, r)
  {
    assert r == mid + r[|mid|..];
  }

  /** One step deals with its own entry. */
  lemma PruneStepHandles(inputs: set<string>, done: seq<Removal>, inputPath: string, outputPath: string, e: Entry)
    ensures Handled(inputs, inputPath, outputPath, e, PruneStep(inputs, done, inputPath, outputPath, e))
  {
    match e
    case Dangling(_) =>
    case Dir(name, kids) =>
    case File(name) =>
  }

  /** Every entry of the listed directory is dealt with, whatever happens to its siblings. */
  lemma {:induction false} PruneWalkComplete(inputs: set<string>, done: seq<Removal>, inputPath: string,
                                             outputPath: string, entries: seq<Entry>, j: nat)
    requires j < |entries|
    ensures Handled(inputs, inputPath, outputPath, entries[j], PruneWalk(inputs, done, inputPath, outputPath, entries))
    decreases j
  {
    var mid := PruneStep(inputs, done, inputPath, outputPath, entries[0]);
    var r := PruneWalk(inputs, done, inputPath, outputPath, entries);
    assert r == PruneWalk(inputs, mid, inputPath, outputPath, entries[1..]);
    if j == 0 {
      PruneStepHandles(inputs, done, inputPath, outputPath, entries[0]);
      PruneWalkSound(inputs, mid, inputPath, outputPath, entries[1..]);
      HandledKept(inputs, inputPath, outputPath, entries[0], mid, r);
    } else {
      PruneWalkComplete(inputs, mid, inputPath, outputPath, entries[1..], j - 1);
      assert entries[1..][j - 1] == entries[j];
    }
  }

  /** The removals the walk may make below `inputPath`/`outputPath`: deleting any file it reaches
      and removing any directory it reaches whose input path is missing. It descends only into
      directories whose input path exists, as the recursion does. */
  function Reachable(inputs: set<string>, inputPath: string, outputPath: string, entries: seq<Entry>): set<Removal>
    decreases entries, 1
  {
    if entries == [] then {}
    else ReachableEntry(inputs, inputPath, outputPath, entries[0]) + Reachable(inputs, inputPath, outputPath, entries[1..])
  }

  function ReachableEntry(inputs: set<string>, inputPath: string, outputPath: string, e: Entry): set<Removal>
    decreases e, 0
  {
    match e
    case Dangling(_) => {}
    case Dir(name, kids) =>
      if Join(inputPath, name) in inputs then Reachable(inputs, Join(inputPath, name), Join(outputPath, name), kids)
      else {RemovedDirectory(Join(inputPath, name), Join(outputPath, name))}
    case File(name) => {DeletedFile(Join(inputPath, name), Join(outputPath, name))}
  }

  /** The walk only appends reachable removals, and makes every justified reachable one, at any
      depth of the tree. */
  lemma {:induction false} PruneWalkReaches(inputs: set<string>, done: seq<Removal>, inputPath: string,
                                            outputPath: string, entries: seq<Entry>)
    ensures var r := PruneWalk(inputs, done, inputPath, outputPath, entries);
      |done| <= |r| && r[..|done|] == done &&
      (forall k :: |done| <= k < |r| ==> r[k] in Reachable(inputs, inputPath, outputPath, entries)) &&
      (forall x :: x in Reachable(inputs, inputPath, outputPath, entries) && Justified(inputs, x) ==> x in r)
    decreases entries, 1
  {
    var r := PruneWalk(inputs, done, inputPath, outputPath, entries);
    if entries != [] {
      var mid := PruneStep(inputs, done, inputPath, outputPath, entries[0]);
      PruneStepReaches(inputs, done, inputPath, outputPath, entries[0]);
      PruneWalkReaches(inputs, mid, inputPath, outputPath, entries[1..]);
      assert r[..|mid|][..|done|] == r[..|done|];
      forall k | |done| <= k < |r|
        ensures r[k] in Reachable(inputs, inputPath, outputPath, entries)
      {
        if k < |mid| {
          assert r[k] == r[..|mid|][k] == mid[k];
        }
      }
      forall x | x in Reachable(inputs, inputPath, outputPath, entries) && Justified(inputs, x)
        ensures x in r
      {
        if x in ReachableEntry(inputs, inputPath, outputPath, entries[0]) {
          assert x in mid;
          var k :| 0 <= k < |mid| && mid[k] == x;
          assert r[..|mid|][k] == r[k];
        }
      }
    }
  }

  lemma {:induction false} PruneStepReaches(inputs: set<string>, done: seq<Removal>, inputPath: string,
                                            outputPath: string, e: Entry)
    ensures var r := PruneStep(inputs, done, inputPath, outputPath, e);
      |done| <= |r| && r[..|done|] == done &&
      (forall k :: |done| <= k < |r| ==> r[k] in ReachableEntry(inputs, inputPath, outputPath, e)) &&
      (forall x :: x in ReachableEntry(inputs, inputPath, outputPath, e) && Justified(inputs, x) ==> x in r)
    decreases e, 0
  {
    match e
    case Dangling(_) =>
    case Dir(name, kids) =>
      if Join(inputPath, name) in inputs {
        PruneWalkReaches(inputs, done, Join(inputPath, name), Join(outputPath, name), kids);
      }
    case File(name) =>
  }

  /** The whole pass from a listed directory: every removal is reachable and justified, and a
      reachable file (one under directories whose input paths exist, at any depth) is deleted
      exactly when it has no input counterpart, a reachable directory without input path is
      removed. */
  lemma RemovesExactlyOrphans(inputs: set<string>, inputPath: string, outputPath: string, entries: seq<Entry>)
    ensures var r := PruneWalk(inputs, [], inputPath, outputPath, entries);
      (forall x :: x in r ==> x in Reachable(inputs, inputPath, outputPath, entries) && Justified(inputs, x)) &&
      (forall i, o :: DeletedFile(i, o) in Reachable(inputs, inputPath, outputPath, entries) ==>
         (DeletedFile(i, o) in r <==> !HasInputCounterpart(inputs, i))) &&
      (forall i, o :: RemovedDirectory(i, o) in Reachable(inputs, inputPath, outputPath, entries) ==>
         i !in inputs && RemovedDirectory(i, o) in r)
  {
    var r := PruneWalk(inputs, [], inputPath, outputPath, entries);
    PruneWalkReaches(inputs, [], inputPath, outputPath, entries);
    PruneWalkSound(inputs, [], inputPath, outputPath, entries);
    ReachableDirectoriesJustified(inputs, inputPath, outputPath, entries);
  }

  /** Every directory the walk can reach for removal has no input path. */
  lemma {:induction false} ReachableDirectoriesJustified(inputs: set<string>, inputPath: string, outputPath: string,
                                                         entries: seq<Entry>)
    ensures forall x :: x in Reachable(inputs, inputPath, outputPath, entries) && x.RemovedDirectory? ==> x.input !in inputs
    decreases entries
  {
    if entries != [] {
      ReachableDirectoriesJustified(inputs, inputPath, outputPath, entries[1..]);
      match entries[0]
      case Dangling(_) =>
      case File(_) =>
      case Dir(name, kids) =>
        if Join(inputPath, name) in inputs {
          ReachableDirectoriesJustified(inputs, Join(inputPath, name), Join(outputPath, name), kids);
        }
    }
  }

  /** An output file whose own name exists in the input directory is kept (every replacement
      that finds no `.webp` leaves the path as it is). */
  lemma SameNameKept(inputs: set<string>, inputFilePath: string)
    requires inputFilePath in inputs && !Includes(inputFilePath, ".webp")
    ensures HasInputCounterpart(inputs, inputFilePath)
  {
    assert CounterpartFor(inputs, inputFilePath, OutputExtensions[0]);
  }

  lemma JoinAppend(dir: string, base: string, ext: string)
    requires base != ""
    ensures Join(dir, base + ext) == Join(dir, base) + ext
  {
  }

  lemma ReplaceWhole(s: string, rep: string)
    requires s != []
    ensures ReplaceFirst(s, s, rep) == rep
  {
    assert OccursAt(s, s, 0);
    ReplaceFirstAt(s, s, rep, 0);
  }

  /** The outputs the image tool writes for a raster input `base.png`, `base.jpeg` or `base.jpg`
      (`base.avif`, `base.webp` and the re-encoded original, `.jpg` or `.png`) are kept, as long
      as the extension does not already occur earlier in the input path. */
  lemma EncodedImageOutputsKept(inputs: set<string>, inputPath: string, base: string, inExt: string, outExt: string)
    requires base != "" && Join(inputPath, base + inExt) in inputs
    requires inExt == ".png" || inExt == ".jpeg" || inExt == ".jpg"
    requires outExt == ".avif" || outExt == ".webp" || outExt == ".jpg" || outExt == ".png"
    requires !Includes(Join(inputPath, base), outExt)
    ensures HasInputCounterpart(inputs, Join(inputPath, base + outExt))
  {
    var prefix := Join(inputPath, base);
    JoinAppend(inputPath, base, outExt);
    JoinAppend(inputPath, base, inExt);
    ReplaceFirstInSuffix(prefix, outExt, outExt, inExt);
    ReplaceWhole(outExt, inExt);
    var i := if outExt == ".webp" then 0 else if outExt == ".avif" then 1 else if outExt == ".jpg" then 3 else 4;
    assert OutputExtensions[i] == outExt;
    assert CounterpartFor(inputs, Join(inputPath, base + outExt), OutputExtensions[i]);
  }

  /** The pruner's state across the recursive calls: what has been removed so far. */
  class ImagePruner {
    const inputs: set<string>
    var removed: seq<Removal>

    constructor(inputs: set<string>)
      ensures this.inputs == inputs && removed == []
    {
      this.inputs := inputs;
      this.removed := [];
    }

    /** `deleteRemovedImages(inputPath, outputPath)` */
    method DeleteRemovedImages(inputPath: string, outputPath: string, entries: seq<Entry>)
      modifies this
      ensures removed == PruneWalk(inputs, old(removed), inputPath, outputPath, entries)
      decreases entries
    {
      var i := 0;
      while i < |entries|
        invariant 0 <= i <= |entries|
        invariant PruneWalk(inputs, old(removed), inputPath, outputPath, entries) ==
          PruneWalk(inputs, removed, inputPath, outputPath, entries[i..])
      {
        assert entries[i..][0] == entries[i] && entries[i..][1..] == entries[i + 1..];
        ghost var done := removed;
        assert PruneWalk(inputs, done, inputPath, outputPath, entries[i..]) ==
          PruneWalk(inputs, PruneStep(inputs, done, inputPath, outputPath, entries[i]), inputPath, outputPath, entries[i + 1..]);
        match entries[i] {
          case Dangling(_) =>
          case Dir(name, kids) =>
            var inputFilePath := Join(inputPath, name);
            var outputFilePath := Join(outputPath, name);
            if inputFilePath in inputs {
              DeleteRemovedImages(inputFilePath, outputFilePath, kids);
            } else {
              removed := removed + [RemovedDirectory(inputFilePath, outputFilePath)];
            }
          case File(name) =>
            var inputFilePath := Join(inputPath, name);
            if !HasInputCounterpart(inputs, inputFilePath) {
              removed := removed + [DeletedFile(inputFilePath, Join(outputPath, name))];
            }
        }
        assert removed == PruneStep(inputs, done, inputPath, outputPath, entries[i]);
        i := i + 1;
      }
    }
  }
}
