/** The video tool's orphan pruner: after the encodes, every output file whose name does not
    correspond to a file of the same input directory is deleted. Output directories are always
    descended into and never removed. */
module VideoPrune {
  import opened Wrappers
  import opened JsStrings
  import opened NodePath
  import opened FileTree

  /** `originalFileNameFromOutput`: the output name with its first `-h265` removed. */
  function OriginalFileName(outputFile: string): (r: string)
    ensures !Includes(outputFile, "-h265") ==> r == outputFile
  {
    ReplaceFirst(outputFile, "-h265", "")
  }

  /** The names `readdirSync` lists in the input directory at `relativePath`; `None` when that
      directory does not exist and listing it throws. The input root itself exists, since the
      walk that precedes the pruner has listed it. */
  function InputListing(inputs: map<string, seq<string>>, relativePath: string): (r: Option<seq<string>>)
    ensures relativePath == "" ==> r.Some?
  {
    if relativePath in inputs then Some(inputs[relativePath])
    else if relativePath == "" then Some([])
    else None
  }

  /** Some input name has the base name (without extension) of the output name with its first
      `-h265` removed. */
  predicate HasCounterpart(names: seq<string>, outputFile: string) {
    exists i | 0 <= i < |names| :: Stem(names[i]) == Stem(OriginalFileName(outputFile))
  }

  /** An output file, given by its relative directory and its name, that the pruner deletes: the
      input directory can be listed and holds no counterpart. */
  predicate Orphaned(inputs: map<string, seq<string>>, file: (string, string)) {
    InputListing(inputs, file.0).Some? && !HasCounterpart(InputListing(inputs, file.0).value, file.1)
  }

  /** The files deleted so far, each as its relative directory and name, and whether the walk is
      still running (an exception ends it). */
  datatype PruneState = PruneState(deleted: seq<(string, string)>, running: bool)

  /** `deleteRemovedVideos(inputPath, outputPath, relativePath)` over the entries of the output
      directory at `relativePath`, in listing order. */
  function PruneWalk(inputs: map<string, seq<string>>, st: PruneState, relativePath: string, entries: seq<Entry>): PruneState
    decreases entries, 1
  {
    if entries == [] || !st.running then st
    else PruneWalk(inputs, PruneStep(inputs, st, relativePath, entries[0]), relativePath, entries[1..])
  }

  function PruneStep(inputs: map<string, seq<string>>, st: PruneState, relativePath: string, e: Entry): PruneState
    decreases e, 0
  {
    match e
    case Dir(name, kids) => PruneWalk(inputs, st, Join(relativePath, name), kids)
    case Dangling(_) => PruneState(st.deleted, false)
    case File(name) =>
      match InputListing(inputs, relativePath)
      case None => PruneState(st.deleted, false)
      case Some(names) =>
        if HasCounterpart(names, name) then st else PruneState(st.deleted + [(relativePath, name)], true)
  }

  /** The files of an output tree, each as its relative directory and name. */
  function OutputFiles(relativePath: string, entries: seq<Entry>): set<(string, string)>
    decreases entries
  {
    if entries == [] then {}
    else
      (match entries[0]
       case Dir(name, kids) => OutputFiles(Join(relativePath, name), kids)
       case Dangling(_) => {}
       case File(name) => {(relativePath, name)})
      + OutputFiles(relativePath, entries[1..])
  }

  /** Every entry of the output tree can be described by `statSync`, and every directory that
      holds a file has an input counterpart that can be listed. */
  predicate Readable(inputs: map<string, seq<string>>, relativePath: string, entries: seq<Entry>)
    decreases entries
  {
    forall i | 0 <= i < |entries| ::
      match entries[i]
      case Dir(name, kids) => Readable(inputs, Join(relativePath, name), kids)
      case Dangling(_) => false
      case File(_) => InputListing(inputs, relativePath).Some?
  }

  /** The pruning walk appends to what was deleted before; what it appends are orphaned files
      of the tree; it finishes exactly when the tree is readable, and then it has deleted every
      orphaned file of the tree. */
  lemma {:induction false} PruneWalkSpec(inputs: map<string, seq<string>>, st: PruneState,
                                         relativePath: string, entries: seq<Entry>)
    ensures var r := PruneWalk(inputs, st, relativePath, entries);
      (!st.running ==> r == st) &&
      |st.deleted| <= |r.deleted| && r.deleted[..|st.deleted|] == st.deleted &&
      (forall k :: |st.deleted| <= k < |r.deleted| ==>
         r.deleted[k] in OutputFiles(relativePath, entries) && Orphaned(inputs, r.deleted[k])) &&
      (st.running ==> (r.running <==> Readable(inputs, relativePath, entries))) &&
      (r.running ==> forall f :: f in OutputFiles(relativePath, entries) && Orphaned(inputs, f) ==> f in r.deleted)
    decreases entries, 1
  {
    var r := PruneWalk(inputs, st, relativePath, entries);
    if entries != [] && st.running {
      var e := entries[0];
      var st1 := PruneStep(inputs, st, relativePath, e);
      PruneStepSpec(inputs, st, relativePath, e);
      PruneWalkSpec(inputs, st1, relativePath, entries[1..]);
      assert r == PruneWalk(inputs, st1, relativePath, entries[1..]);
      assert OutputFiles(relativePath, entries) ==
        OutputFiles(relativePath, [e]) + OutputFiles(relativePath, entries[1..]) by {
        assert [e][1..] == [];
      }
      assert r.deleted[..|st1.deleted|] == st1.deleted;
      assert r.deleted[..|st.deleted|] == st.deleted;
      forall k | |st.deleted| <= k < |r.deleted|
        ensures r.deleted[k] in OutputFiles(relativePath, entries) && Orphaned(inputs, r.deleted[k])
      {
        if k < |st1.deleted| {
          assert r.deleted[k] == st1.deleted[k];
        }
      }
      assert Readable(inputs, relativePath, entries) <==>
        Readable(inputs, relativePath, [e]) && Readable(inputs, relativePath, entries[1..]) by {
        assert forall i :: 1 <= i < |entries| ==> entries[1..][i - 1] == entries[i];
      }
      if r.running {
        forall f | f in OutputFiles(relativePath, [e]) && Orphaned(inputs, f) ensures f in r.deleted {
          var k :| 0 <= k < |st1.deleted| && st1.deleted[k] == f;
          assert r.deleted[k] == f;
        }
      }
    }
  }

  lemma {:induction false} PruneStepSpec(inputs: map<string, seq<string>>, st: PruneState,
                                         relativePath: string, e: Entry)
    requires st.running
    ensures var r := PruneStep(inputs, st, relativePath, e);
      |st.deleted| <= |r.deleted| && r.deleted[..|st.deleted|] == st.deleted &&
      (forall k :: |st.deleted| <= k < |r.deleted| ==>
         r.deleted[k] in OutputFiles(relativePath, [e]) && Orphaned(inputs, r.deleted[k])) &&
      (r.running <==> Readable(inputs, relativePath, [e])) &&
      (r.running ==> forall f :: f in OutputFiles(relativePath, [e]) && Orphaned(inputs, f) ==> f in r.deleted)
    decreases e, 0
  {
    assert [e][1..] == [];
    assert [e][0] == e;
    match e
    case Dir(name, kids) =>
      PruneWalkSpec(inputs, st, Join(relativePath, name), kids);
      assert OutputFiles(relativePath, [e]) == OutputFiles(Join(relativePath, name), kids);
      assert Readable(inputs, relativePath, [e]) <==> Readable(inputs, Join(relativePath, name), kids);
    case Dangling(_) =>
      assert !Readable(inputs, relativePath, [e]);
    case File(name) =>
      assert OutputFiles(relativePath, [e]) == {(relativePath, name)};
      assert Readable(inputs, relativePath, [e]) <==> InputListing(inputs, relativePath).Some?;
  }

  /** The whole pruning pass from the output root: it finishes exactly when the output tree is
      readable, deletes only files of that tree, and then deletes a file exactly when it is
      orphaned. */
  lemma DeletesExactlyOrphans(inputs: map<string, seq<string>>, entries: seq<Entry>)
    ensures var r := PruneWalk(inputs, PruneState([], true), "", entries);
      (r.running <==> Readable(inputs, "", entries)) &&
      (forall f :: f in r.deleted ==> f in OutputFiles("", entries) && Orphaned(inputs, f)) &&
      (r.running ==> forall f :: f in OutputFiles("", entries) ==> (f in r.deleted <==> Orphaned(inputs, f)))
  {
    var r := PruneWalk(inputs, PruneState([], true), "", entries);
    PruneWalkSpec(inputs, PruneState([], true), "", entries);
    assert r.deleted[0..] == r.deleted;
  }

  /** An output named by the base name of an input followed by a dot-led extension keeps that
      base name, when it contains no `-h265`. */
  lemma {:induction false} DottedOutputKept(base: string, ext: string)
    requires base != "" && !Includes(base, "-h265")
    requires 2 <= |ext| <= 5 && ext[0] == '.' && '.' !in ext[1..]
    ensures Stem(OriginalFileName(base + ext)) == base
  {
    assert !OccursAt(ext, "-h265", 0);
    ReplaceFirstInSuffix(base, ext, "-h265", "");
    StemOfExtension(base, ext);
  }

  lemma H265SuffixDropped()
    ensures ReplaceFirst("-h265.mp4", "-h265", "") == ".mp4"
  {
    ReplaceFirstAt("-h265.mp4", "-h265", "", 0);
    assert "-h265.mp4"[5..] == ".mp4";
  }

  /** The H.265 output `<base>-h265.mp4` is taken back to `<base>.mp4`. */
  lemma {:induction false} H265OutputKept(base: string)
    requires base != "" && !Includes(base, "-h265")
    ensures Stem(OriginalFileName(base + "-h265.mp4")) == base
  {
    ReplaceFirstInSuffix(base, "-h265.mp4", "-h265", "");
    H265SuffixDropped();
    StemOfExtension(base, ".mp4");
  }

  /** The four outputs of an `.mp4` input (poster, H.264, H.265 and VP9) survive pruning while the
      input is listed, as long as its base name does not itself contain `-h265`. */
  lemma EncodedOutputsKept(names: seq<string>, i: nat, base: string)
    requires i < |names| && names[i] == base + ".mp4"
    requires base != "" && !Includes(base, "-h265")
    ensures HasCounterpart(names, base + ".webp")
    ensures HasCounterpart(names, base + ".mp4")
    ensures HasCounterpart(names, base + "-h265.mp4")
    ensures HasCounterpart(names, base + ".webm")
  {
    StemOfExtension(base, ".mp4");
    assert Stem(names[i]) == base;
    DottedOutputKept(base, ".webp");
    DottedOutputKept(base, ".mp4");
    DottedOutputKept(base, ".webm");
    H265OutputKept(base);
  }

  /** The pruner's effect on the output tree: the files it has deleted. */
  class OutputPruner {
    const inputs: map<string, seq<string>>
    var deleted: seq<(string, string)>

    constructor(inputs: map<string, seq<string>>)
      ensures this.inputs == inputs && deleted == []
    {
      this.inputs := inputs;
      this.deleted := [];
    }

    /** `deleteRemovedVideos(inputPath, outputPath, relativePath)`; `false` when an exception
        ended it. */
    method DeleteRemovedVideos(relativePath: string, entries: seq<Entry>) returns (running: bool)
      modifies this
      ensures PruneState(deleted, running) == PruneWalk(inputs, PruneState(old(deleted), true), relativePath, entries)
      decreases entries
    {
      var i := 0;
      while i < |entries|
        invariant 0 <= i <= |entries|
        invariant PruneWalk(inputs, PruneState(old(deleted), true), relativePath, entries) ==
          PruneWalk(inputs, PruneState(deleted, true), relativePath, entries[i..])
      {
        assert entries[i..][0] == entries[i] && entries[i..][1..] == entries[i + 1..];
        ghost var st := PruneState(deleted, true);
        assert PruneWalk(inputs, st, relativePath, entries[i..]) ==
          PruneWalk(inputs, PruneStep(inputs, st, relativePath, entries[i]), relativePath, entries[i + 1..]);
        match entries[i] {
          case Dir(name, kids) =>
            var ok := DeleteRemovedVideos(Join(relativePath, name), kids);
            assert PruneStep(inputs, st, relativePath, entries[i]) == PruneState(deleted, ok);
            if !ok {
              return false;
            }
          case Dangling(_) =>
            return false;
          case File(name) =>
            var names := InputListing(inputs, relativePath);
            if names.None? {
              return false;
            }
            if !HasCounterpart(names.value, name) {
              deleted := deleted + [(relativePath, name)];
            }
        }
        i := i + 1;
      }
      assert entries[i..] == [];
      return true;
    }
  }
}
