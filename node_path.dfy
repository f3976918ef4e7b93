/** The parts of Node's `path` module (POSIX flavour) that the asset tools use, for paths that
    are already normalised (no `.`/`..` segments, no repeated or trailing `/`). */
module NodePath {
  import opened JsStrings

  /** `path.join(a, b)` */
  function Join(a: string, b: string): (r: string)
    ensures a == "" ==> r == b
    ensures b == "" ==> r == a
  {
    if a == "" then b else if b == "" then a else a + "/" + b
  }

  /** `path.extname(name)` for one path segment: from the last `.` to the end, except that a
      segment whose only `.` is its first character, and the segment `..`, have none. */
  function Extname(name: string): (e: string)
    ensures EndsWith(name, e)
    ensures e != "" ==> e[0] == '.' && e != name
    ensures e != "" ==> '.' !in e[1..]
  {
    var d := LastIndexOf(name, '.');
    if d <= 0 || name == ".." then ""
    else
      assert forall j :: d < j < |name| ==> name[d..][j - d] == name[j];
      name[d..]
  }

  /** `path.basename(name, path.extname(name))`: the segment without its extension. */
  function Stem(name: string): (b: string)
    ensures b + Extname(name) == name
  {
    var e := Extname(name);
    name[..|name| - |e|]
  }

  /** The stem of `base + ext` is `base` when `ext` is a dot followed by dot-free text and
      `base` is not empty (and the whole is not `..`). */
  lemma {:induction false} StemOfExtension(base: string, ext: string)
    requires base != "" && |ext| >= 1 && ext[0] == '.' && '.' !in ext[1..]
    requires base + ext != ".."
    ensures Extname(base + ext) == ext
    ensures Stem(base + ext) == base
  {
    var name := base + ext;
    var d := LastIndexOf(name, '.');
    assert name[|base|] == '.';
    assert d >= |base| > 0;
    assert d == |base|;
    assert name[d..] == ext;
  }
}
