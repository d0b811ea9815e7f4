/**
 * The asset tree the animation engine reads, as a value. Every `fs::read_dir`,
 * `is_dir` and extension check of the program becomes a walk over one `Dir`
 * whose path is the empty path; paths are component sequences relative to it.
 * This module holds the directory readers of src/animation/assets/mod.rs that
 * only look at the tree: `collect_png_files`, `collect_dir_paths`,
 * `collect_png_files_recursive_filtered` and `collect_png_variant_dirs_recursive`.
 */
module FileTree {
  import opened Common

  /**
   * A directory: its own name, the names of the `.png` files directly inside
   * it (in sorted order), and its sub-directories in listing order.
   */
  datatype Dir = Dir(name: Name, pngs: seq<Name>, subdirs: seq<Dir>)

  datatype FsError = NotADirectory(path: Path)

  /** Names in one directory listing are unique, at every level of the tree. */
  predicate UniqueNames(ds: seq<Dir>)
  {
    forall i, j :: 0 <= i < j < |ds| ==> ds[i].name != ds[j].name
  }

  predicate WellFormed(d: Dir)
    decreases d
  {
    UniqueNames(d.subdirs) && forall i :: 0 <= i < |d.subdirs| ==> WellFormed(d.subdirs[i])
  }

  /** The first sub-directory called `n`, if any. */
  function ChildNamed(ds: seq<Dir>, n: Name): (r: Option<Dir>)
    ensures r.None? <==> forall i :: 0 <= i < |ds| ==> ds[i].name != n
    ensures r.Some? ==> exists i :: 0 <= i < |ds| && ds[i] == r.value && ds[i].name == n
                                    && forall j :: 0 <= j < i ==> ds[j].name != n
  {
    if ds == [] then None
    else if ds[0].name == n then Some(ds[0])
    else
      var r := ChildNamed(ds[1..], n);
      if r.Some? then
        var i :| 0 <= i < |ds[1..]| && ds[1..][i] == r.value && ds[1..][i].name == n
                 && forall j :: 0 <= j < i ==> ds[1..][j].name != n;
        assert ds[i + 1] == r.value;
        r
      else r
  }

  /** The directory at `rel` below `d`, walking one name at a time. */
  function Lookup(d: Dir, rel: Path): Option<Dir>
    decreases |rel|
  {
    if rel == [] then Some(d)
    else match ChildNamed(d.subdirs, rel[0])
      case None => None
      case Some(c) => Lookup(c, rel[1..])
  }

  /** `Path::is_dir` */
  predicate IsDir(fs: Dir, p: Path)
  {
    Lookup(fs, p).Some?
  }

  /** The paths of the files `names` inside directory `dir`. */
  function FramesIn(dir: Path, names: seq<Name>): seq<Path>
  {
    seq(|names|, i requires 0 <= i < |names| => dir + [names[i]])
  }

  /** `collect_png_files`: the sorted `.png` paths directly inside `dir`. */
  function CollectPngFiles(fs: Dir, dir: Path): (r: Result<seq<Path>, FsError>)
    ensures r.Ok? <==> IsDir(fs, dir)
    ensures r.Err? ==> r.error == NotADirectory(dir)
    ensures r.Ok? ==> forall f :: f in r.value <==>
      (|f| == |dir| + 1 && f[..|dir|] == dir && f[|dir|] in Lookup(fs, dir).value.pngs)
  {
    match Lookup(fs, dir)
    case None => Err(NotADirectory(dir))
    case Some(d) =>
      var r := FramesIn(dir, d.pngs);
      assert forall f :: f in r ==> f[..|dir|] == dir;
      forall f | |f| == |dir| + 1 && f[..|dir|] == dir && f[|dir|] in d.pngs
        ensures f in r
      {
        var i :| 0 <= i < |d.pngs| && d.pngs[i] == f[|dir|];
        assert f == dir + [d.pngs[i]] == r[i];
      }
      Ok(r)
  }

  /** `collect_dir_paths`: the sub-directories of `root` in listing order; nothing if it is not a directory. */
  function CollectDirPaths(fs: Dir, root: Path): seq<Path>
  {
    match Lookup(fs, root)
    case None => []
    case Some(d) => seq(|d.subdirs|, i requires 0 <= i < |d.subdirs| => root + [d.subdirs[i].name])
  }

  /** `path.file_name()` */
  function FileName(p: Path): Option<Name>
  {
    if p == [] then None else Some(p[|p| - 1])
  }

  // ---------------------------------------------------------------------
  // collect_png_variant_dirs_recursive
  // ---------------------------------------------------------------------

  /** The directories at or below `d` (whose path is `p`) that directly hold a png, in pre-order. */
  function VariantDirs(d: Dir, p: Path): seq<Path>
    decreases d
  {
    (if d.pngs != [] then [p] else []) + VariantDirsIn(d.subdirs, p)
  }

  function VariantDirsIn(ds: seq<Dir>, p: Path): seq<Path>
    decreases ds
  {
    if ds == [] then [] else VariantDirs(ds[0], p + [ds[0].name]) + VariantDirsIn(ds[1..], p)
  }

  /** Result of `collect_png_variant_dirs_recursive(root)`. */
  function PngVariantDirs(fs: Dir, root: Path): seq<Path>
  {
    match Lookup(fs, root)
    case None => []
    case Some(d) => VariantDirs(d, root)
  }

  /** The inner `visit`: appends `current` if it holds a png, then visits each child. */
  method Visit(current: Dir, path: Path, output: seq<Path>) returns (out: seq<Path>)
    ensures out == output + VariantDirs(current, path)
    decreases current
  {
    out := output;
    if current.pngs != [] {
      out := out + [path];
    }
    var children := current.subdirs;
    assert children[0..] == children;
    var i := 0;
    while i < |children|
      invariant 0 <= i <= |children|
      invariant out + VariantDirsIn(children[i..], path) == output + VariantDirs(current, path)
    {
      var child := children[i];
      assert children[i..][1..] == children[i + 1..];
      out := Visit(child, path + [child.name], out);
      i := i + 1;
    }
  }

  /** `collect_png_variant_dirs_recursive` */
  method CollectPngVariantDirsRecursive(fs: Dir, root: Path) returns (output: seq<Path>)
    ensures output == PngVariantDirs(fs, root)
  {
    output := [];
    var d := Lookup(fs, root);
    if d.Some? {
      output := Visit(d.value, root, output);
    }
  }

  /** `rel` leads from `d` to a directory that directly holds a png. */
  predicate HasPngDirAt(d: Dir, rel: Path)
    decreases |rel|
  {
    if rel == [] then d.pngs != []
    else exists i :: 0 <= i < |d.subdirs| && d.subdirs[i].name == rel[0] && HasPngDirAt(d.subdirs[i], rel[1..])
  }

  lemma {:induction false} VariantDirsPrefix(d: Dir, p: Path, q: Path)
    requires q in VariantDirs(d, p)
    ensures |p| <= |q| && q[..|p|] == p
    decreases d
  {
    if q !in (if d.pngs != [] then [p] else []) {
      VariantDirsInElem(d.subdirs, p, q);
    }
  }

  lemma {:induction false} VariantDirsInElem(ds: seq<Dir>, p: Path, q: Path)
    requires q in VariantDirsIn(ds, p)
    ensures |p| < |q| && q[..|p|] == p
    ensures exists m :: 0 <= m < |ds| && q[|p|] == ds[m].name && q in VariantDirs(ds[m], p + [ds[m].name])
    decreases ds
  {
    var p0 := p + [ds[0].name];
    if q in VariantDirs(ds[0], p0) {
      VariantDirsPrefix(ds[0], p0, q);
      assert q[..|p0|][..|p|] == q[..|p|];
      assert q[|p|] == q[..|p0|][|p|];
      assert 0 <= 0 < |ds| && q[|p|] == ds[0].name && q in VariantDirs(ds[0], p + [ds[0].name]);
    } else {
      VariantDirsInElem(ds[1..], p, q);
      var m :| 0 <= m < |ds[1..]| && q[|p|] == ds[1..][m].name && q in VariantDirs(ds[1..][m], p + [ds[1..][m].name]);
      assert ds[1..][m] == ds[m + 1];
    }
  }

  lemma {:induction false} VariantDirsInContains(ds: seq<Dir>, p: Path, m: int, q: Path)
    requires 0 <= m < |ds| && q in VariantDirs(ds[m], p + [ds[m].name])
    ensures q in VariantDirsIn(ds, p)
    decreases ds
  {
    if m > 0 {
      assert ds[1..][m - 1] == ds[m];
      VariantDirsInContains(ds[1..], p, m - 1, q);
    }
  }

  /** A path below `p` is listed iff the directory it names directly holds a png. */
  lemma {:induction false} VariantDirsMembership(d: Dir, p: Path, rel: Path)
    ensures p + rel in VariantDirs(d, p) <==> HasPngDirAt(d, rel)
    decreases d
  {
    var q := p + rel;
    var own := if d.pngs != [] then [p] else [];
    if HasPngDirAt(d, rel) {
      if rel == [] {
        assert q == p;
      } else {
        var i :| 0 <= i < |d.subdirs| && d.subdirs[i].name == rel[0] && HasPngDirAt(d.subdirs[i], rel[1..]);
        VariantDirsMembership(d.subdirs[i], p + [rel[0]], rel[1..]);
        assert p + [rel[0]] + rel[1..] == q;
        VariantDirsInContains(d.subdirs, p, i, q);
      }
    }
    if q in VariantDirs(d, p) {
      if q in own {
        assert |rel| == 0;
      } else {
        VariantDirsInElem(d.subdirs, p, q);
        var m :| 0 <= m < |d.subdirs| && q[|p|] == d.subdirs[m].name
                 && q in VariantDirs(d.subdirs[m], p + [d.subdirs[m].name]);
        assert rel != [] && rel[0] == q[|p|];
        var c := d.subdirs[m];
        assert p + [c.name] + rel[1..] == q;
        VariantDirsMembership(c, p + [c.name], rel[1..]);
      }
    }
  }

  /** `collect_png_variant_dirs_recursive(root)` lists exactly the png-holding directories at or below `root`. */
  lemma PngVariantDirsMembership(fs: Dir, root: Path, q: Path)
    ensures q in PngVariantDirs(fs, root) <==>
      IsDir(fs, root) && |root| <= |q| && q[..|root|] == root && HasPngDirAt(Lookup(fs, root).value, q[|root|..])
  {
    if IsDir(fs, root) {
      var d := Lookup(fs, root).value;
      if q in PngVariantDirs(fs, root) {
        VariantDirsPrefix(d, root, q);
      }
      if |root| <= |q| && q[..|root|] == root {
        assert root + q[|root|..] == q;
        VariantDirsMembership(d, root, q[|root|..]);
      }
    }
  }

  /** In a well-formed tree, `HasPngDirAt` is "the directory found at `rel` holds a png". */
  lemma {:induction false} HasPngDirAtLookup(d: Dir, rel: Path)
    requires WellFormed(d)
    ensures HasPngDirAt(d, rel) <==> Lookup(d, rel).Some? && Lookup(d, rel).value.pngs != []
    decreases |rel|
  {
    if rel != [] {
      var c := ChildNamed(d.subdirs, rel[0]);
      if c.Some? {
        var k :| 0 <= k < |d.subdirs| && d.subdirs[k] == c.value && d.subdirs[k].name == rel[0]
                 && forall j :: 0 <= j < k ==> d.subdirs[j].name != rel[0];
        HasPngDirAtLookup(c.value, rel[1..]);
        if HasPngDirAt(d, rel) {
          var i :| 0 <= i < |d.subdirs| && d.subdirs[i].name == rel[0] && HasPngDirAt(d.subdirs[i], rel[1..]);
          assert i == k;
        }
      }
    }
  }

  /** Pre-order: whenever a listed directory's ancestor below `p` is listed too, the ancestor comes first. */
  lemma {:induction false} ParentListedFirst(d: Dir, p: Path, j: int, k: int)
    requires WellFormed(d)
    requires 0 <= j < |VariantDirs(d, p)|
    requires |p| <= k < |VariantDirs(d, p)[j]|
    requires VariantDirs(d, p)[j][..k] in VariantDirs(d, p)
    ensures exists i :: 0 <= i < j && VariantDirs(d, p)[i] == VariantDirs(d, p)[j][..k]
    decreases d
  {
    var r := VariantDirs(d, p);
    var own := if d.pngs != [] then [p] else [];
    var rest := VariantDirsIn(d.subdirs, p);
    assert r == own + rest;
    var q := r[j];
    if j < |own| {
      assert false;
    } else {
      var jj := j - |own|;
      assert q == rest[jj];
      VariantDirsInElem(d.subdirs, p, q);
      if k == |p| {
        assert q[..k] == p;
        if p in rest {
          VariantDirsInElem(d.subdirs, p, p);
        }
        assert own == [p];
        assert r[0] == q[..k];
      } else {
        assert q[..k] !in own;
        assert q[..k] in rest;
        AllParentListedFirst(d.subdirs, p, jj, k);
        var i' :| 0 <= i' < jj && rest[i'] == rest[jj][..k];
        assert r[|own| + i'] == rest[i'];
      }
    }
  }

  lemma {:induction false} AllParentListedFirst(ds: seq<Dir>, p: Path, j: int, k: int)
    requires UniqueNames(ds) && forall m :: 0 <= m < |ds| ==> WellFormed(ds[m])
    requires 0 <= j < |VariantDirsIn(ds, p)|
    requires |p| < k < |VariantDirsIn(ds, p)[j]|
    requires VariantDirsIn(ds, p)[j][..k] in VariantDirsIn(ds, p)
    ensures exists i :: 0 <= i < j && VariantDirsIn(ds, p)[i] == VariantDirsIn(ds, p)[j][..k]
    decreases ds
  {
    var all := VariantDirsIn(ds, p);
    var p0 := p + [ds[0].name];
    var first := VariantDirs(ds[0], p0);
    var rest := VariantDirsIn(ds[1..], p);
    assert all == first + rest;
    var q := all[j];
    var parent := q[..k];
    assert parent[|p|] == q[|p|];
    if j < |first| {
      assert q == first[j];
      VariantDirsPrefix(ds[0], p0, q);
      assert q[|p|] == q[..|p0|][|p|] == ds[0].name;
      if parent in rest {
        VariantDirsInElem(ds[1..], p, parent);
        assert false;
      }
      assert parent in first;
      ParentListedFirst(ds[0], p0, j, k);
      var i :| 0 <= i < j && first[i] == first[j][..k];
      assert all[i] == first[i];
    } else {
      var jj := j - |first|;
      assert q == rest[jj];
      VariantDirsInElem(ds[1..], p, q);
      var m :| 0 <= m < |ds[1..]| && q[|p|] == ds[1..][m].name
               && q in VariantDirs(ds[1..][m], p + [ds[1..][m].name]);
      assert ds[1..][m] == ds[m + 1];
      if parent in first {
        VariantDirsPrefix(ds[0], p0, parent);
        assert false;
      }
      assert parent in rest;
      forall m' | 0 <= m' < |ds[1..]|
        ensures WellFormed(ds[1..][m'])
      {
        assert ds[1..][m'] == ds[m' + 1];
      }
      AllParentListedFirst(ds[1..], p, jj, k);
      var i' :| 0 <= i' < jj && rest[i'] == rest[jj][..k];
      assert all[|first| + i'] == rest[i'];
    }
  }

  // ---------------------------------------------------------------------
  // collect_png_files_recursive_filtered
  // ---------------------------------------------------------------------

  /** The listing skips a sub-directory whose name equals an excluded name, ignoring ASCII case. */
  predicate IsExcluded(n: Name, excluded: seq<Name>)
  {
    exists e :: e in excluded && EqIgnoreAsciiCase(n, e)
  }

  /** All png paths at or below `d` (path `p`), skipping excluded sub-directories, in visiting order. */
  function AllFrames(d: Dir, p: Path, excluded: seq<Name>): seq<Path>
    decreases d
  {
    FramesIn(p, d.pngs) + AllFramesIn(d.subdirs, p, excluded)
  }

  function AllFramesIn(ds: seq<Dir>, p: Path, excluded: seq<Name>): seq<Path>
    decreases ds
  {
    if ds == [] then []
    else
      (if IsExcluded(ds[0].name, excluded) then [] else AllFrames(ds[0], p + [ds[0].name], excluded))
      + AllFramesIn(ds[1..], p, excluded)
  }

  /**
   * The inner `visit_dir`: appends the png paths of `current` and recurses into
   * every sub-directory that is not excluded. The model lists the png files of
   * a directory before its sub-directories; the caller sorts the result.
   */
  method VisitDir(current: Dir, path: Path, excluded: seq<Name>, output: seq<Path>) returns (out: seq<Path>)
    ensures out == output + AllFrames(current, path, excluded)
    decreases current
  {
    out := output + FramesIn(path, current.pngs);
    var children := current.subdirs;
    assert children[0..] == children;
    var i := 0;
    while i < |children|
      invariant 0 <= i <= |children|
      invariant out + AllFramesIn(children[i..], path, excluded) == output + AllFrames(current, path, excluded)
    {
      var child := children[i];
      assert children[i..][1..] == children[i + 1..];
      if !IsExcluded(child.name, excluded) {
        out := VisitDir(child, path + [child.name], excluded, out);
      }
      i := i + 1;
    }
  }

  /** `rel` names a png reachable from `d` without entering an excluded directory. */
  predicate PngReachable(d: Dir, rel: Path, excluded: seq<Name>)
    decreases |rel|
  {
    if |rel| == 0 then false
    else if |rel| == 1 then rel[0] in d.pngs
    else exists i :: 0 <= i < |d.subdirs| && d.subdirs[i].name == rel[0]
                     && !IsExcluded(rel[0], excluded) && PngReachable(d.subdirs[i], rel[1..], excluded)
  }

  lemma {:induction false} AllFramesPrefix(d: Dir, p: Path, excluded: seq<Name>, f: Path)
    requires f in AllFrames(d, p, excluded)
    ensures |p| < |f| && f[..|p|] == p
    decreases d
  {
    if f !in FramesIn(p, d.pngs) {
      AllFramesInElem(d.subdirs, p, excluded, f);
    }
  }

  lemma {:induction false} AllFramesInElem(ds: seq<Dir>, p: Path, excluded: seq<Name>, f: Path)
    requires f in AllFramesIn(ds, p, excluded)
    ensures |p| + 1 < |f| && f[..|p|] == p
    ensures exists m :: 0 <= m < |ds| && f[|p|] == ds[m].name && !IsExcluded(ds[m].name, excluded)
                        && f in AllFrames(ds[m], p + [ds[m].name], excluded)
    decreases ds
  {
    var p0 := p + [ds[0].name];
    if !IsExcluded(ds[0].name, excluded) && f in AllFrames(ds[0], p0, excluded) {
      AllFramesPrefix(ds[0], p0, excluded, f);
      assert f[..|p0|][..|p|] == f[..|p|];
      assert f[|p|] == f[..|p0|][|p|];
    } else {
      AllFramesInElem(ds[1..], p, excluded, f);
      var m :| 0 <= m < |ds[1..]| && f[|p|] == ds[1..][m].name && !IsExcluded(ds[1..][m].name, excluded)
               && f in AllFrames(ds[1..][m], p + [ds[1..][m].name], excluded);
      assert ds[1..][m] == ds[m + 1];
    }
  }

  lemma {:induction false} AllFramesInContains(ds: seq<Dir>, p: Path, excluded: seq<Name>, m: int, f: Path)
    requires 0 <= m < |ds| && !IsExcluded(ds[m].name, excluded)
    requires f in AllFrames(ds[m], p + [ds[m].name], excluded)
    ensures f in AllFramesIn(ds, p, excluded)
    decreases ds
  {
    if m > 0 {
      assert ds[1..][m - 1] == ds[m];
      AllFramesInContains(ds[1..], p, excluded, m - 1, f);
    }
  }

  /** A path below `p` is visited iff it names a png reachable through non-excluded directories. */
  lemma {:induction false} AllFramesMembership(d: Dir, p: Path, excluded: seq<Name>, rel: Path)
    ensures p + rel in AllFrames(d, p, excluded) <==> PngReachable(d, rel, excluded)
    decreases d
  {
    var f := p + rel;
    var own := FramesIn(p, d.pngs);
    if PngReachable(d, rel, excluded) {
      if |rel| == 1 {
        var i :| 0 <= i < |d.pngs| && d.pngs[i] == rel[0];
        assert own[i] == f;
      } else {
        var i :| 0 <= i < |d.subdirs| && d.subdirs[i].name == rel[0]
                 && !IsExcluded(rel[0], excluded) && PngReachable(d.subdirs[i], rel[1..], excluded);
        AllFramesMembership(d.subdirs[i], p + [rel[0]], excluded, rel[1..]);
        assert p + [rel[0]] + rel[1..] == f;
        AllFramesInContains(d.subdirs, p, excluded, i, f);
      }
    }
    if f in AllFrames(d, p, excluded) {
      if f in own {
        var i :| 0 <= i < |own| && own[i] == f;
        assert f == p + [d.pngs[i]];
        assert rel == f[|p|..] == [d.pngs[i]];
      } else {
        AllFramesInElem(d.subdirs, p, excluded, f);
        var m :| 0 <= m < |d.subdirs| && f[|p|] == d.subdirs[m].name && !IsExcluded(d.subdirs[m].name, excluded)
                 && f in AllFrames(d.subdirs[m], p + [d.subdirs[m].name], excluded);
        var c := d.subdirs[m];
        assert |rel| > 1 && rel[0] == c.name;
        assert p + [c.name] + rel[1..] == f;
        AllFramesMembership(c, p + [c.name], excluded, rel[1..]);
      }
    }
  }

  /** `collect_png_files_recursive_filtered` */
  method CollectPngFilesRecursiveFiltered(fs: Dir, dir: Path, excluded: seq<Name>)
    returns (r: Result<seq<Path>, FsError>)
    ensures r == RecursivePngFiles(fs, dir, excluded)
  {
    var d := Lookup(fs, dir);
    if d.None? {
      return Err(NotADirectory(dir));
    }
    var imageFiles := VisitDir(d.value, dir, excluded, []);
    assert imageFiles == AllFrames(d.value, dir, excluded);
    r := Ok(SortPaths(imageFiles));
  }

  /** Result of `collect_png_files_recursive_filtered`. */
  function RecursivePngFiles(fs: Dir, dir: Path, excluded: seq<Name>): Result<seq<Path>, FsError>
  {
    match Lookup(fs, dir)
    case None => Err(NotADirectory(dir))
    case Some(d) => Ok(SortPaths(AllFrames(d, dir, excluded)))
  }

  /** The recursive listing fails only on a non-directory; it is sorted and holds exactly the reachable pngs. */
  lemma {:induction false} RecursivePngFilesSpec(fs: Dir, dir: Path, excluded: seq<Name>, f: Path)
    ensures RecursivePngFiles(fs, dir, excluded).Ok? <==> IsDir(fs, dir)
    ensures RecursivePngFiles(fs, dir, excluded).Ok? ==>
      SortedPaths(RecursivePngFiles(fs, dir, excluded).value)
      && (f in RecursivePngFiles(fs, dir, excluded).value <==>
          |dir| <= |f| && f[..|dir|] == dir && PngReachable(Lookup(fs, dir).value, f[|dir|..], excluded))
  {
    if IsDir(fs, dir) {
      var d := Lookup(fs, dir).value;
      var all := AllFrames(d, dir, excluded);
      var sorted := SortPaths(all);
      assert RecursivePngFiles(fs, dir, excluded) == Ok(sorted);
      assert f in sorted <==> f in all by {
        assert f in multiset(sorted) <==> f in multiset(all);
      }
      if f in all {
        AllFramesPrefix(d, dir, excluded, f);
      }
      if |dir| <= |f| && f[..|dir|] == dir {
        assert dir + f[|dir|..] == f;
        AllFramesMembership(d, dir, excluded, f[|dir|..]);
      }
    }
  }
}
