/**
 * The file system as the extraction code sees it: a map from cleaned locations to nodes,
 * with the few os calls the core makes (MkdirAll, OpenFile with O_CREATE|O_TRUNC, Chmod and
 * writing a file's bytes). The root "/" and the working directory "." always exist and are
 * not keys of the map. Ownership, umask and every permission check are not modelled.
 */
module FileSystem {
  import opened Wrappers
  import opened Errors
  import opened Paths

  type Byte = b: int | 0 <= b < 256

  /** A directory with its permission bits, or a regular file with its mode and bytes. */
  datatype Node = Dir(perm: int) | File(mode: int, data: seq<Byte>)

  type FS = map<Path, Node>

  /** os.ModePerm, 0o777 */
  const ModePerm: int := 511
  /** 0o755 */
  const Mode0755: int := 493
  /** 0o666, the mode os.Create asks for */
  const Mode0666: int := 438

  /** The first `k` elements of `p`. */
  function Prefix(p: Path, k: nat): Path
    requires k <= |p.elems|
  {
    Path(p.rooted, p.elems[..k])
  }

  /** `q` is a directory: the root, the working directory, or a Dir node. */
  predicate IsDirAt(fs: FS, q: Path) {
    q.elems == [] || (q in fs && fs[q].Dir?)
  }

  predicate IsFileAt(fs: FS, q: Path) {
    q in fs && fs[q].File?
  }

  predicate AncestorsAreDirs(fs: FS, q: Path) {
    forall k :: 0 <= k < |q.elems| ==> IsDirAt(fs, Prefix(q, k))
  }

  /** Every node hangs below directories, as in a real tree. */
  predicate WellFormed(fs: FS) {
    forall q :: q in fs ==> AncestorsAreDirs(fs, q)
  }

  /** fs' is fs with, at most, new directories added on the way to `p`. */
  predicate Grows(fs: FS, fs': FS, p: Path) {
    && fs.Keys <= fs'.Keys
    && (forall q :: q in fs ==> fs'[q] == fs[q])
    && (forall q :: q in fs' && q !in fs ==> AncestorOrSelf(q, p) && |q.elems| > 0 && fs'[q].Dir?)
  }

  /** fs' differs from fs at location `t` only. */
  predicate ChangesOnly(fs: FS, fs': FS, t: Path) {
    && fs'.Keys == fs.Keys + {t}
    && (forall q :: q in fs && q != t ==> fs'[q] == fs[q])
  }

  /** os.MkdirAll on a location: the parent chain first, then the directory itself. */
  function MkdirAllAt(fs: FS, p: Path, perm: int): (r: Result<FS>)
    ensures r.Ok? ==> Grows(fs, r.value, p) && IsDirAt(r.value, p)
    ensures r.Err? ==> r.error.PathError?
    ensures r.Err? ==> exists k :: 0 < k <= |p.elems| && IsFileAt(fs, Prefix(p, k))
    decreases |p.elems|
  {
    if p.elems == [] then Ok(fs)
    else if p in fs then
      if fs[p].Dir? then Ok(fs)
      else
        assert Prefix(p, |p.elems|) == p;
        Err(PathError("mkdir", Render(p), NotDir))
    else
      match MkdirAllAt(fs, Parent(p), perm)
      case Err(e) =>
        PrefixOfParent(p);
        Err(e)
      case Ok(fs1) => Ok(fs1[p := Dir(perm)])
  }

  /** os.MkdirAll(path, perm); the empty path names nothing. */
  function MkdirAll(fs: FS, path: string, perm: int): (r: Result<FS>)
    ensures r.Err? ==> r.error.PathError?
  {
    match Resolve(path)
    case None => Err(PathError("mkdir", path, NotExist))
    case Some(p) => MkdirAllAt(fs, p, perm)
  }

  /**
   * os.OpenFile(path, O_WRONLY|O_CREATE|O_TRUNC, perm): an existing file is emptied and keeps
   * its mode; a new one needs an existing parent directory and gets `perm`.
   */
  function OpenTruncate(fs: FS, path: string, perm: int): (r: Result<FS>)
    ensures r.Ok? ==> Resolve(path).Some? && ChangesOnly(fs, r.value, Resolve(path).value)
    ensures r.Err? ==> r.error.PathError?
    ensures r.Ok? ==> var t := Resolve(path).value;
                      r.value[t] == File(if IsFileAt(fs, t) then fs[t].mode else perm, [])
  {
    match Resolve(path)
    case None => Err(PathError("open", path, NotExist))
    case Some(p) =>
      if p.elems == [] then Err(PathError("open", path, IsDir))
      else if p in fs then
        if fs[p].Dir? then Err(PathError("open", path, IsDir))
        else Ok(fs[p := File(fs[p].mode, [])])
      else if IsDirAt(fs, Parent(p)) then Ok(fs[p := File(perm, [])])
      else if Parent(p) in fs then Err(PathError("open", path, NotDir))
      else Err(PathError("open", path, NotExist))
  }

  /** os.Create(path): OpenFile with O_RDWR|O_CREATE|O_TRUNC and mode 0666. */
  function Create(fs: FS, path: string): Result<FS> {
    OpenTruncate(fs, path, Mode0666)
  }

  /** (*File).Chmod on the file just opened at `path`. */
  function Chmod(fs: FS, path: string, mode: int): (r: FS)
    ensures r.Keys == fs.Keys
    ensures forall q :: q in fs && Some(q) != Resolve(path) ==> r[q] == fs[q]
    ensures forall q :: q in fs && Some(q) == Resolve(path) && fs[q].File? ==> r[q] == File(mode, fs[q].data)
  {
    match Resolve(path)
    case Some(p) => if IsFileAt(fs, p) then fs[p := File(mode, fs[p].data)] else fs
    case None => fs
  }

  /** Writing `data` into the file just opened at `path`. */
  function WriteData(fs: FS, path: string, data: seq<Byte>): (r: FS)
    ensures r.Keys == fs.Keys
    ensures forall q :: q in fs && Some(q) != Resolve(path) ==> r[q] == fs[q]
    ensures forall q :: q in fs && Some(q) == Resolve(path) && fs[q].File? ==> r[q] == File(fs[q].mode, data)
  {
    match Resolve(path)
    case Some(p) => if IsFileAt(fs, p) then fs[p := File(fs[p].mode, data)] else fs
    case None => fs
  }

  // ---------------------------------------------------------------------------------------

  /** The prefixes of a location's parent are its own shorter prefixes. */
  lemma PrefixOfParent(p: Path)
    requires p.elems != []
    ensures |Parent(p).elems| == |p.elems| - 1
    ensures forall k :: 0 <= k <= |Parent(p).elems| ==> Prefix(Parent(p), k) == Prefix(p, k)
  {
  }

  /** MkdirAll succeeds exactly when no location on the way to `p` holds a file. */
  lemma {:induction false} MkdirAllAtSucceeds(fs: FS, p: Path, perm: int)
    requires WellFormed(fs)
    ensures MkdirAllAt(fs, p, perm).Ok? <==> forall k :: 0 < k <= |p.elems| ==> !IsFileAt(fs, Prefix(p, k))
    decreases |p.elems|
  {
    if p.elems != [] {
      assert Prefix(p, |p.elems|) == p;
      if p in fs {
        if fs[p].Dir? {
          assert AncestorsAreDirs(fs, p);
          forall k | 0 < k <= |p.elems| ensures !IsFileAt(fs, Prefix(p, k)) {
            if k < |p.elems| {
              assert IsDirAt(fs, Prefix(p, k));
            }
          }
        }
      } else {
        MkdirAllAtSucceeds(fs, Parent(p), perm);
        PrefixOfParent(p);
      }
    }
  }

  /** A second MkdirAll of the same location changes nothing and succeeds. */
  lemma MkdirAllAtIdempotent(fs: FS, p: Path, perm: int, perm2: int)
    requires MkdirAllAt(fs, p, perm).Ok?
    ensures MkdirAllAt(MkdirAllAt(fs, p, perm).value, p, perm2) == MkdirAllAt(fs, p, perm)
  {
  }

  /** On a well-formed tree, MkdirAll leaves a well-formed tree with every ancestor a directory. */
  lemma {:induction false} MkdirAllAtWellFormed(fs: FS, p: Path, perm: int)
    requires WellFormed(fs)
    requires MkdirAllAt(fs, p, perm).Ok?
    ensures WellFormed(MkdirAllAt(fs, p, perm).value)
    ensures forall k :: 0 <= k <= |p.elems| ==> IsDirAt(MkdirAllAt(fs, p, perm).value, Prefix(p, k))
    decreases |p.elems|
  {
    var fs' := MkdirAllAt(fs, p, perm).value;
    if p.elems == [] {
    } else if p in fs {
      assert AncestorsAreDirs(fs, p);
      assert Prefix(p, |p.elems|) == p;
    } else {
      var pp := Parent(p);
      MkdirAllAtWellFormed(fs, pp, perm);
      var fs1 := MkdirAllAt(fs, pp, perm).value;
      PrefixOfParent(p);
      assert Prefix(p, |p.elems|) == p;
      assert fs' == fs1[p := Dir(perm)];
      AddDirWellFormed(fs1, p, perm);
    }
  }

  /** Adding a directory below directories keeps the tree well formed. */
  lemma AddDirWellFormed(fs: FS, p: Path, perm: int)
    requires WellFormed(fs) && p.elems != []
    requires forall k :: 0 <= k < |p.elems| ==> IsDirAt(fs, Prefix(p, k))
    requires p !in fs
    ensures WellFormed(fs[p := Dir(perm)])
  {
    var fs' := fs[p := Dir(perm)];
    forall q | q in fs' ensures AncestorsAreDirs(fs', q) {
      if q != p {
        assert AncestorsAreDirs(fs, q);
        forall k | 0 <= k < |q.elems| ensures IsDirAt(fs', Prefix(q, k)) {
          assert IsDirAt(fs, Prefix(q, k));
        }
      }
    }
  }
}
