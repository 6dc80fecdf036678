/**
 * Archive extraction (pkg/utils/utils.go): Expand dispatches on the archive's suffix to the
 * zip or the gzip-compressed tar extractor, which write every entry below a destination
 * directory and stop at the first error. An archive is modelled as what its reader yields:
 * the entries in order, each with its name, its kind, its mode and its bytes.
 */
module Archive {
  import opened Wrappers
  import opened Errors
  import opened Paths
  import opened FileSystem
  import Strings

  /** The bytes of one entry as read; a read that breaks off keeps what was read and the error. */
  datatype Body = Intact(data: seq<Byte>) | Broken(data: seq<Byte>, reason: string)

  datatype Entry = Entry(name: string, isDir: bool, mode: int, body: Body)

  /** What the tar reader's Next reports once the entries are exhausted. */
  datatype Tail = Eof | HeaderError(reason: string)

  /**
   * An archive file as its reader sees it: one that cannot be opened (missing, not gzip, no
   * zip directory), or its entries and how the listing ended.
   */
  datatype Container = Unreadable(reason: string) | Entries(entries: seq<Entry>, tail: Tail)

  /**
   * The zip extractor, the tar extractor as written, and the tar extractor with the zip
   * extractor's path guard in front of every entry.
   */
  datatype Format = Zip | TarGz | TarGzGuarded

  /** The file system after extraction and the error returned (None for nil). */
  datatype Extraction = Extraction(fs: FS, err: Option<Error>)

  const UnknownFormat: Error := Failure("Unknown archive format")
  const IllegalSuffix: string := ": Illegal file path"

  /** The errors extraction itself can return. */
  predicate ExtractionError(e: Error) {
    e.PathError? || e.ArchiveError? || (e.Failure? && Strings.HasSuffix(e.text, IllegalSuffix))
  }

  /** The cleaned destination directory. */
  function Base(dest: string): Path {
    Clean(Parse(dest))
  }

  /**
   * The zip extractor's guard: the joined path starts with the cleaned destination and '/', so
   * it is strictly longer than the destination (GuardMeansInside gives the element-wise meaning).
   */
  predicate InsideDest(dest: string, name: string)
    ensures InsideDest(dest, name) ==> |Join([dest, name])| > |CleanString(dest)|
  {
    Strings.HasPrefix(Join([dest, name]), CleanString(dest) + "/")
  }

  function Illegal(dest: string, name: string): (e: Error)
    ensures ExtractionError(e)
  {
    Strings.SuffixOfAppend(Join([dest, name]), IllegalSuffix);
    Failure(Join([dest, name]) + IllegalSuffix)
  }

  /** io.Copy of an entry's bytes into the file just opened at `path`. */
  function Copy(fs: FS, path: string, body: Body): (r: Extraction)
    ensures r.fs.Keys == fs.Keys
    ensures forall q :: q in fs && Some(q) != Resolve(path) ==> r.fs[q] == fs[q]
    ensures r.err.None? <==> body.Intact?
    ensures r.err.Some? ==> ExtractionError(r.err.value)
  {
    match body
    case Intact(d) => Extraction(WriteData(fs, path, d), None)
    case Broken(d, reason) => Extraction(WriteData(fs, path, d), Some(ArchiveError(reason)))
  }

  /**
   * One zip entry: refuse a path outside the destination; create a directory entry and
   * ignore any error doing so; otherwise create the parent chain, open the file with the
   * entry's mode and copy the bytes in.
   */
  function ZipEntry(dest: string, fs: FS, e: Entry): (r: Extraction)
    ensures r.err.Some? ==> ExtractionError(r.err.value)
    ensures !InsideDest(dest, e.name) ==> r == Extraction(fs, Some(Illegal(dest, e.name)))
    ensures e.isDir ==> r.err.None? || !InsideDest(dest, e.name)
    ensures e.isDir && InsideDest(dest, e.name) ==>
              match MkdirAll(fs, Join([dest, e.name]), ModePerm)
              case Ok(fs1) => r.fs == fs1 && Resolve(Join([dest, e.name])).Some?
                              && IsDirAt(r.fs, Resolve(Join([dest, e.name])).value)
              case Err(_) => r.fs == fs
  {
    var filePath := Join([dest, e.name]);
    if !InsideDest(dest, e.name) then Extraction(fs, Some(Illegal(dest, e.name)))
    else if e.isDir then
      match MkdirAll(fs, filePath, ModePerm)
      case Ok(fs1) => Extraction(fs1, None)
      case Err(_) => Extraction(fs, None)
    else
      match MkdirAll(fs, Paths.Dir(filePath), ModePerm)
      case Err(err) => Extraction(fs, Some(err))
      case Ok(fs1) =>
        match OpenTruncate(fs1, filePath, e.mode)
        case Err(err) => Extraction(fs1, Some(err))
        case Ok(fs2) => Copy(fs2, filePath, e.body)
  }

  /** The parent part of a tar entry name: everything before its last '/'. */
  function NameParent(name: string): (r: string)
    requires '/' in name
    ensures Strings.HasPrefix(name, r + "/")
  {
    var idx := Strings.LastIndexOf(name, '/');
    assert name[..idx] + "/" == name[..idx + 1];
    name[..idx]
  }

  /**
   * One tar entry, with no check of where it lands: a directory entry is created with 0755;
   * a file entry gets the parent its name mentions, is created, set to 0755 and filled.
   */
  function TarEntry(dest: string, fs: FS, e: Entry): (r: Extraction)
    ensures r.err.Some? ==> ExtractionError(r.err.value)
  {
    var target := Join([dest, e.name]);
    if e.isDir then
      match MkdirAll(fs, target, Mode0755)
      case Err(err) => Extraction(fs, Some(err))
      case Ok(fs1) => Extraction(fs1, None)
    else
      var made := if '/' in e.name then MkdirAll(fs, Join([dest, NameParent(e.name)]), Mode0755) else Ok(fs);
      match made
      case Err(err) => Extraction(fs, Some(err))
      case Ok(fs1) =>
        match Create(fs1, target)
        case Err(err) => Extraction(fs1, Some(err))
        case Ok(fs2) => Copy(Chmod(fs2, target, Mode0755), target, e.body)
  }

  /** One entry in the given format; the guarded formats refuse, untouched, every entry outside the destination. */
  function Step(f: Format, dest: string, fs: FS, e: Entry): (r: Extraction)
    ensures r.err.Some? ==> ExtractionError(r.err.value)
    ensures Guarded(f) && !InsideDest(dest, e.name) ==> r == Extraction(fs, Some(Illegal(dest, e.name)))
    ensures Guarded(f) && r.err.None? ==> InsideDest(dest, e.name)
  {
    match f
    case Zip => ZipEntry(dest, fs, e)
    case TarGz => TarEntry(dest, fs, e)
    case TarGzGuarded =>
      if InsideDest(dest, e.name) then TarEntry(dest, fs, e)
      else Extraction(fs, Some(Illegal(dest, e.name)))
  }

  /** The entries in order, stopping at the first error. */
  function Process(f: Format, dest: string, es: seq<Entry>, fs: FS): (r: Extraction)
    ensures r.err.Some? ==> ExtractionError(r.err.value)
    ensures es == [] ==> r == Extraction(fs, None)
    decreases |es|
  {
    if es == [] then Extraction(fs, None)
    else
      var r := Step(f, dest, fs, es[0]);
      if r.err.Some? then r else Process(f, dest, es[1..], r.fs)
  }

  /**
   * unzip / untarGz: an unreadable archive is an error and writes nothing; a tar listing that
   * ends in a header error reports it once every entry before it is written.
   */
  function Extract(f: Format, dest: string, c: Container, fs: FS): (r: Extraction)
    ensures r.err.Some? ==> ExtractionError(r.err.value)
    ensures c.Unreadable? ==> r == Extraction(fs, Some(ArchiveError(c.reason)))
    ensures c.Entries? ==> r.fs == Process(f, dest, c.entries, fs).fs
    ensures c.Entries? && (f == Zip || c.tail == Eof || Process(f, dest, c.entries, fs).err.Some?) ==>
              r == Process(f, dest, c.entries, fs)
    ensures c.Entries? && f != Zip && c.tail.HeaderError? && Process(f, dest, c.entries, fs).err.None? ==>
              r.err == Some(ArchiveError(c.tail.reason))
  {
    match c
    case Unreadable(reason) => Extraction(fs, Some(ArchiveError(reason)))
    case Entries(es, tail) =>
      var r := Process(f, dest, es, fs);
      if f != Zip && r.err.None? && tail.HeaderError? then Extraction(r.fs, Some(ArchiveError(tail.reason)))
      else r
  }

  /**
   * utils.Expand as written: ".zip" first, then ".tar.gz" (extracted without any check on
   * where entries land), else "Unknown archive format".
   */
  function ExpandAsWritten(archive: string, dest: string, c: Container, fs: FS): (r: Extraction)
    ensures r.err == Some(UnknownFormat) <==>
              !Strings.HasSuffix(archive, ".zip") && !Strings.HasSuffix(archive, ".tar.gz")
    ensures r.err == Some(UnknownFormat) ==> r.fs == fs
    ensures Strings.HasSuffix(archive, ".zip") ==> r == Extract(Zip, dest, c, fs)
    ensures !Strings.HasSuffix(archive, ".zip") && Strings.HasSuffix(archive, ".tar.gz") ==>
              r == Extract(TarGz, dest, c, fs)
  {
    UnknownFormatIsNotExtractionError();
    if Strings.HasSuffix(archive, ".zip") then Extract(Zip, dest, c, fs)
    else if Strings.HasSuffix(archive, ".tar.gz") then Extract(TarGz, dest, c, fs)
    else Extraction(fs, Some(UnknownFormat))
  }

  /**
   * utils.Expand with the tar entries checked by the same rule as the zip entries; this is the
   * extraction the rest of the model uses.
   */
  function Expand(archive: string, dest: string, c: Container, fs: FS): (r: Extraction)
    ensures r.err == Some(UnknownFormat) <==>
              !Strings.HasSuffix(archive, ".zip") && !Strings.HasSuffix(archive, ".tar.gz")
    ensures r.err == Some(UnknownFormat) ==> r.fs == fs
    ensures Strings.HasSuffix(archive, ".zip") ==> r == Extract(Zip, dest, c, fs)
    ensures !Strings.HasSuffix(archive, ".zip") && Strings.HasSuffix(archive, ".tar.gz") ==>
              r == Extract(TarGzGuarded, dest, c, fs)
    ensures Confined(fs, r.fs, Base(dest))
  {
    UnknownFormatIsNotExtractionError();
    if Strings.HasSuffix(archive, ".zip") then ExtractConfined(Zip, dest, c, fs); Extract(Zip, dest, c, fs)
    else if Strings.HasSuffix(archive, ".tar.gz") then
      ExtractConfined(TarGzGuarded, dest, c, fs); Extract(TarGzGuarded, dest, c, fs)
    else Extraction(fs, Some(UnknownFormat))
  }

  /** When every entry passes the guard, the corrected Expand does what the original does. */
  lemma ExpandAgreesInside(archive: string, dest: string, c: Container, fs: FS)
    requires c.Entries? ==> forall j :: 0 <= j < |c.entries| ==> InsideDest(dest, c.entries[j].name)
    ensures Expand(archive, dest, c, fs) == ExpandAsWritten(archive, dest, c, fs)
  {
    if c.Entries? && !Strings.HasSuffix(archive, ".zip") && Strings.HasSuffix(archive, ".tar.gz") {
      ProcessGuardedAgrees(dest, c.entries, fs);
    }
  }

  lemma {:induction false} ProcessGuardedAgrees(dest: string, es: seq<Entry>, fs: FS)
    requires forall j :: 0 <= j < |es| ==> InsideDest(dest, es[j].name)
    ensures Process(TarGzGuarded, dest, es, fs) == Process(TarGz, dest, es, fs)
    decreases |es|
  {
    if es != [] {
      ProcessFirst(TarGzGuarded, dest, es, fs);
      ProcessFirst(TarGz, dest, es, fs);
      var r := Step(TarGz, dest, fs, es[0]);
      assert Step(TarGzGuarded, dest, fs, es[0]) == r;
      if r.err.None? {
        ProcessGuardedAgrees(dest, es[1..], r.fs);
      }
    }
  }

  lemma UnknownFormatIsNotExtractionError()
    ensures !ExtractionError(UnknownFormat)
  {
    var s := "Unknown archive format";
    var tail := s[|s| - |IllegalSuffix|..];
    assert tail[|tail| - 1] == 't';
    assert tail != IllegalSuffix;
  }

  // ---------------------------------------------------------------------------------------
  // Processing order

  /** Processing a list is processing a prefix, then, if that succeeded, the rest. */
  lemma {:induction false} ProcessSplit(f: Format, dest: string, es: seq<Entry>, fs: FS, k: nat)
    requires k <= |es|
    ensures var r := Process(f, dest, es[..k], fs);
            Process(f, dest, es, fs) == if r.err.Some? then r else Process(f, dest, es[k..], r.fs)
    decreases k
  {
    if k > 0 {
      assert es[..k][1..] == es[1..][..k - 1];
      assert es[k..] == es[1..][k - 1..];
      var r0 := Step(f, dest, fs, es[0]);
      if r0.err.None? {
        ProcessSplit(f, dest, es[1..], r0.fs, k - 1);
      }
    }
  }

  /** An error comes from one entry, every entry before it succeeded, and none after it ran. */
  lemma {:induction false} ProcessStopsAtFirstError(f: Format, dest: string, es: seq<Entry>, fs: FS)
    requires Process(f, dest, es, fs).err.Some?
    ensures exists k :: 0 <= k < |es| && Process(f, dest, es[..k], fs).err.None? &&
                        Step(f, dest, Process(f, dest, es[..k], fs).fs, es[k]) == Process(f, dest, es, fs)
    decreases |es|
  {
    var r0 := Step(f, dest, fs, es[0]);
    assert es[..0] == [];
    ProcessFirst(f, dest, es, fs);
    if r0.err.None? {
      ProcessStopsAtFirstError(f, dest, es[1..], r0.fs);
      var k :| 0 <= k < |es[1..]| && Process(f, dest, es[1..][..k], r0.fs).err.None? &&
               Step(f, dest, Process(f, dest, es[1..][..k], r0.fs).fs, es[1..][k]) == Process(f, dest, es[1..], r0.fs);
      var pre := es[..k + 1];
      TailOfPrefix(es, k);
      assert pre != [] && pre[0] == es[0];
      ProcessFirst(f, dest, pre, fs);
      assert es[1..][k] == es[k + 1];
    }
  }

  lemma TailOfPrefix<T>(s: seq<T>, k: nat)
    requires k < |s|
    ensures s[..k + 1][1..] == s[1..][..k]
  {
  }

  /** One step of Process: the first entry, then the rest if it succeeded. */
  lemma ProcessFirst(f: Format, dest: string, es: seq<Entry>, fs: FS)
    requires es != []
    ensures var r0 := Step(f, dest, fs, es[0]);
            Process(f, dest, es, fs) == if r0.err.Some? then r0 else Process(f, dest, es[1..], r0.fs)
  {
  }

  // ---------------------------------------------------------------------------------------
  // Where the guard lets entries land

  /** The guard holds exactly when the joined location lies strictly inside a destination that is neither "/" nor ".". */
  lemma GuardMeansInside(dest: string, name: string)
    ensures InsideDest(dest, name) <==>
              dest != "" && |Base(dest).elems| > 0 && Below(Joined(dest, name), Base(dest))
    ensures dest != "" ==> Resolve(Join([dest, name])) == Some(Joined(dest, name))
  {
    if dest == "" {
      assert Parse(dest) == Path(false, [""]);
      assert Base(dest) == Path(false, []) by { assert [""][..0] == []; }
      if name == "" {
        assert NonEmpty([dest, name]) == [] by {
          assert [dest, name][1..] == [name];
          assert NonEmpty([name]) == NonEmpty([]);
        }
      } else {
        assert NonEmpty([dest, name]) == [name] by {
          assert [dest, name][1..] == [name];
          assert [name][1..] == [];
          assert NonEmpty([name]) == [name] + NonEmpty([]);
        }
        CleanIsClean(Parse(name));
        GuardIffBelow(Clean(Parse(name)), Path(false, []));
      }
    } else {
      JoinTwo(dest, name);
      CleanIsClean(Parse(dest));
      GuardIffBelow(Joined(dest, name), Base(dest));
    }
  }

  /** The zip extractor refuses every entry when the destination cleans to "/" or ".". */
  lemma ZipRefusesAtRootOrDot(dest: string, es: seq<Entry>, fs: FS)
    requires |Base(dest).elems| == 0 && |es| > 0
    ensures Process(Zip, dest, es, fs) == Extraction(fs, Some(Illegal(dest, es[0].name)))
  {
    GuardMeansInside(dest, es[0].name);
  }

  // ---------------------------------------------------------------------------------------
  // Confinement

  /**
   * fs' keeps every location of fs, and every location it adds or changes lies strictly
   * inside `base` or is a directory on the way to it.
   */
  predicate Confined(fs: FS, fs': FS, base: Path) {
    && fs.Keys <= fs'.Keys
    && forall q :: q in fs' ==>
         (q in fs && fs'[q] == fs[q]) || Below(q, base) || (AncestorOrSelf(q, base) && fs'[q].Dir?)
  }

  lemma ConfinedTrans(fs: FS, fs1: FS, fs2: FS, base: Path)
    requires Confined(fs, fs1, base) && Confined(fs1, fs2, base)
    ensures Confined(fs, fs2, base)
  {
  }

  /** Two prefixes of one sequence are ordered. */
  lemma PrefixesOrdered(a: seq<string>, b: seq<string>, c: seq<string>)
    requires a <= c && b <= c
    ensures a <= b || b < a
  {
    if |a| <= |b| {
      assert a == c[..|a|] == b[..|a|];
    } else {
      assert b == c[..|b|] == a[..|b|];
    }
  }

  /** Directories made on the way to a location at or below `base` stay confined to it. */
  lemma GrowsConfined(fs: FS, fs1: FS, p: Path, base: Path)
    requires Grows(fs, fs1, p)
    requires p.rooted == base.rooted && base.elems <= p.elems
    ensures Confined(fs, fs1, base)
  {
    forall q | q in fs1 && q !in fs ensures Below(q, base) || (AncestorOrSelf(q, base) && fs1[q].Dir?) {
      PrefixesOrdered(q.elems, base.elems, p.elems);
    }
  }

  /** Rewriting the node at one location inside `base` stays confined to it. */
  lemma RewriteConfined(fs: FS, fs1: FS, t: Path, base: Path)
    requires fs.Keys <= fs1.Keys <= fs.Keys + {t}
    requires forall q :: q in fs && q != t ==> fs1[q] == fs[q]
    requires Below(t, base)
    ensures Confined(fs, fs1, base)
  {
  }

  /** Every change the zip extractor makes for one entry lies inside the destination. */
  lemma ZipEntryConfined(dest: string, fs: FS, e: Entry)
    ensures Confined(fs, ZipEntry(dest, fs, e).fs, Base(dest))
  {
    var base := Base(dest);
    var filePath := Join([dest, e.name]);
    GuardMeansInside(dest, e.name);
    if InsideDest(dest, e.name) {
      var t := Joined(dest, e.name);
      JoinTwo(dest, e.name);
      if e.isDir {
        if MkdirAll(fs, filePath, ModePerm).Ok? {
          GrowsConfined(fs, MkdirAll(fs, filePath, ModePerm).value, t, base);
        }
      } else {
        DirOfRender(t);
        ResolveRender(Parent(t));
        var m := MkdirAll(fs, Paths.Dir(filePath), ModePerm);
        assert m == MkdirAllAt(fs, Parent(t), ModePerm);
        if m.Ok? {
          var fs1 := m.value;
          GrowsConfined(fs, fs1, Parent(t), base);
          var o := OpenTruncate(fs1, filePath, e.mode);
          if o.Ok? {
            RewriteConfined(fs1, o.value, t, base);
            var fs3 := Copy(o.value, filePath, e.body).fs;
            RewriteConfined(o.value, fs3, t, base);
            ConfinedTrans(fs1, o.value, fs3, base);
          }
          ConfinedTrans(fs, fs1, ZipEntry(dest, fs, e).fs, base);
        }
      }
    }
  }

  /** Push drops, keeps or appends one element. */
  lemma PushShape(rooted: bool, acc: seq<string>, x: string)
    ensures var r := Push(rooted, acc, x);
            r == acc || r == acc + [x] || (|acc| > 0 && r == acc[..|acc| - 1])
  {
  }

  /**
   * The parent a tar file entry creates: its location, and the entry's own location is that
   * parent with one element kept, added or removed.
   */
  lemma TarParent(dest: string, name: string)
    requires dest != "" && '/' in name
    ensures Resolve(Join([dest, NameParent(name)])) == Some(Joined(dest, NameParent(name)))
    ensures var p, t := Joined(dest, NameParent(name)), Joined(dest, name);
            p.rooted == t.rooted &&
            (t.elems == p.elems || (exists x :: t.elems == p.elems + [x]) ||
             (|p.elems| > 0 && t.elems == p.elems[..|p.elems| - 1]))
  {
    var parent := NameParent(name);
    var idx := Strings.LastIndexOf(name, '/');
    var last := name[idx + 1..];
    assert name == parent + "/" + last;
    SplitAppend(parent, last);
    SplitNoSlashIsSingleton(last);
    var r := |dest| > 0 && dest[0] == '/';
    var pre := Split(dest) + Split(parent);
    assert Split(dest) + Split(name) == pre + [last];
    CleanElemsAppend(r, pre, last);
    PushShape(r, CleanElems(r, pre), last);
    JoinTwo(dest, parent);
  }

  /** Every change the guarded tar extractor makes for one entry lies inside the destination. */
  lemma GuardedTarEntryConfined(dest: string, fs: FS, e: Entry)
    ensures Confined(fs, Step(TarGzGuarded, dest, fs, e).fs, Base(dest))
  {
    if InsideDest(dest, e.name) {
      GuardMeansInside(dest, e.name);
      JoinTwo(dest, e.name);
      if e.isDir {
        TarDirConfined(dest, fs, e);
      } else {
        TarFileConfined(dest, fs, e);
      }
    }
  }

  /** An accepted tar directory entry only makes directories on the way to its location. */
  lemma TarDirConfined(dest: string, fs: FS, e: Entry)
    requires e.isDir && dest != "" && |Base(dest).elems| > 0 && Below(Joined(dest, e.name), Base(dest))
    requires Resolve(Join([dest, e.name])) == Some(Joined(dest, e.name))
    ensures Confined(fs, TarEntry(dest, fs, e).fs, Base(dest))
  {
    var target := Join([dest, e.name]);
    if MkdirAll(fs, target, Mode0755).Ok? {
      GrowsConfined(fs, MkdirAll(fs, target, Mode0755).value, Joined(dest, e.name), Base(dest));
    }
  }

  /** An accepted tar file entry makes its parent's directories and writes only its own location. */
  lemma TarFileConfined(dest: string, fs: FS, e: Entry)
    requires !e.isDir && InsideDest(dest, e.name) && dest != ""
    requires Below(Joined(dest, e.name), Base(dest))
    requires Resolve(Join([dest, e.name])) == Some(Joined(dest, e.name))
    ensures Confined(fs, TarEntry(dest, fs, e).fs, Base(dest))
  {
    var base, target := Base(dest), Join([dest, e.name]);
    var made := if '/' in e.name then MkdirAll(fs, Join([dest, NameParent(e.name)]), Mode0755) else Ok(fs);
    if made.Ok? {
      var fs1 := made.value;
      if '/' in e.name {
        GuardedParentInside(dest, e.name);
        TarParent(dest, e.name);
        GrowsConfined(fs, fs1, Joined(dest, NameParent(e.name)), base);
      }
      TarWriteConfined(fs1, target, Joined(dest, e.name), e.body, base);
      ConfinedTrans(fs, fs1, TarEntry(dest, fs, e).fs, base);
    }
  }

  /** The parent a guarded tar entry names lies inside the destination or is the destination. */
  lemma GuardedParentInside(dest: string, name: string)
    requires InsideDest(dest, name) && '/' in name
    ensures var p, base := Joined(dest, NameParent(name)), Base(dest);
            p.rooted == base.rooted && base.elems <= p.elems
  {
    GuardMeansInside(dest, name);
    TarParent(dest, name);
    NeighbourInside(Base(dest), Joined(dest, name), Joined(dest, NameParent(name)));
  }

  /** A path that is `t`, its parent or one of its children lies at or below what `t` lies below. */
  lemma NeighbourInside(base: Path, t: Path, p: Path)
    requires Below(t, base) && p.rooted == t.rooted
    requires t.elems == p.elems || (exists x :: t.elems == p.elems + [x]) ||
             (|p.elems| > 0 && t.elems == p.elems[..|p.elems| - 1])
    ensures p.rooted == base.rooted && base.elems <= p.elems
  {
    if |p.elems| > 0 && t.elems == p.elems[..|p.elems| - 1] {
      assert t.elems <= p.elems;
    } else if t.elems != p.elems {
      var x :| t.elems == p.elems + [x];
      assert base.elems <= t.elems[..|t.elems| - 1];
    }
  }

  /** Creating, chmod-ing and filling the file at `t` changes nothing else. */
  lemma TarWriteConfined(fs1: FS, target: string, t: Path, body: Body, base: Path)
    requires Resolve(target) == Some(t) && Below(t, base)
    ensures var o := Create(fs1, target);
            o.Ok? ==> Confined(fs1, Copy(Chmod(o.value, target, Mode0755), target, body).fs, base)
  {
    var o := Create(fs1, target);
    if o.Ok? {
      RewriteConfined(fs1, o.value, t, base);
      var fs3 := Chmod(o.value, target, Mode0755);
      RewriteConfined(o.value, fs3, t, base);
      var fs4 := Copy(fs3, target, body).fs;
      RewriteConfined(fs3, fs4, t, base);
      ConfinedTrans(o.value, fs3, fs4, base);
      ConfinedTrans(fs1, o.value, fs4, base);
    }
  }

  /** Formats whose every entry stays inside the destination. */
  predicate Guarded(f: Format) {
    f == Zip || f == TarGzGuarded
  }

  /**
   * Whatever the archive holds, the zip extractor and the guarded tar extractor change
   * nothing outside the destination except to create the directories leading to it.
   */
  lemma {:induction false} ProcessConfined(f: Format, dest: string, es: seq<Entry>, fs: FS)
    requires Guarded(f)
    ensures Confined(fs, Process(f, dest, es, fs).fs, Base(dest))
    decreases |es|
  {
    if es != [] {
      var r := Step(f, dest, fs, es[0]);
      if f == Zip { ZipEntryConfined(dest, fs, es[0]); } else { GuardedTarEntryConfined(dest, fs, es[0]); }
      if r.err.None? {
        ProcessConfined(f, dest, es[1..], r.fs);
        ConfinedTrans(fs, r.fs, Process(f, dest, es[1..], r.fs).fs, Base(dest));
      }
    }
  }

  lemma ExtractConfined(f: Format, dest: string, c: Container, fs: FS)
    requires Guarded(f)
    ensures Confined(fs, Extract(f, dest, c, fs).fs, Base(dest))
  {
    if c.Entries? {
      ProcessConfined(f, dest, c.entries, fs);
    }
  }

  // ---------------------------------------------------------------------------------------
  // The counterexample: the tar entry "../evil" extracted into "/out". The lemmas from here to
  // ExpandAsWrittenEscapes evaluate these fixed strings and serve only that example.

  lemma SplitOut()
    ensures Split("/out") == ["", "out"]
  {
    assert "/out" == "" + "/" + "out";
    SplitAppend("", "out");
    SplitNoSlashIsSingleton("out");
  }

  lemma SplitEvil()
    ensures Split("../evil") == ["..", "evil"]
    ensures NameParent("../evil") == ".."
  {
    assert "../evil"[2] == '/';
    assert Strings.LastIndexOf("../evil", '/') == 2 by {
      assert '/' !in "../evil"[3..];
    }
    SplitNoSlashIsSingleton("..");
    assert "../evil" == ".." + "/" + "evil";
    SplitAppend("..", "evil");
    SplitNoSlashIsSingleton("evil");
  }

  lemma CleanEvil()
    ensures CleanElems(true, ["", "out"]) == ["out"]
    ensures CleanElems(true, ["", "out", ".."]) == []
    ensures CleanElems(true, ["", "out", "..", "evil"]) == ["evil"]
  {
    assert CleanElems(true, [""]) == [] by { assert [""][..0] == []; }
    CleanElemsAppend(true, [""], "out");
    assert [""] + ["out"] == ["", "out"];
    CleanElemsAppend(true, ["", "out"], "..");
    assert ["", "out"] + [".."] == ["", "out", ".."];
    CleanElemsAppend(true, ["", "out", ".."], "evil");
    assert ["", "out", ".."] + ["evil"] == ["", "out", "..", "evil"];
  }

  /** The locations involved in extracting "../evil" into "/out". */
  lemma EscapeLocations()
    ensures Base("/out") == Path(true, ["out"])
    ensures NameParent("../evil") == ".."
    ensures Joined("/out", "..") == Path(true, [])
    ensures Joined("/out", "../evil") == Path(true, ["evil"])
  {
    SplitEvil();
    BaseOut();
    JoinedOutUp();
    JoinedOutEvil();
  }

  lemma BaseOut()
    ensures Base("/out") == Path(true, ["out"])
  {
    SplitOut();
    CleanEvil();
  }

  lemma JoinedOutUp()
    ensures Joined("/out", "..") == Path(true, [])
  {
    SplitOut();
    CleanEvil();
    SplitNoSlashIsSingleton("..");
    assert ["", "out"] + [".."] == ["", "out", ".."];
  }

  lemma JoinedOutEvil()
    ensures Joined("/out", "../evil") == Path(true, ["evil"])
  {
    SplitOut();
    SplitEvil();
    CleanEvil();
    assert ["", "out"] + ["..", "evil"] == ["", "out", "..", "evil"];
  }

  /** Creating the parent the entry "../evil" names under "/out" finds the root. */
  lemma EscapeParent(fs0: FS)
    requires fs0 == map[Path(true, ["out"]) := Dir(Mode0755)]
    ensures '/' in "../evil" && MkdirAll(fs0, Join(["/out", NameParent("../evil")]), Mode0755) == Ok(fs0)
  {
    assert "../evil"[2] == '/';
    EscapeLocations();
    JoinTwo("/out", "..");
  }

  /** Creating the file "../evil" under "/out" makes "/evil". */
  lemma EscapeCreate(fs0: FS)
    requires fs0 == map[Path(true, ["out"]) := Dir(Mode0755)]
    ensures Resolve(Join(["/out", "../evil"])) == Some(Path(true, ["evil"]))
    ensures Create(fs0, Join(["/out", "../evil"])) == Ok(fs0[Path(true, ["evil"]) := File(Mode0666, [])])
  {
    EscapeLocations();
    JoinTwo("/out", "../evil");
    assert Parent(Path(true, ["evil"])) == Path(true, []);
  }

  /** A tar file entry whose parent exists and whose location is new becomes a 0755 file. */
  lemma TarNewFile(dest: string, fs: FS, e: Entry, t: Path)
    requires !e.isDir && e.body.Intact? && '/' in e.name
    requires MkdirAll(fs, Join([dest, NameParent(e.name)]), Mode0755) == Ok(fs)
    requires Resolve(Join([dest, e.name])) == Some(t)
    requires Create(fs, Join([dest, e.name])) == Ok(fs[t := File(Mode0666, [])])
    ensures TarEntry(dest, fs, e) == Extraction(fs[t := File(Mode0755, e.body.data)], None)
  {
    var target := Join([dest, e.name]);
    var fs2 := fs[t := File(Mode0666, [])];
    assert Chmod(fs2, target, Mode0755) == fs[t := File(Mode0755, [])];
  }

  /** The single step of the tar extractor for "../evil" into "/out". */
  lemma TarEscapeStep(fs0: FS, e: Entry)
    requires fs0 == map[Path(true, ["out"]) := Dir(Mode0755)]
    requires e == Entry("../evil", false, 0, Intact([7]))
    ensures TarEntry("/out", fs0, e) == Extraction(fs0[Path(true, ["evil"]) := File(Mode0755, [7])], None)
  {
    EscapeParent(fs0);
    EscapeCreate(fs0);
    TarNewFile("/out", fs0, e, Path(true, ["evil"]));
  }

  /**
   * The tar extractor as written writes outside the destination: extracting "../evil" into
   * "/out" creates "/evil", which the guarded format refuses.
   */
  lemma TarEscapesDestination(fs0: FS, e: Entry)
    requires fs0 == map[Path(true, ["out"]) := Dir(Mode0755)]
    requires e == Entry("../evil", false, 0, Intact([7]))
    ensures Process(TarGz, "/out", [e], fs0) == Extraction(fs0[Path(true, ["evil"]) := File(Mode0755, [7])], None)
    ensures !Below(Path(true, ["evil"]), Base("/out")) && !AncestorOrSelf(Path(true, ["evil"]), Base("/out"))
    ensures Process(TarGzGuarded, "/out", [e], fs0) == Extraction(fs0, Some(Illegal("/out", "../evil")))
  {
    TarEscapeProcess(fs0, e);
    EvilOutside();
    GuardRefusesEvil(fs0, e);
  }

  lemma TarEscapeProcess(fs0: FS, e: Entry)
    requires fs0 == map[Path(true, ["out"]) := Dir(Mode0755)]
    requires e == Entry("../evil", false, 0, Intact([7]))
    ensures Process(TarGz, "/out", [e], fs0) == Extraction(fs0[Path(true, ["evil"]) := File(Mode0755, [7])], None)
  {
    TarEscapeStep(fs0, e);
    assert [e][1..] == [];
  }

  lemma EvilOutside()
    ensures !Below(Path(true, ["evil"]), Base("/out")) && !AncestorOrSelf(Path(true, ["evil"]), Base("/out"))
  {
    BaseOut();
    var b, t := Base("/out"), Path(true, ["evil"]);
    assert b.elems[0] == "out" && t.elems[0] == "evil";
    assert "out"[0] != "evil"[0];
    assert !(b.elems <= t.elems);
  }

  lemma GuardRefusesEvil(fs0: FS, e: Entry)
    requires e == Entry("../evil", false, 0, Intact([7]))
    ensures Process(TarGzGuarded, "/out", [e], fs0) == Extraction(fs0, Some(Illegal("/out", "../evil")))
  {
    BaseOut();
    JoinedOutEvil();
    GuardMeansInside("/out", "../evil");
  }

  /**
   * The same escape through utils.Expand: as written, "x.tar.gz" holding "../evil" and
   * extracted into "/out" writes "/evil"; the corrected Expand refuses the entry instead.
   */
  lemma ExpandAsWrittenEscapes(fs0: FS, e: Entry)
    requires fs0 == map[Path(true, ["out"]) := Dir(Mode0755)]
    requires e == Entry("../evil", false, 0, Intact([7]))
    ensures ExpandAsWritten("x.tar.gz", "/out", Entries([e], Eof), fs0)
              == Extraction(fs0[Path(true, ["evil"]) := File(Mode0755, [7])], None)
    ensures !Confined(fs0, ExpandAsWritten("x.tar.gz", "/out", Entries([e], Eof), fs0).fs, Base("/out"))
    ensures Expand("x.tar.gz", "/out", Entries([e], Eof), fs0) == Extraction(fs0, Some(Illegal("/out", "../evil")))
  {
    TarGzName();
    TarEscapesDestination(fs0, e);
    EscapeNotConfined(fs0);
  }

  lemma TarGzName()
    ensures Strings.HasSuffix("x.tar.gz", ".tar.gz") && !Strings.HasSuffix("x.tar.gz", ".zip")
  {
    assert "x.tar.gz"[1..] == ".tar.gz";
    assert "x.tar.gz"[4..][0] != ".zip"[0];
  }

  lemma EscapeNotConfined(fs0: FS)
    requires fs0 == map[Path(true, ["out"]) := Dir(Mode0755)]
    ensures !Confined(fs0, fs0[Path(true, ["evil"]) := File(Mode0755, [7])], Base("/out"))
  {
    EvilOutside();
    assert Path(true, ["evil"]) !in fs0;
  }

  // ---------------------------------------------------------------------------------------
  // What a successful extraction leaves behind

  /** An entry that does not land on `l` leaves the node at `l` as it was. */
  lemma StepKeepsOthers(f: Format, dest: string, fs: FS, e: Entry, l: Path)
    requires dest != "" && l in fs
    requires e.isDir || Joined(dest, e.name) != l
    requires Step(f, dest, fs, e).err.None?
    ensures l in Step(f, dest, fs, e).fs && Step(f, dest, fs, e).fs[l] == fs[l]
  {
    var target := Join([dest, e.name]);
    GuardMeansInside(dest, e.name);
    JoinTwo(dest, e.name);
    var t := Joined(dest, e.name);
    if !e.isDir {
      if f == Zip {
        DirOfRender(t);
        ResolveRender(Parent(t));
      } else if '/' in e.name {
        TarParent(dest, e.name);
      }
    }
  }

  /** A file entry that succeeds leaves a file at its location holding exactly its bytes. */
  lemma StepWritesFile(f: Format, dest: string, fs: FS, e: Entry)
    requires dest != "" && !e.isDir && e.body.Intact?
    requires Step(f, dest, fs, e).err.None?
    ensures var t, out := Joined(dest, e.name), Step(f, dest, fs, e).fs;
            t in out && out[t].File? && out[t].data == e.body.data &&
            (f == Zip ==> out[t].mode == if IsFileAt(fs, t) then fs[t].mode else e.mode) &&
            (f != Zip ==> out[t].mode == Mode0755)
  {
    if f == Zip {
      ZipWritesFile(dest, fs, e);
    } else {
      TarWritesFile(dest, fs, e);
    }
  }

  lemma ZipWritesFile(dest: string, fs: FS, e: Entry)
    requires dest != "" && !e.isDir && e.body.Intact?
    requires ZipEntry(dest, fs, e).err.None?
    ensures var t, out := Joined(dest, e.name), ZipEntry(dest, fs, e).fs;
            t in out && out[t] == File(if IsFileAt(fs, t) then fs[t].mode else e.mode, e.body.data)
  {
    var target := Join([dest, e.name]);
    GuardMeansInside(dest, e.name);
    JoinTwo(dest, e.name);
    var t := Joined(dest, e.name);
    DirOfRender(t);
    ResolveRender(Parent(t));
    var fs1 := MkdirAll(fs, Paths.Dir(target), ModePerm).value;
    assert t in fs1 ==> t in fs;
  }

  lemma TarWritesFile(dest: string, fs: FS, e: Entry)
    requires dest != "" && !e.isDir && e.body.Intact?
    requires TarEntry(dest, fs, e).err.None?
    ensures var t, out := Joined(dest, e.name), TarEntry(dest, fs, e).fs;
            t in out && out[t] == File(Mode0755, e.body.data)
  {
    JoinTwo(dest, e.name);
    if '/' in e.name {
      TarParent(dest, e.name);
    }
  }

  /** A successful extraction never disturbs a node no file entry lands on. */
  lemma {:induction false} ProcessKeepsOthers(f: Format, dest: string, es: seq<Entry>, fs: FS, l: Path)
    requires dest != "" && l in fs
    requires forall j :: 0 <= j < |es| ==> es[j].isDir || Joined(dest, es[j].name) != l
    requires Process(f, dest, es, fs).err.None?
    ensures l in Process(f, dest, es, fs).fs && Process(f, dest, es, fs).fs[l] == fs[l]
    decreases |es|
  {
    if es != [] {
      StepKeepsOthers(f, dest, fs, es[0], l);
      var r := Step(f, dest, fs, es[0]);
      assert forall j :: 0 <= j < |es[1..]| ==> es[1..][j] == es[j + 1];
      ProcessKeepsOthers(f, dest, es[1..], r.fs, l);
    }
  }

  /**
   * After a successful extraction, the location of a file entry holds that entry's bytes,
   * unless a later file entry lands on the same location; the tar extractor leaves it 0755.
   */
  lemma LastWriteWins(f: Format, dest: string, es: seq<Entry>, fs: FS, i: nat)
    requires dest != "" && i < |es| && !es[i].isDir && es[i].body.Intact?
    requires forall j :: i < j < |es| ==> es[j].isDir || Joined(dest, es[j].name) != Joined(dest, es[i].name)
    requires Process(f, dest, es, fs).err.None?
    ensures var t, out := Joined(dest, es[i].name), Process(f, dest, es, fs).fs;
            t in out && out[t].File? && out[t].data == es[i].body.data && (f != Zip ==> out[t].mode == Mode0755)
  {
    var t := Joined(dest, es[i].name);
    ProcessAround(f, dest, es, fs, i);
    var r := Process(f, dest, es[..i], fs);
    var s := Step(f, dest, r.fs, es[i]);
    var later := es[i + 1..];
    StepWritesFile(f, dest, r.fs, es[i]);
    forall j | 0 <= j < |later| ensures later[j].isDir || Joined(dest, later[j].name) != t {
      assert later[j] == es[i + 1 + j];
    }
    ProcessKeepsOthers(f, dest, later, s.fs, t);
  }

  /** A successful extraction runs the entries before `i`, then entry `i`, then the rest, each successfully. */
  lemma ProcessAround(f: Format, dest: string, es: seq<Entry>, fs: FS, i: nat)
    requires i < |es| && Process(f, dest, es, fs).err.None?
    ensures var r := Process(f, dest, es[..i], fs);
            var s := Step(f, dest, r.fs, es[i]);
            && r.err.None? && s.err.None?
            && Process(f, dest, es[i + 1..], s.fs) == Process(f, dest, es, fs)
  {
    ProcessSplit(f, dest, es, fs, i);
    var r := Process(f, dest, es[..i], fs);
    var rest := es[i..];
    assert rest[0] == es[i] && rest[1..] == es[i + 1..];
  }

  /** A directory entry the tar extractor processed successfully is a directory afterwards. */
  lemma TarDirectoryCreated(dest: string, fs: FS, e: Entry)
    requires dest != "" && e.isDir
    requires TarEntry(dest, fs, e).err.None?
    ensures IsDirAt(TarEntry(dest, fs, e).fs, Joined(dest, e.name))
  {
    JoinTwo(dest, e.name);
  }

  /** A directory stays a directory, whatever an entry does. */
  predicate KeepsDirs(fs: FS, fs': FS) {
    forall q :: q in fs && fs[q].Dir? ==> q in fs' && fs'[q].Dir?
  }

  /** Opening, chmod-ing and filling a file never touches a directory. */
  lemma WriteKeepsDirs(fs: FS, path: string, mode: int, chmod: bool, body: Body)
    ensures var o := OpenTruncate(fs, path, mode);
            o.Ok? ==> KeepsDirs(fs, o.value) &&
                      KeepsDirs(o.value, Copy(if chmod then Chmod(o.value, path, Mode0755) else o.value, path, body).fs)
  {
    var o := OpenTruncate(fs, path, mode);
    if o.Ok? {
      var fs2 := if chmod then Chmod(o.value, path, Mode0755) else o.value;
      assert KeepsDirs(o.value, fs2);
      assert KeepsDirs(fs2, Copy(fs2, path, body).fs);
    }
  }

  lemma ZipEntryKeepsDirs(dest: string, fs: FS, e: Entry)
    ensures KeepsDirs(fs, ZipEntry(dest, fs, e).fs)
  {
    if InsideDest(dest, e.name) && !e.isDir {
      var target := Join([dest, e.name]);
      var m := MkdirAll(fs, Paths.Dir(target), ModePerm);
      if m.Ok? {
        WriteKeepsDirs(m.value, target, e.mode, false, e.body);
      }
    }
  }

  lemma TarEntryKeepsDirs(dest: string, fs: FS, e: Entry)
    ensures KeepsDirs(fs, TarEntry(dest, fs, e).fs)
  {
    if !e.isDir {
      var made := if '/' in e.name then MkdirAll(fs, Join([dest, NameParent(e.name)]), Mode0755) else Ok(fs);
      if made.Ok? {
        WriteKeepsDirs(made.value, Join([dest, e.name]), Mode0666, true, e.body);
      }
    }
  }

  lemma StepKeepsDirs(f: Format, dest: string, fs: FS, e: Entry)
    ensures KeepsDirs(fs, Step(f, dest, fs, e).fs)
  {
    if f == Zip {
      ZipEntryKeepsDirs(dest, fs, e);
    } else {
      TarEntryKeepsDirs(dest, fs, e);
    }
  }

  lemma {:induction false} ProcessKeepsDirs(f: Format, dest: string, es: seq<Entry>, fs: FS)
    ensures KeepsDirs(fs, Process(f, dest, es, fs).fs)
    decreases |es|
  {
    if es != [] {
      var r := Step(f, dest, fs, es[0]);
      StepKeepsDirs(f, dest, fs, es[0]);
      if r.err.None? {
        ProcessKeepsDirs(f, dest, es[1..], r.fs);
      }
    }
  }

  /**
   * After a successful tar extraction every directory entry is a directory. (The zip extractor
   * ignores a failed MkdirAll for a directory entry, so there ZipEntry states the step only.)
   */
  lemma TarDirectoriesCreated(f: Format, dest: string, es: seq<Entry>, fs: FS, i: nat)
    requires f != Zip && dest != "" && i < |es| && es[i].isDir
    requires Process(f, dest, es, fs).err.None?
    ensures IsDirAt(Process(f, dest, es, fs).fs, Joined(dest, es[i].name))
  {
    ProcessSplit(f, dest, es, fs, i);
    var r := Process(f, dest, es[..i], fs);
    var rest := es[i..];
    assert rest[0] == es[i];
    var s := Step(f, dest, r.fs, es[i]);
    assert Process(f, dest, rest, r.fs) == if s.err.Some? then s else Process(f, dest, rest[1..], s.fs);
    TarDirectoryCreated(dest, r.fs, es[i]);
    ProcessKeepsDirs(f, dest, rest[1..], s.fs);
  }

  /** Extraction succeeds exactly when every entry does and, for tar, the listing ends at EOF. */
  lemma ExtractSucceedsIff(f: Format, dest: string, c: Container, fs: FS)
    ensures Extract(f, dest, c, fs).err.None? <==>
              c.Entries? && Process(f, dest, c.entries, fs).err.None? && (f == Zip || c.tail == Eof)
  {
  }

  /** Extracting a directory entry a second time changes nothing. */
  lemma DirectoryEntryIdempotent(f: Format, dest: string, fs: FS, e: Entry)
    requires e.isDir && Step(f, dest, fs, e).err.None?
    ensures Step(f, dest, Step(f, dest, fs, e).fs, e) == Step(f, dest, fs, e)
  {
    var target := Join([dest, e.name]);
    match Resolve(target) {
      case None =>
      case Some(p) =>
        if MkdirAllAt(fs, p, ModePerm).Ok? { MkdirAllAtIdempotent(fs, p, ModePerm, ModePerm); }
        if MkdirAllAt(fs, p, Mode0755).Ok? { MkdirAllAtIdempotent(fs, p, Mode0755, Mode0755); }
    }
  }
}
