/**
 * The file system as `create_destination_folder` and `copy_pdfs` change it:
 * a set of directory paths and a map from regular-file paths to their
 * contents.  `os.path.exists`, `os.makedirs` and `shutil.copy` become
 * updates of that state.
 */
module FileStore {
  import opened Wrappers
  import opened PathText
  import Gather
  import Destination

  type Bytes = seq<bv8>

  /** Which paths are directories, and the contents of each regular file. */
  datatype Store = Store(dirs: set<Path>, files: map<Path, Bytes>)

  /** No path is both a directory and a regular file. */
  predicate Consistent(s: Store)
  {
    forall p | p in s.dirs :: p !in s.files
  }

  /** `os.path.exists(p)`: a directory or a file is there. */
  predicate Exists(s: Store, p: Path)
  {
    p in s.dirs || p in s.files
  }

  /** `if not os.path.exists(p): os.makedirs(p)` */
  function MakeDirIfAbsent(s: Store, p: Path): Store
  {
    if Exists(s, p) then s else s.(dirs := s.dirs + {p})
  }

  /** Afterwards something exists at `p`; at most `p` became a directory, and no file changed. */
  lemma MakeDirIfAbsentEffect(s: Store, p: Path)
    ensures Exists(MakeDirIfAbsent(s, p), p)
    ensures MakeDirIfAbsent(s, p).files == s.files
    ensures Exists(s, p) ==> MakeDirIfAbsent(s, p) == s
    ensures !Exists(s, p) ==> MakeDirIfAbsent(s, p).dirs == s.dirs + {p}
    ensures Consistent(s) ==> Consistent(MakeDirIfAbsent(s, p))
  {
  }

  /** Creating the folder a second time changes nothing. */
  lemma MakeDirIdempotent(s: Store, p: Path)
    ensures MakeDirIfAbsent(MakeDirIfAbsent(s, p), p) == MakeDirIfAbsent(s, p)
  {
  }

  // ---------------------------------------------------------------------
  // shutil.copy

  /** The exceptions `shutil.copy` raises in this model. */
  datatype CopyError =
    | SameFile(path: Path)            // shutil.SameFileError
    | SourceUnreadable(path: Path)    // FileNotFoundError / IsADirectoryError on the source
    | TargetIsDirectory(path: Path)   // IsADirectoryError on the target

  /** Where `shutil.copy(src, dst)` writes: inside `dst` when it is a directory, else `dst` itself. */
  function CopyTarget(dirs: set<Path>, src: Path, dst: Path): Path
  {
    if dst in dirs then Join(dst, Basename(src)) else dst
  }

  /**
   * `shutil.copy(src, dst)`: refuse to copy a file onto itself, then read
   * the source, then open the target for writing, overwriting any file
   * there.  A failure changes nothing.
   */
  function CopyFile(s: Store, src: Path, dst: Path): Result<Store, CopyError>
  {
    var target := CopyTarget(s.dirs, src, dst);
    if target == src && Exists(s, src) then Failure(SameFile(src))
    else if src !in s.files then Failure(SourceUnreadable(src))
    else if target in s.dirs then Failure(TargetIsDirectory(target))
    else Success(s.(files := s.files[target := s.files[src]]))
  }

  /** The store after a loop of copies, and the exception that stopped it, if any. */
  datatype CopyOutcome = CopyOutcome(store: Store, error: Option<CopyError>)

  /** Every path a list of copies into `dst` can write. */
  function Targets(dirs: set<Path>, pdfs: seq<Path>, dst: Path): set<Path>
  {
    if pdfs == [] then {} else {CopyTarget(dirs, pdfs[0], dst)} + Targets(dirs, pdfs[1..], dst)
  }

  /** The basenames of a list of paths. */
  function Basenames(pdfs: seq<Path>): set<string>
  {
    if pdfs == [] then {} else {Basename(pdfs[0])} + Basenames(pdfs[1..])
  }

  /**
   * The loop of `copy_pdfs`: copy each file in turn; the first exception
   * ends the loop and leaves the copies made so far in place.  Directories
   * never change, files are never removed, and only copy targets can gain
   * a file.
   */
  function CopyAll(s: Store, pdfs: seq<Path>, dst: Path): (r: CopyOutcome)
    ensures r.store.dirs == s.dirs
    ensures s.files.Keys <= r.store.files.Keys <= s.files.Keys + Targets(s.dirs, pdfs, dst)
    decreases |pdfs|
  {
    if pdfs == [] then CopyOutcome(s, None)
    else
      match CopyFile(s, pdfs[0], dst)
      case Failure(e) => CopyOutcome(s, Some(e))
      case Success(t) => CopyAll(t, pdfs[1..], dst)
  }

  // ---------------------------------------------------------------------
  // What the copy loop does

  /** Nothing outside the copy targets changes, whether or not the loop fails. */
  lemma {:induction false} CopyAllFrame(s: Store, pdfs: seq<Path>, dst: Path, p: Path)
    requires p !in Targets(s.dirs, pdfs, dst)
    ensures p in CopyAll(s, pdfs, dst).store.files <==> p in s.files
    ensures p in s.files ==> CopyAll(s, pdfs, dst).store.files[p] == s.files[p]
    decreases |pdfs|
  {
    if pdfs != [] {
      match CopyFile(s, pdfs[0], dst)
      case Failure(e) =>
      case Success(t) =>
        CopyAllFrame(t, pdfs[1..], dst, p);
    }
  }

  lemma {:induction false} TargetsHaveBasenames(dirs: set<Path>, pdfs: seq<Path>, dst: Path, name: string)
    requires dst in dirs && '/' !in name
    ensures Join(dst, name) in Targets(dirs, pdfs, dst) <==> name in Basenames(pdfs)
    decreases |pdfs|
  {
    if pdfs != [] {
      TargetsHaveBasenames(dirs, pdfs[1..], dst, name);
      BasenameShape(pdfs[0]);
      JoinInjective(dst, name, Basename(pdfs[0]));
    }
  }

  lemma {:induction false} TargetsShrink(dirs: set<Path>, pdfs: seq<Path>, dst: Path)
    requires pdfs != []
    ensures Targets(dirs, pdfs[1..], dst) <= Targets(dirs, pdfs, dst)
  {
  }

  /**
   * The last copy wins: when every copy succeeds into a directory and no
   * source is itself overwritten on the way, the file named like `pdfs[k]`
   * in `dst` holds the contents of `pdfs[k]`, for the last `k` with that
   * basename.
   */
  lemma {:induction false} CopyAllLastWins(s: Store, pdfs: seq<Path>, dst: Path, k: nat)
    requires dst in s.dirs
    requires CopyAll(s, pdfs, dst).error == None
    requires forall q | q in pdfs :: q !in Targets(s.dirs, pdfs, dst)
    requires k < |pdfs|
    requires forall j | k < j < |pdfs| :: Basename(pdfs[j]) != Basename(pdfs[k])
    ensures pdfs[k] in s.files
    ensures Join(dst, Basename(pdfs[k])) in CopyAll(s, pdfs, dst).store.files
    ensures CopyAll(s, pdfs, dst).store.files[Join(dst, Basename(pdfs[k]))] == s.files[pdfs[k]]
    decreases |pdfs|
  {
    var r := CopyAll(s, pdfs, dst);
    var target0 := Join(dst, Basename(pdfs[0]));
    match CopyFile(s, pdfs[0], dst)
    case Failure(e) =>
    case Success(t) =>
      assert r == CopyAll(t, pdfs[1..], dst);
      assert t.files == s.files[target0 := s.files[pdfs[0]]];
      var rest := pdfs[1..];
      if k == 0 {
        assert target0 !in Targets(s.dirs, rest, dst) by {
          BasenameShape(pdfs[0]);
          TargetsHaveBasenames(s.dirs, rest, dst, Basename(pdfs[0]));
          if Basename(pdfs[0]) in Basenames(rest) {
            var j := BasenameIndex(rest, Basename(pdfs[0]));
          }
        }
        CopyAllFrame(t, rest, dst, target0);
      } else {
        TargetsShrink(s.dirs, pdfs, dst);
        forall q | q in rest ensures q !in Targets(t.dirs, rest, dst) {
          assert q in pdfs;
        }
        forall j | k - 1 < j < |rest| ensures Basename(rest[j]) != Basename(rest[k - 1]) {
          assert rest[j] == pdfs[j + 1];
        }
        CopyAllLastWins(t, rest, dst, k - 1);
        assert rest[k - 1] == pdfs[k];
        assert pdfs[k] != target0 by {
          assert pdfs[k] in pdfs;
        }
      }
  }

  /** A position of a basename in the list, for names it holds. */
  lemma {:induction false} BasenameIndex(pdfs: seq<Path>, name: string) returns (j: nat)
    requires name in Basenames(pdfs)
    ensures j < |pdfs| && Basename(pdfs[j]) == name
    decreases |pdfs|
  {
    if Basename(pdfs[0]) == name {
      j := 0;
    } else {
      var j' := BasenameIndex(pdfs[1..], name);
      j := j' + 1;
    }
  }

  /**
   * The loop runs to the end when the folder is a directory, every source
   * is a regular file that no copy overwrites, and no target is a directory.
   */
  lemma {:induction false} CopyAllSucceeds(s: Store, pdfs: seq<Path>, dst: Path)
    requires dst in s.dirs
    requires forall q | q in pdfs :: q in s.files && q !in Targets(s.dirs, pdfs, dst)
    requires forall p | p in Targets(s.dirs, pdfs, dst) :: p !in s.dirs
    ensures CopyAll(s, pdfs, dst).error == None
    decreases |pdfs|
  {
    if pdfs != [] {
      var src := pdfs[0];
      assert src in pdfs;
      var target := CopyTarget(s.dirs, src, dst);
      assert target in Targets(s.dirs, pdfs, dst);
      var t := s.(files := s.files[target := s.files[src]]);
      assert CopyFile(s, src, dst) == Success(t);
      TargetsShrink(s.dirs, pdfs, dst);
      forall q | q in pdfs[1..] ensures q in t.files && q !in Targets(t.dirs, pdfs[1..], dst) {
        assert q in pdfs;
      }
      CopyAllSucceeds(t, pdfs[1..], dst);
    }
  }

  /**
   * A failing loop stops at the first failing copy: the store is what the
   * copies before it made, and that copy raised the reported exception.
   */
  lemma {:induction false} CopyAllStops(s: Store, pdfs: seq<Path>, dst: Path)
    requires CopyAll(s, pdfs, dst).error.Some?
    ensures exists k :: 0 <= k < |pdfs| &&
              CopyAll(s, pdfs[..k], dst) == CopyOutcome(CopyAll(s, pdfs, dst).store, None) &&
              CopyFile(CopyAll(s, pdfs, dst).store, pdfs[k], dst) == Failure(CopyAll(s, pdfs, dst).error.value)
    decreases |pdfs|
  {
    var r := CopyAll(s, pdfs, dst);
    match CopyFile(s, pdfs[0], dst)
    case Failure(e) =>
      assert pdfs[..0] == [];
      assert r.store == s;
      assert CopyAll(s, pdfs[..0], dst) == CopyOutcome(r.store, None);
    case Success(t) =>
      var rest := pdfs[1..];
      CopyAllStops(t, rest, dst);
      var k :| 0 <= k < |rest| &&
               CopyAll(t, rest[..k], dst) == CopyOutcome(r.store, None) &&
               CopyFile(r.store, rest[k], dst) == Failure(r.error.value);
      assert pdfs[..k + 1][1..] == rest[..k];
      assert pdfs[..k + 1][0] == pdfs[0];
      assert rest[k] == pdfs[k + 1];
      assert CopyAll(s, pdfs[..k + 1], dst) == CopyAll(t, rest[..k], dst);
  }

  // ---------------------------------------------------------------------
  // How many files the copy leaves

  /**
   * Into a directory, the copies write one file per distinct basename, which
   * is at most the number of files copied.
   */
  lemma {:induction false} TargetsCount(dirs: set<Path>, pdfs: seq<Path>, dst: Path)
    requires dst in dirs
    ensures |Targets(dirs, pdfs, dst)| == |Basenames(pdfs)| <= |pdfs|
    decreases |pdfs|
  {
    if pdfs != [] {
      var rest := pdfs[1..];
      var b := Basename(pdfs[0]);
      TargetsCount(dirs, rest, dst);
      BasenameShape(pdfs[0]);
      TargetsHaveBasenames(dirs, rest, dst, b);
      var t := CopyTarget(dirs, pdfs[0], dst);
      if b in Basenames(rest) {
        assert Basenames(pdfs) == Basenames(rest);
        assert Targets(dirs, pdfs, dst) == Targets(dirs, rest, dst);
      } else {
        assert Basenames(pdfs) == Basenames(rest) + {b};
        assert Targets(dirs, pdfs, dst) == Targets(dirs, rest, dst) + {t};
      }
    }
  }

  /**
   * When a regular file already sits at the folder's path, every copy
   * overwrites that one file.
   */
  lemma {:induction false} TargetsOfFile(dirs: set<Path>, pdfs: seq<Path>, dst: Path)
    requires dst !in dirs
    ensures Targets(dirs, pdfs, dst) == if pdfs == [] then {} else {dst}
    decreases |pdfs|
  {
    if pdfs != [] {
      TargetsOfFile(dirs, pdfs[1..], dst);
    }
  }

  /**
   * Two PDFs with one file name in different "Complete" folders (say
   * `A/Complete/doc.pdf` and `B/Complete/doc.pdf`): the folder is named for
   * two files, and one file is written.
   */
  lemma DuplicateBasename(dirs: set<Path>, dst: Path, folderA: Path, folderB: Path, name: string)
    requires dst in dirs && '/' !in name
    ensures var pdfs := [Join(folderA, name), Join(folderB, name)];
            |Targets(dirs, pdfs, dst)| == 1 < |pdfs|
  {
    var pdfs := [Join(folderA, name), Join(folderB, name)];
    BasenameOfJoin(folderA, name);
    BasenameOfJoin(folderB, name);
    var rest := pdfs[1..];
    assert rest[1..] == [];
    assert Basenames(rest) == {Basename(rest[0])} + Basenames(rest[1..]);
    assert Basenames(rest) == {name};
    assert Basenames(pdfs) == {name};
    TargetsCount(dirs, pdfs, dst);
  }

  // ---------------------------------------------------------------------
  // The file system object

  /** What a run of lines 62-79 ends with. */
  datatype RunOutcome =
    | NoPdfsFound
    | Copied(destinationFolder: Path, count: nat, error: Option<CopyError>)

  /**
   * The folder a run creates is named for the number of gathered PDFs: the
   * text before the first '_' of its last component reads back as that
   * number, which is the sum of the PDF counts of the "Complete" folders.
   */
  lemma RunFolderCount(walk: seq<Gather.WalkEntry>, parentDirectory: Path, saveDirectory: Path)
    ensures var n := |Gather.Gathered(walk)|;
            var dest := Destination.DestinationPath(saveDirectory, Basename(parentDirectory), n);
            && n == Gather.MatchCount(Gather.GatherFilter(), walk)
            && saveDirectory <= dest
            && Destination.ParseInt(Destination.TakeUntil(Basename(dest), '_')) == Some(n)
  {
    var n := |Gather.Gathered(walk)|;
    Gather.GatheredLength(walk);
    BasenameShape(parentDirectory);
    Destination.DestinationUnderSave(saveDirectory, Basename(parentDirectory), n);
    Destination.FolderNameCount(n, Basename(parentDirectory));
  }

  class FileSystem {
    var dirs: set<Path>
    var files: map<Path, Bytes>

    function State(): Store
      reads this
    {
      Store(dirs, files)
    }

    /** Sanity invariant: no path is both a directory and a regular file.
        The constructor establishes it and every method keeps it. */
    predicate Valid()
      reads this
    {
      Consistent(State())
    }

    constructor (initial: Store)
      requires Consistent(initial)
      ensures Valid() && State() == initial
    {
      dirs := initial.dirs;
      files := initial.files;
    }

    /** `create_destination_folder(save_directory, parent_name, num_pdfs)` */
    method CreateDestinationFolder(saveDirectory: Path, parentName: string, numPdfs: int)
      returns (newFolderPath: Path)
      requires Valid()
      modifies this
      ensures Valid()
      ensures newFolderPath == Destination.DestinationPath(saveDirectory, parentName, numPdfs)
      ensures State() == MakeDirIfAbsent(old(State()), newFolderPath)
    {
      var newFolderName := Destination.FolderName(numPdfs, parentName);
      newFolderPath := Join(saveDirectory, newFolderName);
      if !(newFolderPath in dirs || newFolderPath in files) {
        dirs := dirs + {newFolderPath};
      }
    }

    /** `shutil.copy(src, dst)`; the exception, if any, is returned. */
    method Copy(src: Path, dst: Path) returns (error: Option<CopyError>)
      requires Valid()
      modifies this
      ensures Valid()
      ensures match CopyFile(old(State()), src, dst)
              case Success(t) => error == None && State() == t
              case Failure(e) => error == Some(e) && State() == old(State())
    {
      var target := if dst in dirs then Join(dst, Basename(src)) else dst;
      if target == src && (src in dirs || src in files) {
        return Some(SameFile(src));
      }
      if src !in files {
        return Some(SourceUnreadable(src));
      }
      if target in dirs {
        return Some(TargetIsDirectory(target));
      }
      files := files[target := files[src]];
      error := None;
    }

    /** `copy_pdfs(pdf_files, destination_folder)` */
    method CopyPdfs(pdfFiles: seq<Path>, destinationFolder: Path) returns (error: Option<CopyError>)
      requires Valid()
      modifies this
      ensures Valid()
      ensures CopyOutcome(State(), error) == CopyAll(old(State()), pdfFiles, destinationFolder)
    {
      var i := 0;
      while i < |pdfFiles|
        invariant 0 <= i <= |pdfFiles|
        invariant Valid()
        invariant CopyAll(State(), pdfFiles[i..], destinationFolder) == CopyAll(old(State()), pdfFiles, destinationFolder)
      {
        assert pdfFiles[i..][0] == pdfFiles[i] && pdfFiles[i..][1..] == pdfFiles[i + 1..];
        error := Copy(pdfFiles[i], destinationFolder);
        if error.Some? {
          return;
        }
        i := i + 1;
      }
      error := None;
    }

    /**
     * One pass of `run_process` without its dialogs (collect_pdfs.py:62-79):
     * gather, stop when nothing was found, otherwise create the folder named
     * for the count and copy into it.
     */
    method CollectAndCopy(walk: seq<Gather.WalkEntry>, parentDirectory: Path, saveDirectory: Path)
      returns (outcome: RunOutcome)
      requires Valid()
      modifies this
      ensures Valid()
      ensures Gather.Gathered(walk) == [] ==> outcome == NoPdfsFound && State() == old(State())
      ensures Gather.Gathered(walk) != [] ==>
                var pdfs := Gather.Gathered(walk);
                var dest := Destination.DestinationPath(saveDirectory, Basename(parentDirectory), |pdfs|);
                var copied := CopyAll(MakeDirIfAbsent(old(State()), dest), pdfs, dest);
                outcome == Copied(dest, |pdfs|, copied.error) && State() == copied.store
    {
      var pdfFiles := Gather.GatherPdfs(walk);
      if |pdfFiles| == 0 {
        return NoPdfsFound;
      }
      var parentName := Basename(parentDirectory);
      var destinationFolder := CreateDestinationFolder(saveDirectory, parentName, |pdfFiles|);
      var error := CopyPdfs(pdfFiles, destinationFolder);
      outcome := Copied(destinationFolder, |pdfFiles|, error);
    }
  }
}
