/**
 * `gather_pdfs`: the PDF files of every directory whose name contains
 * "Complete", in the order `os.walk` lists them.  The walk itself is an
 * input: one entry per directory visited, as the `(dirpath, dirnames,
 * filenames)` triples `os.walk` yields.
 *
 * The list building is stated once for any directory test and any file
 * test (a Filter); `gather_pdfs` is the instance GatherFilter.  Keeping the
 * two name tests out of the structural proofs keeps those proofs small.
 */
module Gather {
  import opened PathText

  datatype WalkEntry = WalkEntry(dirpath: Path, dirnames: seq<string>, filenames: seq<string>)

  /** Which directories are searched, and which of their files are kept. */
  datatype Filter = Filter(keepDir: Path -> bool, keepFile: string -> bool)

  /** The directory is a "Complete" folder: its basename contains "Complete", case-sensitively. */
  predicate IsCompleteDir(dirpath: Path)
  {
    Contains(Basename(dirpath), "Complete")
  }

  /** `file.lower().endswith(".pdf")` */
  predicate IsPdfName(file: string)
  {
    EndsWith(Lower(file), ".pdf")
  }

  /** The two tests of `gather_pdfs` (collect_pdfs.py:33 and 35). */
  function GatherFilter(): Filter
  {
    Filter(IsCompleteDir, IsPdfName)
  }

  /** The joined paths of the names in `files` that the filter keeps, in list order. */
  function KeptIn(f: Filter, dirpath: Path, files: seq<string>): seq<Path>
  {
    if files == [] then []
    else
      var file := files[|files| - 1];
      KeptIn(f, dirpath, files[..|files| - 1]) + (if f.keepFile(file) then [Join(dirpath, file)] else [])
  }

  /** What one walk entry contributes. */
  function EntryKept(f: Filter, entry: WalkEntry): seq<Path>
  {
    if f.keepDir(entry.dirpath) then KeptIn(f, entry.dirpath, entry.filenames) else []
  }

  /** The list the nested loops build for a walk listing. */
  function Collected(f: Filter, walk: seq<WalkEntry>): seq<Path>
  {
    if walk == [] then [] else Collected(f, walk[..|walk| - 1]) + EntryKept(f, walk[|walk| - 1])
  }

  /** What `gather_pdfs` returns for a walk listing. */
  function Gathered(walk: seq<WalkEntry>): seq<Path>
  {
    Collected(GatherFilter(), walk)
  }

  /** The number of names in a file list that the filter keeps. */
  function KeptCount(f: Filter, files: seq<string>): nat
  {
    if files == [] then 0
    else KeptCount(f, files[..|files| - 1]) + (if f.keepFile(files[|files| - 1]) then 1 else 0)
  }

  /** The sum, over the searched directories of a walk, of their kept-file counts. */
  function MatchCount(f: Filter, walk: seq<WalkEntry>): nat
  {
    if walk == [] then 0
    else
      var entry := walk[|walk| - 1];
      MatchCount(f, walk[..|walk| - 1]) + (if f.keepDir(entry.dirpath) then KeptCount(f, entry.filenames) else 0)
  }

  /** File `j` of walk entry `i` is one the filter collects. */
  predicate Qualifies(f: Filter, walk: seq<WalkEntry>, i: int, j: int)
  {
    && 0 <= i < |walk|
    && 0 <= j < |walk[i].filenames|
    && f.keepDir(walk[i].dirpath)
    && f.keepFile(walk[i].filenames[j])
  }

  /**
   * Where file `j` of entry `i` lands in the result: after every kept file
   * of the earlier entries and the earlier kept files of its own entry.
   */
  function Rank(f: Filter, walk: seq<WalkEntry>, i: nat, j: nat): nat
    requires i < |walk| && j <= |walk[i].filenames|
  {
    MatchCount(f, walk[..i]) + KeptCount(f, walk[i].filenames[..j])
  }

  /** The nested loops of `gather_pdfs`. */
  method GatherPdfs(walk: seq<WalkEntry>) returns (pdfFiles: seq<Path>)
    ensures pdfFiles == Gathered(walk)
    ensures |pdfFiles| == MatchCount(GatherFilter(), walk)
  {
    ghost var f := GatherFilter();
    pdfFiles := [];
    for i := 0 to |walk|
      invariant pdfFiles == Collected(f, walk[..i])
    {
      var entry := walk[i];
      assert walk[..i + 1][..i] == walk[..i];
      if IsCompleteDir(entry.dirpath) {
        for j := 0 to |entry.filenames|
          invariant pdfFiles == Collected(f, walk[..i]) + KeptIn(f, entry.dirpath, entry.filenames[..j])
        {
          var file := entry.filenames[j];
          assert entry.filenames[..j + 1][..j] == entry.filenames[..j];
          if IsPdfName(file) {
            pdfFiles := pdfFiles + [Join(entry.dirpath, file)];
          }
        }
        assert entry.filenames[..|entry.filenames|] == entry.filenames;
      }
    }
    assert walk[..|walk|] == walk;
    CollectedLength(f, walk);
  }

  // ---------------------------------------------------------------------
  // Length

  lemma {:induction false} KeptInLength(f: Filter, dirpath: Path, files: seq<string>)
    ensures |KeptIn(f, dirpath, files)| == KeptCount(f, files)
  {
    if files != [] {
      KeptInLength(f, dirpath, files[..|files| - 1]);
    }
  }

  /** The result has one path per kept name of each searched directory. */
  lemma {:induction false} CollectedLength(f: Filter, walk: seq<WalkEntry>)
    ensures |Collected(f, walk)| == MatchCount(f, walk)
  {
    if walk != [] {
      CollectedLength(f, walk[..|walk| - 1]);
      KeptInLength(f, walk[|walk| - 1].dirpath, walk[|walk| - 1].filenames);
    }
  }

  // ---------------------------------------------------------------------
  // Prefixes: the loops only ever append

  lemma {:induction false} KeptInPrefix(f: Filter, dirpath: Path, files: seq<string>, j: nat)
    requires j <= |files|
    ensures KeptIn(f, dirpath, files[..j]) <= KeptIn(f, dirpath, files)
    decreases |files|
  {
    if j < |files| {
      var init := files[..|files| - 1];
      KeptInPrefix(f, dirpath, init, j);
      assert init[..j] == files[..j];
    } else {
      assert files[..j] == files;
    }
  }

  lemma {:induction false} CollectedPrefix(f: Filter, walk: seq<WalkEntry>, i: nat)
    requires i <= |walk|
    ensures Collected(f, walk[..i]) <= Collected(f, walk)
    decreases |walk|
  {
    if i < |walk| {
      var init := walk[..|walk| - 1];
      CollectedPrefix(f, init, i);
      assert init[..i] == walk[..i];
    } else {
      assert walk[..i] == walk;
    }
  }

  lemma {:induction false} KeptCountPrefix(f: Filter, files: seq<string>, j: nat)
    requires j <= |files|
    ensures KeptCount(f, files[..j]) <= KeptCount(f, files)
    ensures j < |files| && f.keepFile(files[j]) ==> KeptCount(f, files[..j]) < KeptCount(f, files)
    decreases |files|
  {
    if j < |files| {
      var init := files[..|files| - 1];
      KeptCountPrefix(f, init, j);
      assert init[..j] == files[..j];
      if j == |files| - 1 {
        assert init == files[..j];
      }
    } else {
      assert files[..j] == files;
    }
  }

  lemma {:induction false} MatchCountPrefix(f: Filter, walk: seq<WalkEntry>, i: nat)
    requires i <= |walk|
    ensures MatchCount(f, walk[..i]) <= MatchCount(f, walk)
    ensures i < |walk| && f.keepDir(walk[i].dirpath) ==>
              MatchCount(f, walk[..i]) + KeptCount(f, walk[i].filenames) <= MatchCount(f, walk)
    decreases |walk|
  {
    if i < |walk| {
      var init := walk[..|walk| - 1];
      MatchCountPrefix(f, init, i);
      assert init[..i] == walk[..i];
      if i == |walk| - 1 {
        assert init == walk[..i];
      }
    } else {
      assert walk[..i] == walk;
    }
  }

  // ---------------------------------------------------------------------
  // Completeness, soundness and order, for any filter

  lemma KeptInAt(f: Filter, dirpath: Path, files: seq<string>, j: nat)
    requires j < |files| && f.keepFile(files[j])
    ensures KeptCount(f, files[..j]) < |KeptIn(f, dirpath, files)|
    ensures KeptIn(f, dirpath, files)[KeptCount(f, files[..j])] == Join(dirpath, files[j])
  {
    var upto := files[..j + 1];
    assert upto[..j] == files[..j];
    KeptInLength(f, dirpath, files[..j]);
    KeptInPrefix(f, dirpath, files, j + 1);
  }

  lemma {:induction false} KeptInFrom(f: Filter, dirpath: Path, files: seq<string>, m: nat)
    requires m < |KeptIn(f, dirpath, files)|
    ensures exists j :: 0 <= j < |files| && f.keepFile(files[j]) && KeptCount(f, files[..j]) == m &&
                        KeptIn(f, dirpath, files)[m] == Join(dirpath, files[j])
  {
    var init := files[..|files| - 1];
    KeptInLength(f, dirpath, init);
    if m < |KeptIn(f, dirpath, init)| {
      KeptInFrom(f, dirpath, init, m);
      var j :| 0 <= j < |init| && f.keepFile(init[j]) && KeptCount(f, init[..j]) == m &&
               KeptIn(f, dirpath, init)[m] == Join(dirpath, init[j]);
      assert init[..j] == files[..j];
      assert files[j] == init[j];
    } else {
      var j := |files| - 1;
      assert init == files[..j];
      assert f.keepFile(files[j]);
    }
  }

  lemma CollectedComplete(f: Filter, walk: seq<WalkEntry>, i: nat, j: nat)
    requires Qualifies(f, walk, i, j)
    ensures Rank(f, walk, i, j) < |Collected(f, walk)|
    ensures Collected(f, walk)[Rank(f, walk, i, j)] == Join(walk[i].dirpath, walk[i].filenames[j])
  {
    var upto := walk[..i + 1];
    assert upto[..i] == walk[..i];
    CollectedLength(f, walk[..i]);
    KeptInAt(f, walk[i].dirpath, walk[i].filenames, j);
    CollectedPrefix(f, walk, i + 1);
  }

  lemma {:induction false} CollectedSound(f: Filter, walk: seq<WalkEntry>, k: nat)
    requires k < |Collected(f, walk)|
    ensures exists i, j :: Qualifies(f, walk, i, j) && Rank(f, walk, i, j) == k &&
                           Collected(f, walk)[k] == Join(walk[i].dirpath, walk[i].filenames[j])
  {
    var init := walk[..|walk| - 1];
    var last := walk[|walk| - 1];
    CollectedLength(f, init);
    if k < |Collected(f, init)| {
      CollectedSound(f, init, k);
      var i, j :| Qualifies(f, init, i, j) && Rank(f, init, i, j) == k &&
                  Collected(f, init)[k] == Join(init[i].dirpath, init[i].filenames[j]);
      assert init[..i] == walk[..i];
      assert Qualifies(f, walk, i, j) && Rank(f, walk, i, j) == k;
    } else {
      var i := |walk| - 1;
      var m := k - MatchCount(f, init);
      assert init == walk[..i];
      KeptInFrom(f, last.dirpath, last.filenames, m);
      var j :| 0 <= j < |last.filenames| && f.keepFile(last.filenames[j]) &&
               KeptCount(f, last.filenames[..j]) == m &&
               KeptIn(f, last.dirpath, last.filenames)[m] == Join(last.dirpath, last.filenames[j]);
      assert Qualifies(f, walk, i, j) && Rank(f, walk, i, j) == k;
    }
  }

  lemma RankOrdered(f: Filter, walk: seq<WalkEntry>, i1: nat, j1: nat, i2: nat, j2: nat)
    requires Qualifies(f, walk, i1, j1) && Qualifies(f, walk, i2, j2)
    requires i1 < i2 || (i1 == i2 && j1 < j2)
    ensures Rank(f, walk, i1, j1) < Rank(f, walk, i2, j2)
  {
    KeptCountPrefix(f, walk[i1].filenames, j1);
    if i1 < i2 {
      MatchCountPrefix(f, walk[..i2], i1);
      assert walk[..i2][..i1] == walk[..i1];
      assert walk[..i2][i1] == walk[i1];
    } else {
      var files := walk[i1].filenames;
      KeptCountPrefix(f, files[..j2], j1);
      assert files[..j2][..j1] == files[..j1];
      assert files[..j2][j1] == files[j1];
    }
  }

  // ---------------------------------------------------------------------
  // The same facts for gather_pdfs itself

  /** The length is the sum, over "Complete" directories, of their PDF-name counts. */
  lemma GatheredLength(walk: seq<WalkEntry>)
    ensures |Gathered(walk)| == MatchCount(GatherFilter(), walk)
  {
    CollectedLength(GatherFilter(), walk);
  }

  /**
   * Completeness and position: every PDF name listed for a "Complete"
   * directory is returned, joined to that directory, at its rank.
   */
  lemma GatheredComplete(walk: seq<WalkEntry>, i: nat, j: nat)
    requires 0 <= i < |walk| && 0 <= j < |walk[i].filenames|
    requires IsCompleteDir(walk[i].dirpath) && IsPdfName(walk[i].filenames[j])
    ensures Rank(GatherFilter(), walk, i, j) < |Gathered(walk)|
    ensures Gathered(walk)[Rank(GatherFilter(), walk, i, j)] == Join(walk[i].dirpath, walk[i].filenames[j])
  {
    CollectedComplete(GatherFilter(), walk, i, j);
  }

  /**
   * Soundness: every returned path is a PDF name listed for a "Complete"
   * directory, joined to that directory, and sits at that file's rank; so
   * nothing of any other directory is returned.
   */
  lemma GatheredSound(walk: seq<WalkEntry>, k: nat)
    requires k < |Gathered(walk)|
    ensures exists i, j :: Qualifies(GatherFilter(), walk, i, j) &&
                           IsCompleteDir(walk[i].dirpath) && IsPdfName(walk[i].filenames[j]) &&
                           Rank(GatherFilter(), walk, i, j) == k &&
                           Gathered(walk)[k] == Join(walk[i].dirpath, walk[i].filenames[j])
  {
    CollectedSound(GatherFilter(), walk, k);
  }

  /**
   * Order: files of earlier walk entries come first, and within an entry
   * the file list's order is kept.  Distinct ranks with GatheredComplete
   * and GatheredSound make each qualifying file appear exactly once.
   */
  lemma GatheredOrdered(walk: seq<WalkEntry>, i1: nat, j1: nat, i2: nat, j2: nat)
    requires Qualifies(GatherFilter(), walk, i1, j1) && Qualifies(GatherFilter(), walk, i2, j2)
    requires i1 < i2 || (i1 == i2 && j1 < j2)
    ensures Rank(GatherFilter(), walk, i1, j1) < Rank(GatherFilter(), walk, i2, j2)
  {
    RankOrdered(GatherFilter(), walk, i1, j1, i2, j2);
  }

  /** When the walk lists bare names, each returned path ends in a PDF name. */
  lemma GatheredBasename(walk: seq<WalkEntry>, k: nat)
    requires forall i, j | 0 <= i < |walk| && 0 <= j < |walk[i].filenames| :: '/' !in walk[i].filenames[j]
    requires k < |Gathered(walk)|
    ensures IsPdfName(Basename(Gathered(walk)[k]))
  {
    GatheredSound(walk, k);
    var i, j :| Qualifies(GatherFilter(), walk, i, j) && IsPdfName(walk[i].filenames[j]) &&
                Gathered(walk)[k] == Join(walk[i].dirpath, walk[i].filenames[j]);
    BasenameOfJoin(walk[i].dirpath, walk[i].filenames[j]);
  }

  // ---------------------------------------------------------------------
  // The two name tests

  /** The suffix test ignores ASCII case and looks only at the last four characters. */
  lemma PdfNameIff(file: string)
    ensures IsPdfName(file) <==>
              && |file| >= 4
              && file[|file| - 4] == '.'
              && (file[|file| - 3] == 'p' || file[|file| - 3] == 'P')
              && (file[|file| - 2] == 'd' || file[|file| - 2] == 'D')
              && (file[|file| - 1] == 'f' || file[|file| - 1] == 'F')
  {
    var low := Lower(file);
    var n := |file|;
    LowerLength(file);
    if n >= 4 {
      LowerAt(file, n - 4);
      LowerAt(file, n - 3);
      LowerAt(file, n - 2);
      LowerAt(file, n - 1);
      assert low[n - 4..] == [low[n - 4], low[n - 3], low[n - 2], low[n - 1]];
    }
  }

  /** Only the last component of a directory path decides the test. */
  lemma CompleteDirOfName(parent: Path, name: string)
    requires '/' !in name
    ensures IsCompleteDir(Join(parent, name)) <==> Contains(name, "Complete")
  {
    BasenameOfJoin(parent, name);
  }

  lemma ContainsCompleteExamples()
    ensures Contains("Complete", "Complete")
    ensures Contains("NotComplete", "Complete")
    ensures Contains("Complete_old", "Complete")
    ensures !Contains("complete", "Complete")
    ensures !Contains("done", "Complete")
  {
    ContainsIff("NotComplete", "Complete");
    assert "Complete" <= "NotComplete"[3..];
    assert "Complete" <= "Complete_old";
    ContainsIff("complete", "Complete");
    forall k | 0 <= k <= |"complete"| ensures !("Complete" <= "complete"[k..]) {
      if k == 0 {
        assert "complete"[k..][0] == 'c';
      }
    }
    ContainsIff("done", "Complete");
  }

  /** Under any parent, a folder whose own name holds "Complete" in the middle or at the end qualifies. */
  lemma CompleteDirInside(parent: Path)
    ensures IsCompleteDir(Join(parent, "NotComplete"))
  {
    ContainsCompleteExamples();
    CompleteDirOfName(parent, "NotComplete");
  }

  /** Under any parent, a folder whose own name starts with "Complete" qualifies. */
  lemma CompleteDirStart(parent: Path)
    ensures IsCompleteDir(Join(parent, "Complete_old"))
  {
    assert Contains("Complete_old", "Complete") by {
      assert "Complete" <= "Complete_old";
    }
    CompleteDirOfName(parent, "Complete_old");
  }

  /** The test is case-sensitive: "complete" does not qualify. */
  lemma CompleteDirCase(parent: Path)
    ensures !IsCompleteDir(Join(parent, "complete"))
  {
    ContainsCompleteExamples();
    CompleteDirOfName(parent, "complete");
  }

  /** Only the folder's own name counts: under "Jobs/Complete", "done" does not qualify. */
  lemma CompleteDirOwnName()
    ensures !IsCompleteDir(Join("Jobs/Complete", "done"))
  {
    ContainsCompleteExamples();
    CompleteDirOfName("Jobs/Complete", "done");
  }

  /** The suffix test ignores case and needs ".pdf" at the very end. */
  lemma PdfNameExamples()
    ensures IsPdfName("a.PDF")
    ensures !IsPdfName("a.pdf.bak")
  {
    PdfNameIff("a.PDF");
    PdfNameIff("a.pdf.bak");
  }
}
