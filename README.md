# PDF collector: a Dafny model of collect_pdfs.py

`collect_pdfs.py` gathers the PDF files kept in "Complete" folders under a
parent directory and copies them into one new folder named after their
count and the parent. Apart from its dialogs it does three things, and this
project models each of them with the file system replaced by plain data:

- **`gather_pdfs`** walks the parent directory. For every directory whose
  basename contains `Complete` (case-sensitive, anywhere in the name) it
  keeps each file whose lower-cased name ends in `.pdf`, and it returns
  `os.path.join(dirpath, file)` for those files in walk order. The walk is
  an input: a sequence of `WalkEntry(dirpath, dirnames, filenames)`, one per
  triple that `os.walk` yields. `Gather.GatherPdfs` is the nested loop.
  `Gather.Gathered` is the function it is proved against.
- **`create_destination_folder`** builds `f"{num_pdfs}_files_{parent_name}"`,
  joins it under the save directory, and creates that directory unless
  something already exists at the path. `Destination` holds the naming.
  `FileStore.FileSystem.CreateDestinationFolder` holds the guarded creation.
- **`copy_pdfs`** calls `shutil.copy(pdf, destination_folder)` for each
  gathered path. The copy writes `destination_folder/basename(pdf)` and
  overwrites whatever file is there. `FileStore.CopyFile` is one copy on a
  `Store` (a set of directory paths and a map from file paths to contents).
  `FileStore.CopyAll` is the loop. `FileStore.FileSystem.CopyPdfs` is the
  loop run in place on the file-system object.

`FileStore.FileSystem.CollectAndCopy` is one pass of `run_process` without
its dialogs. It gathers the files, stops when none were found, and otherwise
creates the folder named for the count and copies into it.

The path and string helpers (`os.path.basename`, `os.path.join`, `in`,
`lower`, `endswith`) are modelled on their POSIX definitions in `PathText`.
The model uses them exactly as written: `basename` is the text after
`rfind('/')`, and `join` has three cases (an absolute second part replaces
the first; no `/` is added after an empty or `/`-terminated first part).

Two consequences of the code are proved rather than assumed:

- When a regular file already sits at the folder's path, `os.path.exists`
  is true, so no directory is made. `shutil.copy` then writes every PDF onto
  that one file (`FileStore.TargetsOfFile`).
- Two gathered PDFs with the same file name, in different "Complete"
  folders, go to the same target, so the later one overwrites the earlier.
  The folder's name then states more files than it holds
  (`FileStore.TargetsCount`, `FileStore.DuplicateBasename`).

`collect_pdfs.py` matches `Complete` anywhere in a directory's basename,
reads no manifest or ordering file, and copies each PDF under its own file
name; the model does the same.

## Model

| member | source | states |
|---|---|---|
| `Gather.Gathered` | collect_pdfs.py:27-37 | the list `gather_pdfs` returns for a walk: `join(dirpath, file)` for each PDF name of each "Complete" directory, in walk order; specified by `GatheredComplete`, `GatheredSound`, `GatheredOrdered` and `GatheredLength` |
| `Gather.IsCompleteDir` | collect_pdfs.py:33 | `"Complete" in os.path.basename(subdir)`; characterised by `CompleteDirOfName` and the `CompleteDir*` examples |
| `Gather.IsPdfName` | collect_pdfs.py:35 | `file.lower().endswith(".pdf")`; characterised by `PdfNameIff` |
| `PathText.Contains` | collect_pdfs.py:33 | Python's `t in s` on strings; characterised by `ContainsIff` |
| `PathText.Basename` | collect_pdfs.py:33 | `os.path.basename`: the text after the last `/`; characterised by `BasenameShape` and `BasenameUnique` |
| `PathText.Lower` | collect_pdfs.py:35 | `str.lower` on ASCII capitals; characterised by `LowerAt` |
| `PathText.EndsWith` | collect_pdfs.py:35 | `str.endswith`: the suffix is the last characters of the string |
| `PathText.Join` | collect_pdfs.py:36 | `os.path.join` of two components: an absolute second part replaces the first, otherwise a `/` is inserted unless the first is empty or ends in one; characterised by `BasenameOfJoin`, `JoinInjective` and `JoinExtends` |
| `Destination.Decimal` | collect_pdfs.py:41 | the f-string rendering of an int, with `-` before negatives; inverted by `ParseInt` in `DecimalRoundTrip` |
| `Destination.FolderName` | collect_pdfs.py:41 | `f"{num_pdfs}_files_{parent_name}"`; its count is recovered by `FolderNameCount` |
| `Destination.DestinationPath` | collect_pdfs.py:42 | `os.path.join(save_directory, new_folder_name)`; placed by `DestinationUnderSave` |
| `FileStore.MakeDirIfAbsent` | collect_pdfs.py:43-44 | `if not os.path.exists(p): os.makedirs(p)` on a store; specified by `MakeDirIfAbsentEffect` and `MakeDirIdempotent` |
| `FileStore.CopyTarget` | collect_pdfs.py:50 | where `shutil.copy` writes: `dst/basename(src)` when `dst` is a directory, otherwise `dst` itself |
| `FileStore.CopyFile` | collect_pdfs.py:50 | one `shutil.copy`: `SameFileError` when the target is the existing source, then an error for a missing or directory source, then an error for a directory target; otherwise the target's file becomes the source's contents |
| `Gather.GatherPdfs` | collect_pdfs.py:27-37 | the nested loops return exactly `Gathered(walk)`, whose length is the sum over "Complete" directories of their PDF-name counts |
| `Gather.GatheredLength` | collect_pdfs.py:29-37 | the result has one path per PDF name listed for each directory whose basename contains "Complete" |
| `Gather.GatheredComplete` | collect_pdfs.py:31-36 | every PDF name in a "Complete" directory's file list is returned as `join(dirpath, name)`, at the position after all earlier entries' PDFs and the earlier PDFs of its own list |
| `Gather.GatheredSound` | collect_pdfs.py:31-36 | every returned path is `join(dirpath, name)` for a walk entry whose basename contains "Complete" and a listed name ending in ".pdf" ignoring case, at that file's position; nothing from other directories is returned |
| `Gather.GatheredOrdered` | collect_pdfs.py:31-36 | files of earlier walk entries come first, and files of one entry keep their list order |
| `Gather.GatheredBasename` | collect_pdfs.py:35-36 | when the walk lists bare file names, the basename of every returned path is a PDF name |
| `Gather.CollectedComplete` | collect_pdfs.py:31-36 | completeness and position for the list-building loops with any directory test and file test |
| `Gather.CollectedSound` | collect_pdfs.py:31-36 | soundness and position for the list-building loops with any directory test and file test |
| `Gather.RankOrdered` | collect_pdfs.py:31-36 | the loops' output order is walk order, then file-list order, for any directory test and file test |
| `Gather.CollectedLength` | collect_pdfs.py:29-37 | the loops' output length is the sum of kept-file counts over kept directories |
| `Gather.PdfNameIff` | collect_pdfs.py:35 | `file.lower().endswith(".pdf")` holds exactly when the last four characters are `.`, `p`/`P`, `d`/`D`, `f`/`F` |
| `Gather.PdfNameExamples` | collect_pdfs.py:35 | `a.PDF` is kept and `a.pdf.bak` is not |
| `Gather.CompleteDirOfName` | collect_pdfs.py:33 | for a directory `join(parent, name)`, only `name` decides whether it is a "Complete" folder |
| `Gather.CompleteDirInside` | collect_pdfs.py:33 | under any parent, `NotComplete` qualifies |
| `Gather.CompleteDirStart` | collect_pdfs.py:33 | under any parent, `Complete_old` qualifies |
| `Gather.CompleteDirCase` | collect_pdfs.py:33 | under any parent, `complete` does not qualify: the test is case-sensitive |
| `Gather.CompleteDirOwnName` | collect_pdfs.py:33 | `done` inside `Jobs/Complete` does not qualify: only the directory's own basename is searched |
| `Gather.ContainsCompleteExamples` | collect_pdfs.py:33 | the substring test on sample names: found in `NotComplete` and `Complete_old`, absent from `complete` and `done` |
| `PathText.ContainsIff` | collect_pdfs.py:33 | `t in s` holds exactly when `t` is a prefix of some suffix of `s` |
| `PathText.BasenameShape` | collect_pdfs.py:33 | `os.path.basename(p)` is a suffix of `p` without `/`, and is either all of `p` or preceded by `/` |
| `PathText.BasenameUnique` | collect_pdfs.py:33 | those three facts determine the basename |
| `PathText.RFindSpec` | collect_pdfs.py:33 | the index that `basename` cuts at holds a `/`, and no `/` comes after it |
| `PathText.LowerAt` | collect_pdfs.py:35 | the model's ASCII-only `Lower` keeps the length and maps each character in place (Python's `str.lower` can lengthen a string; see Left out) |
| `PathText.BasenameOfJoin` | collect_pdfs.py:36 | joining a name without `/` onto a directory and taking the basename gives the name back |
| `PathText.JoinInjective` | collect_pdfs.py:50 | under one directory, different names without `/` give different paths |
| `PathText.JoinExtends` | collect_pdfs.py:42 | joining a relative component keeps the directory as a prefix of the result |
| `Destination.NatDecimal` | collect_pdfs.py:41 | the decimal rendering of a count is a non-empty digit string whose first digit is `0` only for zero, and a single digit below ten (so 0 renders as `0`) |
| `Destination.DecimalRoundTrip` | collect_pdfs.py:41 | the rendering of any int reads back as that int |
| `Destination.FolderNameCount` | collect_pdfs.py:41 | the text of `f"{num_pdfs}_files_{parent_name}"` before its first `_` reads back as `num_pdfs` |
| `Destination.FolderNameInjective` | collect_pdfs.py:41 | different counts give different folder names for one parent |
| `Destination.FolderNameNoSlash` | collect_pdfs.py:41 | for a parent basename, the folder name contains no `/` and is not absolute |
| `Destination.DestinationUnderSave` | collect_pdfs.py:41-42 | the returned path extends the save directory, and its basename is the folder name |
| `FileStore.MakeDirIfAbsentEffect` | collect_pdfs.py:43-44 | afterwards something exists at the path; if it already existed nothing changed, otherwise exactly that path became a directory; no file changed |
| `FileStore.MakeDirIdempotent` | collect_pdfs.py:43-44 | the guarded creation done twice equals it done once |
| `FileStore.FileSystem.CreateDestinationFolder` | collect_pdfs.py:39-45 | returns `join(save_directory, f"{num_pdfs}_files_{parent_name}")` and creates that directory only where nothing exists |
| `FileStore.FileSystem.Copy` | collect_pdfs.py:50 | one `shutil.copy`: on success the state is `CopyFile`'s new store; on an exception nothing changes and the exception is returned |
| `FileStore.CopyAll` | collect_pdfs.py:49-50 | the copy loop never changes directories, never removes a file, and adds files only at copy targets |
| `FileStore.FileSystem.CopyPdfs` | collect_pdfs.py:47-50 | the in-place loop ends in the state and exception that `CopyAll` gives for the initial state |
| `FileStore.CopyAllFrame` | collect_pdfs.py:49-50 | paths that are not copy targets keep their files and contents, whether or not the loop fails |
| `FileStore.CopyAllLastWins` | collect_pdfs.py:49-50 | after a successful loop into a directory where no source is itself overwritten, `dest/basename(p)` holds the contents of the last gathered path with that basename |
| `FileStore.CopyAllSucceeds` | collect_pdfs.py:49-50 | the loop raises nothing when the folder is a directory, every source is a regular file that no copy overwrites, and no target is a directory |
| `FileStore.CopyAllStops` | collect_pdfs.py:49-50 | a failing loop stops at the first failing copy, with the earlier copies kept and the later ones not attempted |
| `FileStore.TargetsCount` | collect_pdfs.py:50 | copies into a directory write one file per distinct basename, which is at most the number of gathered paths |
| `FileStore.TargetsOfFile` | collect_pdfs.py:43-44 | when a regular file holds the folder's path, every copy writes that one path |
| `FileStore.DuplicateBasename` | collect_pdfs.py:50 | two gathered files with one name in different folders give one written file, although two were counted |
| `FileStore.RunFolderCount` | collect_pdfs.py:75-76 | the folder a run creates lies under the save directory, and its name's leading number is `len(pdf_files)`, the sum of the "Complete" folders' PDF counts |
| `FileStore.FileSystem.CollectAndCopy` | collect_pdfs.py:62-79 | an empty gather changes nothing; otherwise the folder is named for the gathered count and the state is `CopyAll` run on the state after folder creation |

## Left out

- The dialogs, alerts and message boxes (`show_alert`, `select_parent_directory`, `select_save_directory`, and the messages of `run_process`): they are user interface only.
- The retry loop of `run_process` and its answers to "no directory selected" and "continue?": these branches are driven by dialogs. `CollectAndCopy` models one pass, including the skip when nothing is found.
- The real traversal of `os.walk` (its order, symlinks, permission errors): the walk listing is an input, and nothing ties it to the `Store`.
- `PathText.Lower`: maps only ASCII capitals, where `str.lower` also maps other Unicode letters. The `.pdf` test compares against ASCII letters. Only a non-ASCII letter whose lower case is `p`, `d` or `f` could differ, and the model ignores that case.
- Path identity is string equality. Paths that name the same file through `..`, doubled slashes or symlinks are distinct in the model. This matters for `shutil.SameFileError`, which the model raises only for equal strings.
- `os.makedirs` also creates missing parent directories, and it fails when a parent is a regular file, when permission is denied, or when the file system is read-only. The model adds only the one path and has no parent relation. For the same reason, a copy to a path whose parent directory is missing does not fail in the model.
- Byte-level copying, permission bits (`copymode`), special files, disk-full and permission errors of `shutil.copy`: contents are copied as a whole value, and only these exceptions are modelled: copying a file onto itself, an unreadable or missing source, and a target that is a directory.
