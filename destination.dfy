/**
 * The name of the folder that `create_destination_folder` makes:
 * `f"{num_pdfs}_files_{parent_name}"`, joined under the save directory.
 */
module Destination {
  import opened Wrappers
  import opened PathText

  predicate IsDigit(c: char)
  {
    '0' <= c <= '9'
  }

  predicate AllDigits(s: string)
  {
    forall i :: 0 <= i < |s| ==> IsDigit(s[i])
  }

  function DigitChar(d: nat): (c: char)
    requires d < 10
    ensures IsDigit(c) && c as int - '0' as int == d
  {
    ('0' as int + d) as char
  }

  /** The decimal digits of `n`, most significant first, with no leading zero. */
  function NatDecimal(n: nat): (s: string)
    ensures |s| >= 1 && AllDigits(s)
    ensures s[0] == '0' <==> n == 0
    ensures n < 10 ==> |s| == 1
    decreases n
  {
    if n < 10 then [DigitChar(n)] else NatDecimal(n / 10) + [DigitChar(n % 10)]
  }

  /** Python's decimal rendering of an int, as an f-string does it. */
  function Decimal(n: int): string
  {
    if n < 0 then "-" + NatDecimal(-n) else NatDecimal(n)
  }

  /** The value of a string of decimal digits. */
  function DigitsValue(s: string): nat
    requires AllDigits(s)
  {
    if s == [] then 0 else DigitsValue(s[..|s| - 1]) * 10 + (s[|s| - 1] as int - '0' as int)
  }

  /** Reads an optionally negative decimal numeral back; anything else is None. */
  function ParseInt(s: string): Option<int>
  {
    if |s| > 1 && s[0] == '-' && AllDigits(s[1..]) then Some(0 - DigitsValue(s[1..]) as int)
    else if |s| > 0 && AllDigits(s) then Some(DigitsValue(s))
    else None
  }

  /** The characters of `s` before the first `c` (all of `s` when it has none). */
  function TakeUntil(s: string, c: char): string
  {
    if s == [] || s[0] == c then [] else [s[0]] + TakeUntil(s[1..], c)
  }

  /** `f"{num_pdfs}_files_{parent_name}"` */
  function FolderName(numPdfs: int, parentName: string): string
  {
    Decimal(numPdfs) + "_files_" + parentName
  }

  /** `os.path.join(save_directory, new_folder_name)` */
  function DestinationPath(saveDirectory: Path, parentName: string, numPdfs: int): Path
  {
    Join(saveDirectory, FolderName(numPdfs, parentName))
  }

  lemma {:induction false} NatDecimalValue(n: nat)
    ensures DigitsValue(NatDecimal(n)) == n
    decreases n
  {
    var s := NatDecimal(n);
    if n >= 10 {
      NatDecimalValue(n / 10);
      assert s[..|s| - 1] == NatDecimal(n / 10);
    }
  }

  /** A non-empty digit string parses as its value. */
  lemma ParseDigits(d: string)
    requires |d| > 0 && AllDigits(d)
    ensures ParseInt(d) == Some(DigitsValue(d))
  {
    assert IsDigit(d[0]);
  }

  /** A minus sign before a non-empty digit string parses as the negated value. */
  lemma ParseNegative(d: string)
    requires |d| > 0 && AllDigits(d)
    ensures ParseInt("-" + d) == Some(0 - DigitsValue(d) as int)
  {
    assert ("-" + d)[1..] == d;
  }

  /** The rendering reads back as the number it renders. */
  lemma DecimalRoundTrip(n: int)
    ensures ParseInt(Decimal(n)) == Some(n)
  {
    if n < 0 {
      NegativeRoundTrip(n);
    } else {
      NatDecimalValue(n);
      ParseDigits(NatDecimal(n));
    }
  }

  lemma NegativeRoundTrip(n: int)
    requires n < 0
    ensures ParseInt(Decimal(n)) == Some(n)
  {
    var d := NatDecimal(-n);
    NatDecimalValue(-n);
    ParseNegative(d);
    assert Decimal(n) == "-" + d;
  }

  lemma {:induction false} TakeUntilConcat(x: string, y: string, c: char)
    requires c !in x && y != [] && y[0] == c
    ensures TakeUntil(x + y, c) == x
  {
    if x != [] {
      assert x[0] in x;
      TakeUntilConcat(x[1..], y, c);
      assert (x + y)[1..] == x[1..] + y;
    }
  }

  /**
   * The count is recoverable from the folder name: the text before its first
   * '_' reads back as the number of PDFs.
   */
  lemma FolderNameCount(numPdfs: int, parentName: string)
    ensures ParseInt(TakeUntil(FolderName(numPdfs, parentName), '_')) == Some(numPdfs)
  {
    var d := Decimal(numPdfs);
    if numPdfs < 0 {
      assert d[0] == '-' && forall i :: 1 <= i < |d| ==> IsDigit(d[i]);
    }
    assert '_' !in d;
    assert FolderName(numPdfs, parentName) == d + ("_files_" + parentName);
    TakeUntilConcat(d, "_files_" + parentName, '_');
    DecimalRoundTrip(numPdfs);
  }

  /** Different counts name different folders. */
  lemma FolderNameInjective(n1: int, n2: int, parentName: string)
    requires FolderName(n1, parentName) == FolderName(n2, parentName)
    ensures n1 == n2
  {
    FolderNameCount(n1, parentName);
    FolderNameCount(n2, parentName);
  }

  lemma FolderNameNoSlash(numPdfs: int, parentName: string)
    requires '/' !in parentName
    ensures '/' !in FolderName(numPdfs, parentName)
    ensures FolderName(numPdfs, parentName)[0] != '/'
  {
    var d := Decimal(numPdfs);
    var name := FolderName(numPdfs, parentName);
    if numPdfs < 0 {
      assert d[0] == '-' && forall i :: 1 <= i < |d| ==> IsDigit(d[i]);
    }
    assert '/' !in d;
    assert name[0] == d[0];
    forall i | 0 <= i < |name| ensures name[i] != '/' {
      if i < |d| {
        assert name[i] == d[i];
      } else if i >= |d| + 7 {
        assert name[i] == parentName[i - |d| - 7];
      }
    }
  }

  /**
   * For a parent name without '/' (a basename), the folder sits directly
   * under the save directory: the path extends the save directory and its
   * last component is the folder name.
   */
  lemma DestinationUnderSave(saveDirectory: Path, parentName: string, numPdfs: int)
    requires '/' !in parentName
    ensures saveDirectory <= DestinationPath(saveDirectory, parentName, numPdfs)
    ensures Basename(DestinationPath(saveDirectory, parentName, numPdfs)) == FolderName(numPdfs, parentName)
  {
    var name := FolderName(numPdfs, parentName);
    FolderNameNoSlash(numPdfs, parentName);
    BasenameOfJoin(saveDirectory, name);
    JoinExtends(saveDirectory, name);
  }
}
