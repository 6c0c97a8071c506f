/**
 * The string and path helpers collect_pdfs.py relies on, taken from Python's
 * standard library on a POSIX system: `t in s` on strings, `str.lower`,
 * `str.endswith`, `os.path.basename` and `os.path.join`.
 */
module PathText {

  type Path = string

  /** `t in s` for strings: `t` occurs in `s` as a contiguous piece. */
  predicate Contains(s: string, t: string)
    decreases |s|
  {
    t <= s || (s != [] && Contains(s[1..], t))
  }

  /** The search agrees with the positional reading of "occurs in". */
  lemma {:induction false} ContainsIff(s: string, t: string)
    ensures Contains(s, t) <==> exists k | 0 <= k <= |s| :: t <= s[k..]
    decreases |s|
  {
    if t <= s {
      assert s[0..] == s;
    } else if s == [] {
      forall k | 0 <= k <= |s| ensures !(t <= s[k..]) {
        assert s[k..] == s;
      }
    } else {
      ContainsIff(s[1..], t);
      if Contains(s[1..], t) {
        var k :| 0 <= k <= |s[1..]| && t <= s[1..][k..];
        assert s[1..][k..] == s[k + 1..];
      } else {
        forall k | 0 <= k <= |s| ensures !(t <= s[k..]) {
          if k > 0 {
            assert s[1..][k - 1..] == s[k..];
          } else {
            assert s[k..] == s;
          }
        }
      }
    }
  }

  /** ASCII case mapping of one character, as `str.lower` does for ASCII. */
  function LowerChar(c: char): char
  {
    if 'A' <= c <= 'Z' then (c as int + 32) as char else c
  }

  /** `s.lower()`, character by character. */
  function Lower(s: string): string
  {
    if s == [] then [] else [LowerChar(s[0])] + Lower(s[1..])
  }

  /** Lower keeps the length and maps each character by LowerChar in place. */
  lemma {:induction false} LowerAt(s: string, i: nat)
    requires i < |s|
    ensures |Lower(s)| == |s| && Lower(s)[i] == LowerChar(s[i])
  {
    LowerLength(s);
    if i > 0 {
      LowerAt(s[1..], i - 1);
    }
  }

  lemma {:induction false} LowerLength(s: string)
    ensures |Lower(s)| == |s|
  {
    if s != [] {
      LowerLength(s[1..]);
    }
  }

  /** `s.endswith(suffix)`. */
  predicate EndsWith(s: string, suffix: string)
  {
    |suffix| <= |s| && s[|s| - |suffix|..] == suffix
  }

  /** `p.rfind(c)`: the index of the last `c` in `p`, or -1 when there is none. */
  function RFind(p: string, c: char): (r: int)
    ensures -1 <= r < |p|
  {
    if p == [] then -1
    else if p[|p| - 1] == c then |p| - 1
    else RFind(p[..|p| - 1], c)
  }

  /** RFind finds a `c`, and none comes after it. */
  lemma {:induction false} RFindSpec(p: string, c: char)
    ensures RFind(p, c) >= 0 ==> p[RFind(p, c)] == c
    ensures forall i :: RFind(p, c) < i < |p| ==> p[i] != c
  {
    if p != [] && p[|p| - 1] != c {
      RFindSpec(p[..|p| - 1], c);
    }
  }

  /**
   * `os.path.basename(p)`: everything after the last '/', the whole path
   * when it has none, and the empty string when it ends in '/'.
   */
  function Basename(p: Path): Path
  {
    p[RFind(p, '/') + 1..]
  }

  lemma BasenameCharsNoSlash(p: Path)
    ensures forall i | 0 <= i < |Basename(p)| :: Basename(p)[i] != '/'
  {
    var r := RFind(p, '/');
    RFindSpec(p, '/');
    forall i | 0 <= i < |Basename(p)| ensures Basename(p)[i] != '/' {
      assert Basename(p)[i] == p[r + 1 + i];
    }
  }

  /**
   * The basename is the longest suffix without '/': a suffix, free of '/',
   * and either the whole path or preceded by '/'.
   */
  lemma BasenameShape(p: Path)
    ensures var b := Basename(p);
            && |b| <= |p| && b == p[|p| - |b|..]
            && '/' !in b
            && (|b| == |p| || p[|p| - |b| - 1] == '/')
  {
    RFindSpec(p, '/');
    BasenameCharsNoSlash(p);
  }

  /** The three facts of BasenameShape determine the basename. */
  lemma BasenameUnique(p: Path, b: Path)
    requires |b| <= |p| && b == p[|p| - |b|..]
    requires '/' !in b
    requires |b| == |p| || p[|p| - |b| - 1] == '/'
    ensures Basename(p) == b
  {
    BasenameShape(p);
  }

  /**
   * `os.path.join(a, b)` for two components: an absolute `b` replaces `a`;
   * otherwise a '/' is inserted unless `a` is empty or already ends in one.
   */
  function Join(a: Path, b: Path): Path
  {
    if b != [] && b[0] == '/' then b
    else if a == [] || a[|a| - 1] == '/' then a + b
    else a + "/" + b
  }

  /** Joining a name that has no '/' puts it last: basename gives it back. */
  lemma BasenameOfJoin(a: Path, name: string)
    requires '/' !in name
    ensures Basename(Join(a, name)) == name
  {
    var p := Join(a, name);
    if name != [] {
      assert name[0] in name;
    }
    assert p[|p| - |name|..] == name;
    if |name| < |p| {
      assert p[|p| - |name| - 1] == '/';
    }
    BasenameUnique(p, name);
  }

  /** Distinct names without '/' give distinct paths under one directory. */
  lemma JoinInjective(a: Path, n1: string, n2: string)
    requires '/' !in n1 && '/' !in n2
    ensures Join(a, n1) == Join(a, n2) <==> n1 == n2
  {
    BasenameOfJoin(a, n1);
    BasenameOfJoin(a, n2);
  }

  /** A relative component is appended: the joined path extends the directory. */
  lemma JoinExtends(a: Path, b: Path)
    requires b == [] || b[0] != '/'
    ensures a <= Join(a, b)
  {
    if a == [] || a[|a| - 1] == '/' {
      assert (a + b)[..|a|] == a;
    } else {
      assert (a + "/" + b)[..|a|] == a;
    }
  }
}
