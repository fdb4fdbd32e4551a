/** The string helpers the launcher takes from Python's library: `str.strip`,
    `os.path.basename`/`os.path.splitext` (with `/` as the only separator),
    the one-character `str.upper`, decimal formatting of an `int`, and
    `"\n".join`. */
module Text {

  // ---------------------------------------------------------------------------
  // str.strip()
  // ---------------------------------------------------------------------------

  /** The characters Python's `str.isspace()` accepts, which `str.strip()` removes. */
  predicate IsSpace(c: char) {
    var n := c as int;
    (9 <= n <= 13) || (28 <= n <= 32) || n == 0x85 || n == 0xA0 || n == 0x1680
    || (0x2000 <= n <= 0x200A) || n == 0x2028 || n == 0x2029 || n == 0x202F
    || n == 0x205F || n == 0x3000
  }

  predicate AllSpace(s: string) {
    forall k :: 0 <= k < |s| ==> IsSpace(s[k])
  }

  /** Where the whitespace run starting at `i` ends: every character from
      `i` up to the result is whitespace, and the result is the end of `s`
      or a non-whitespace character. */
  function SkipSpace(s: string, i: nat): (r: nat)
    requires i <= |s|
    ensures i <= r <= |s|
    ensures forall k :: i <= k < r ==> IsSpace(s[k])
    ensures r == |s| || !IsSpace(s[r])
    decreases |s| - i
  {
    if i < |s| && IsSpace(s[i]) then SkipSpace(s, i + 1) else i
  }

  /** Where the whitespace run ending at `j` starts, looking no further back
      than `lo`: every character from the result up to `j` is whitespace,
      and the result is `lo` or follows a non-whitespace character. */
  function TrimSpace(s: string, lo: nat, j: nat): (r: nat)
    requires lo <= j <= |s|
    ensures lo <= r <= j
    ensures forall k :: r <= k < j ==> IsSpace(s[k])
    ensures r == lo || !IsSpace(s[r - 1])
    decreases j - lo
  {
    if lo < j && IsSpace(s[j - 1]) then TrimSpace(s, lo, j - 1) else j
  }

  /** Python's `s.strip()`: the part between the leading and the trailing
      whitespace. */
  function Strip(s: string): (r: string)
    ensures |r| <= |s|
    ensures r == [] || (!IsSpace(r[0]) && !IsSpace(r[|r| - 1]))
  {
    var i := SkipSpace(s, 0);
    s[i..TrimSpace(s, i, |s|)]
  }

  /** `Strip(s)` is the slice `s[i..j]` left when the whitespace at both ends
      is cut off, and it neither starts nor ends with whitespace. */
  lemma StripIsTrimmedSlice(s: string) returns (i: nat, j: nat)
    ensures i <= j <= |s| && Strip(s) == s[i..j]
    ensures AllSpace(s[..i]) && AllSpace(s[j..])
    ensures Strip(s) == [] || (!IsSpace(Strip(s)[0]) && !IsSpace(Strip(s)[|Strip(s)| - 1]))
  {
    i := SkipSpace(s, 0);
    j := TrimSpace(s, i, |s|);
    forall k | 0 <= k < i ensures IsSpace(s[..i][k]) {
      assert s[..i][k] == s[k];
    }
    forall k | 0 <= k < |s| - j ensures IsSpace(s[j..][k]) {
      assert s[j..][k] == s[j + k];
    }
    if i < j {
      assert Strip(s)[0] == s[i];
      assert Strip(s)[|Strip(s)| - 1] == s[j - 1];
    }
  }

  /** A stripped string is empty exactly when the original is all whitespace. */
  lemma StripEmptyIffAllSpace(s: string)
    ensures Strip(s) == [] <==> AllSpace(s)
  {
    var i, j := StripIsTrimmedSlice(s);
    if Strip(s) == [] {
      assert i == j;
      forall k | 0 <= k < |s| ensures IsSpace(s[k]) {
        if k < i { assert s[k] == s[..i][k]; } else { assert s[k] == s[j..][k - j]; }
      }
    } else {
      assert s[i] == Strip(s)[0];
    }
  }

  /** Stripping twice is stripping once. */
  lemma StripIdempotent(s: string)
    ensures Strip(Strip(s)) == Strip(s)
  {
    var _, _ := StripIsTrimmedSlice(s);
    var t := Strip(s);
    assert SkipSpace(t, 0) == 0;
    assert TrimSpace(t, 0, |t|) == |t|;
    assert t[0..|t|] == t;
  }

  // ---------------------------------------------------------------------------
  // os.path.basename / os.path.splitext, with '/' as the only separator
  // ---------------------------------------------------------------------------

  /** Index of the last `c` in `s`, or -1 (Python's `str.rfind`). */
  function LastIndexOf(s: string, c: char): (r: int)
    ensures -1 <= r < |s|
    ensures r >= 0 ==> s[r] == c
    ensures forall k :: r < k < |s| ==> s[k] != c
  {
    LastIndexBefore(s, c, |s|)
  }

  /** Index of the last `c` among the first `n` characters of `s`, or -1. */
  function LastIndexBefore(s: string, c: char, n: nat): (r: int)
    requires n <= |s|
    ensures -1 <= r < n
    ensures r >= 0 ==> s[r] == c
    ensures forall k :: r < k < n ==> s[k] != c
  {
    if n == 0 then -1
    else if s[n - 1] == c then n - 1
    else LastIndexBefore(s, c, n - 1)
  }

  /** `os.path.basename(p)`: what follows the last `/`. */
  function Basename(p: string): (r: string)
    ensures |r| <= |p| && r == p[|p| - |r|..]
    ensures '/' !in r
    ensures r == p || p[|p| - |r| - 1] == '/'
  {
    p[LastIndexOf(p, '/') + 1..]
  }

  predicate AllDots(s: string) {
    forall k :: 0 <= k < |s| ==> s[k] == '.'
  }

  /** The part of `os.path.splitext(b)` before the extension, for a `b`
      without separators: `b` is cut at its last dot unless every character
      before that dot is also a dot (so ".bashrc" and "..x" have no
      extension). */
  function SplitStem(b: string): string {
    var d := LastIndexOf(b, '.');
    if d > 0 && !AllDots(b[..d]) then b[..d] else b
  }

  /** `os.path.splitext(os.path.basename(p))[0]`, the name a button gets when
      none was given. */
  function Stem(p: string): (r: string)
    ensures |r| <= |Basename(p)| && r == Basename(p)[..|r|]
    ensures '/' !in r
    ensures |r| < |Basename(p)| <==> exists k :: 0 <= k < |Basename(p)| && CuttableDot(Basename(p), k)
    ensures |r| < |Basename(p)| ==> Basename(p)[|r|] == '.' && '.' !in Basename(p)[|r| + 1..]
  {
    var b := Basename(p);
    SplitStemSplits(b);
    CutPieces(b, |SplitStem(b)|, '/');
    SplitStem(b)
  }

  /** The extension `os.path.splitext` separates off. */
  function Extension(p: string): string {
    Basename(p)[|Stem(p)|..]
  }

  /** A dot at `k` that `splitext` may cut at: something other than a dot
      comes before it. */
  predicate CuttableDot(b: string, k: nat)
    requires k < |b|
  {
    b[k] == '.' && !AllDots(b[..k])
  }

  /** What `splitext` promises of a name without separators: stem and
      extension put together give it back; the extension is empty or is a
      dot followed by no other dot (so the cut is at the last dot); a
      non-empty extension follows a stem that is not only dots; and the
      name is cut exactly when it has a dot with a non-dot before it. */
  lemma SplitStemSplits(b: string)
    ensures |SplitStem(b)| <= |b| && SplitStem(b) == b[..|SplitStem(b)|]
    ensures var e := b[|SplitStem(b)|..];
      e == [] || (e[0] == '.' && '.' !in e[1..] && !AllDots(SplitStem(b)))
    ensures b[|SplitStem(b)|..] != [] <==> exists k :: 0 <= k < |b| && CuttableDot(b, k)
  {
    var d := LastIndexOf(b, '.');
    if d > 0 && !AllDots(b[..d]) {
      var e := b[d..];
      forall k | 0 <= k < |e[1..]| ensures e[1..][k] != '.' {
        assert e[1..][k] == b[d + 1 + k];
      }
      assert CuttableDot(b, d);
    } else {
      forall k | 0 <= k < |b| ensures !CuttableDot(b, k) {
        if b[k] == '.' {
          assert k <= d;
          if k < d {
            forall j | 0 <= j < k ensures b[..k][j] == '.' {
              assert b[..k][j] == b[..d][j];
            }
          }
        }
      }
    }
  }

  /** Cutting a string in two: the pieces put together give it back, and
      a character missing from the string is missing from the first piece. */
  lemma CutPieces(s: string, n: nat, c: char)
    requires n <= |s| && c !in s
    ensures s[..n] + s[n..] == s
    ensures c !in s[..n]
  {
    forall k | 0 <= k < n ensures s[..n][k] != c {
      assert s[..n][k] == s[k];
    }
  }

  /** The stem and extension of a path put together give back its base
      name, with the `splitext` rules above; the stem never contains a
      separator. */
  lemma StemSplitsBasename(p: string)
    ensures |Stem(p)| <= |Basename(p)| && Stem(p) + Extension(p) == Basename(p)
    ensures '/' !in Stem(p)
    ensures Extension(p) == [] || (Extension(p)[0] == '.' && '.' !in Extension(p)[1..])
    ensures Extension(p) != [] ==> !AllDots(Stem(p))
    ensures Extension(p) != [] <==> exists k :: 0 <= k < |Basename(p)| && CuttableDot(Basename(p), k)
  {
    var b := Basename(p);
    SplitStemSplits(b);
    var st := SplitStem(b);
    CutPieces(b, |st|, '/');
    assert Stem(p) == st;
  }

  /** A program at "/a/b/tool.bin" gets the default name "tool". */
  lemma StemOfProgram()
    ensures Stem("/a/b/tool.bin") == "tool"
  {
    var p := "/a/b/tool.bin";
    assert p[4] == '/' && p[5..] == "tool.bin";
    assert Basename(p) == "tool.bin";
    var b := "tool.bin";
    assert b[4] == '.' && b[5] != '.' && b[6] != '.' && b[7] != '.';
    assert LastIndexOf(b, '.') == 4;
    assert b[..4] == "tool" && b[..4][0] != '.';
  }

  /** A name whose only dot leads it has no extension: ".bashrc" keeps its name. */
  lemma StemOfDotFile()
    ensures Stem("/home/u/.bashrc") == ".bashrc"
  {
    var p := "/home/u/.bashrc";
    assert p[7] == '/' && p[8..] == ".bashrc";
    assert Basename(p) == ".bashrc";
    var b := ".bashrc";
    assert b[0] == '.' && forall k :: 0 < k < |b| ==> b[k] != '.';
    assert LastIndexOf(b, '.') == 0;
  }

  // ---------------------------------------------------------------------------
  // str.upper() on one character
  // ---------------------------------------------------------------------------

  predicate IsAsciiLower(c: char) { 'a' <= c <= 'z' }

  /** Upper case of one character; only ASCII letters are mapped. */
  function UpperChar(c: char): (r: char)
    ensures !IsAsciiLower(r)
    ensures IsAsciiLower(c) ==> r as int == c as int - 32
    ensures !IsAsciiLower(c) ==> r == c
  {
    if IsAsciiLower(c) then (c as int - 32) as char else c
  }

  // ---------------------------------------------------------------------------
  // Decimal formatting of a number, as an f-string writes it
  // ---------------------------------------------------------------------------

  predicate IsDigit(c: char) { '0' <= c <= '9' }

  predicate AllDigits(s: string) {
    forall k :: 0 <= k < |s| ==> IsDigit(s[k])
  }

  function DigitChar(d: nat): (c: char)
    requires d < 10
    ensures IsDigit(c) && c as int - '0' as int == d
  {
    ('0' as int + d) as char
  }

  /** The decimal digits of `n`: never empty, only digits, and no leading zero
      except for `0` itself. */
  function Decimal(n: nat): (r: string)
    ensures |r| >= 1 && AllDigits(r)
    ensures r[0] == '0' ==> n == 0
  {
    if n < 10 then [DigitChar(n)] else Decimal(n / 10) + [DigitChar(n % 10)]
  }

  /** The number a string of decimal digits denotes. */
  function DecimalValue(s: string): nat
    requires AllDigits(s)
  {
    if s == [] then 0
    else DecimalValue(s[..|s| - 1]) * 10 + (s[|s| - 1] as int - '0' as int)
  }

  /** Reading back the digits `Decimal` writes gives the number. */
  lemma {:induction false} DecimalRoundTrip(n: nat)
    ensures DecimalValue(Decimal(n)) == n
  {
    if n >= 10 {
      DecimalRoundTrip(n / 10);
      var s := Decimal(n);
      assert s[..|s| - 1] == Decimal(n / 10);
    }
  }

  // ---------------------------------------------------------------------------
  // sep.join(lines) and its inverse
  // ---------------------------------------------------------------------------

  /** Python's `sep.join(lines)` for a one-character separator. */
  function Join(lines: seq<string>, sep: char): (r: string)
    ensures lines == [] ==> r == ""
    ensures lines != [] ==> |lines[0]| <= |r| && r[..|lines[0]|] == lines[0]
    ensures |lines| >= 2 ==> |lines[0]| < |r| && r[|lines[0]|] == sep
  {
    if lines == [] then ""
    else if |lines| == 1 then lines[0]
    else lines[0] + [sep] + Join(lines[1..], sep)
  }

  /** Python's `s.split(sep)` for a one-character separator. */
  function Split(s: string, sep: char): (r: seq<string>)
    ensures |r| >= 1
  {
    if s == [] then [""]
    else
      var rest := Split(s[1..], sep);
      if s[0] == sep then [""] + rest else [[s[0]] + rest[0]] + rest[1..]
  }

  lemma {:induction false} SplitNoSeparator(s: string, sep: char)
    requires sep !in s
    ensures Split(s, sep) == [s]
  {
    if s != [] {
      SplitNoSeparator(s[1..], sep);
      assert [s[0]] + s[1..] == s;
    }
  }

  lemma {:induction false} SplitAtSeparator(a: string, sep: char, t: string)
    requires sep !in a
    ensures Split(a + [sep] + t, sep) == [a] + Split(t, sep)
  {
    if a == [] {
      assert a + [sep] + t == [sep] + t;
      assert ([sep] + t)[1..] == t;
    } else {
      SplitAtSeparator(a[1..], sep, t);
      assert (a + [sep] + t)[1..] == a[1..] + [sep] + t;
      assert [a[0]] + a[1..] == a;
    }
  }

  /** Splitting the joined lines at the separator gives the lines back, when
      no line contains the separator: the joined text has exactly one line
      per element. */
  lemma {:induction false} SplitJoin(lines: seq<string>, sep: char)
    requires |lines| >= 1
    requires forall k :: 0 <= k < |lines| ==> sep !in lines[k]
    ensures Split(Join(lines, sep), sep) == lines
  {
    if |lines| == 1 {
      SplitNoSeparator(lines[0], sep);
    } else {
      SplitJoin(lines[1..], sep);
      SplitAtSeparator(lines[0], sep, Join(lines[1..], sep));
      assert [lines[0]] + lines[1..] == lines;
    }
  }
}
