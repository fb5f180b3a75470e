/** Output path synthesis in `DoParticleExport`: the extension (from the
    last '.') is lower-cased, and a container's children get the path
    base + "_" + child name + "." + frame padded to four digits + extension. */
module Paths {
  import Selection

  /** ASCII lower-casing of one character: A-Z map to a-z, everything else
      is kept. */
  function LowerChar(c: char): (r: char)
    ensures 'A' <= c <= 'Z' ==> 'a' <= r <= 'z' && r as int - c as int == 32
    ensures !('A' <= c <= 'Z') ==> r == c
  {
    if 'A' <= c <= 'Z' then (c as int + 32) as char else c
  }

  function Lower(s: string): (r: string)
    ensures |r| == |s|
    ensures forall j :: 0 <= j < |s| ==> r[j] == LowerChar(s[j])
  {
    seq(|s|, j requires 0 <= j < |s| => LowerChar(s[j]))
  }

  /** No A-Z letter occurs in `s`. */
  predicate NoUpper(s: string) {
    forall j :: 0 <= j < |s| ==> !('A' <= s[j] <= 'Z')
  }

  /** The position of the last '.' of a name that has one. */
  function LastDot(s: string): (k: nat)
    requires '.' in s
    ensures k < |s| && s[k] == '.'
    ensures forall j :: k < j < |s| ==> s[j] != '.'
  {
    if s[|s| - 1] == '.' then |s| - 1
    else
      assert '.' in s[..|s| - 1] by {
        var i :| 0 <= i < |s| && s[i] == '.';
        assert s[..|s| - 1][i] == '.';
      }
      LastDot(s[..|s| - 1])
  }

  /** A file name cut at its last '.': the base unchanged and the extension
      (starting with the '.') lower-cased. */
  datatype FileName = FileName(base: string, ext: string)

  function SplitExtension(fileName: string): (f: FileName)
    requires '.' in fileName
    ensures f.base == fileName[..LastDot(fileName)]
    ensures |f.base| + |f.ext| == |fileName|
    ensures f.ext[0] == '.' && '.' !in f.ext[1..]
    ensures NoUpper(f.ext)
    ensures forall j :: 0 <= j < |f.ext| ==> f.ext[j] == LowerChar(fileName[|f.base| + j])
  {
    var k := LastDot(fileName);
    var ext := Lower(fileName[k..]);
    assert '.' !in ext[1..] by {
      forall j | 1 <= j < |ext|
        ensures ext[j] != '.'
      {
        assert ext[j] == LowerChar(fileName[k + j]);
      }
    }
    FileName(fileName[..k], ext)
  }

  /** The name a single-primitive export writes to: base and lower-cased
      extension joined again. */
  function Normalize(fileName: string): (r: string)
    requires '.' in fileName
    ensures |r| == |fileName|
    ensures r[..LastDot(fileName)] == fileName[..LastDot(fileName)]
    ensures r[LastDot(fileName)..] == Lower(fileName[LastDot(fileName)..])
  {
    var f := SplitExtension(fileName);
    f.base + f.ext
  }

  /** Normalising keeps the base and the position of the last '.', and a
      normalised name is its own normalisation. */
  lemma NormalizeIdempotent(fileName: string)
    requires '.' in fileName
    ensures var r := Normalize(fileName);
      && '.' in r
      && SplitExtension(r) == SplitExtension(fileName)
      && Normalize(r) == r
  {
    var f := SplitExtension(fileName);
    var r := f.base + f.ext;
    var k := |f.base|;
    assert Normalize(fileName) == r;
    assert r[..k] == f.base && r[k..] == f.ext;
    assert LastDot(r) == k by {
      forall j | k < j < |r|
        ensures r[j] != '.'
      {
        assert r[j] == f.ext[j - k] == f.ext[1..][j - k - 1];
      }
      LastDotUnique(r, k);
    }
    assert SplitExtension(r) == f by {
      LowerNoUpper(f.ext);
    }
  }

  /** Lower-casing a string without A-Z letters changes nothing. */
  lemma LowerNoUpper(s: string)
    requires NoUpper(s)
    ensures Lower(s) == s
  {
  }

  /** A '.' with no '.' after it is the last one. */
  lemma LastDotUnique(s: string, k: nat)
    requires k < |s| && s[k] == '.'
    requires forall j :: k < j < |s| ==> s[j] != '.'
    ensures LastDot(s) == k
  {
  }

  /** The characters of decimal digits. */
  predicate IsDigit(c: char) {
    '0' <= c <= '9'
  }

  predicate AllDigits(s: string) {
    forall j :: 0 <= j < |s| ==> IsDigit(s[j])
  }

  function DigitChar(d: nat): (c: char)
    requires d < 10
    ensures IsDigit(c)
  {
    ('0' as int + d) as char
  }

  /** The decimal digits of `n`, most significant first, without leading
      zeros. */
  function Digits(n: nat): (s: string)
    ensures |s| >= 1 && AllDigits(s)
    ensures n >= 10 ==> s[0] != '0'
  {
    if n < 10 then [DigitChar(n)] else Digits(n / 10) + [DigitChar(n % 10)]
  }

  /** The number a string of decimal digits denotes. */
  function DecimalValue(s: string): nat
    requires AllDigits(s)
  {
    if s == [] then 0
    else 10 * DecimalValue(s[..|s| - 1]) + (s[|s| - 1] as int - '0' as int)
  }

  function Zeros(k: nat): (s: string)
    ensures |s| == k && AllDigits(s)
    ensures forall j :: 0 <= j < k ==> s[j] == '0'
  {
    seq(k, _ => '0')
  }

  /** `%04d` of a non-negative number: its digits, left-padded with zeros to
      four characters. */
  function Pad4(n: nat): (s: string)
    ensures AllDigits(s)
    ensures |s| >= 4 && (n < 10000 ==> |s| == 4)
    ensures DecimalValue(s) == n
    ensures n >= 10000 ==> s == Digits(n)
  {
    var d := Digits(n);
    DigitsRoundTrip(n);
    FourDigits(n);
    LongDigits(n);
    var z := Zeros(if |d| < 4 then 4 - |d| else 0);
    LeadingZeros(z, d);
    z + d
  }

  /** Reading the digits of `n` gives `n` back. */
  lemma {:induction false} DigitsRoundTrip(n: nat)
    ensures DecimalValue(Digits(n)) == n
  {
    if n >= 10 {
      DigitsRoundTrip(n / 10);
      var s := Digits(n);
      assert s[..|s| - 1] == Digits(n / 10);
    }
  }

  function Pow10(k: nat): (p: nat)
    ensures p >= 1
  {
    if k == 0 then 1 else 10 * Pow10(k - 1)
  }

  /** Numbers below 10^k have at most k digits. */
  lemma {:induction false} DigitsLength(n: nat, k: nat)
    requires 1 <= k && n < Pow10(k)
    ensures |Digits(n)| <= k
    decreases k
  {
    if n >= 10 {
      assert k >= 2;
      assert n / 10 < Pow10(k - 1);
      DigitsLength(n / 10, k - 1);
    }
  }

  /** Numbers of at least 10^(k-1) have at least k digits. */
  lemma {:induction false} DigitsLengthAtLeast(n: nat, k: nat)
    requires 1 <= k && Pow10(k - 1) <= n
    ensures |Digits(n)| >= k
    decreases k
  {
    if k > 1 {
      assert Pow10(k - 1) == 10 * Pow10(k - 2);
      assert Pow10(k - 2) <= n / 10;
      DigitsLengthAtLeast(n / 10, k - 1);
    }
  }

  lemma LongDigits(n: nat)
    ensures n >= 10000 ==> |Digits(n)| >= 5
  {
    if n >= 10000 {
      assert Pow10(4) == 10000;
      DigitsLengthAtLeast(n, 5);
    }
  }

  lemma FourDigits(n: nat)
    ensures n < 10000 ==> |Digits(n)| <= 4
  {
    if n < 10000 {
      assert Pow10(4) == 10000;
      DigitsLength(n, 4);
    }
  }

  /** Leading zeros do not change the value of a digit string. */
  lemma {:induction false} LeadingZeros(z: string, s: string)
    requires AllDigits(z) && AllDigits(s)
    requires forall j :: 0 <= j < |z| ==> z[j] == '0'
    ensures AllDigits(z + s)
    ensures DecimalValue(z + s) == DecimalValue(s)
    decreases |s|
  {
    if s == [] {
      assert z + s == z;
      ZerosValue(z);
    } else {
      LeadingZeros(z, s[..|s| - 1]);
      assert (z + s)[..|z + s| - 1] == z + s[..|s| - 1];
    }
  }

  lemma {:induction false} ZerosValue(z: string)
    requires forall j :: 0 <= j < |z| ==> z[j] == '0'
    ensures AllDigits(z) && DecimalValue(z) == 0
    decreases |z|
  {
    if z != [] {
      ZerosValue(z[..|z| - 1]);
    }
  }

  /** The path of one child of a container export. */
  function ChildPath(f: FileName, childName: string, frame: nat): (p: string)
    ensures |p| == |f.base| + |childName| + 2 + |Pad4(frame)| + |f.ext|
    ensures p[..|f.base|] == f.base
    ensures p[|f.base|..|f.base| + 1 + |childName| + 1] == "_" + childName + "."
    ensures p[|f.base| + |childName| + 2..|p| - |f.ext|] == Pad4(frame)
    ensures p[|p| - |f.ext|..] == f.ext
  {
    var sep := "_" + childName + ".";
    var head := f.base + sep;
    var p := head + Pad4(frame) + f.ext;
    assert p[..|head|] == head;
    assert p[..|f.base|] == head[..|f.base|] == f.base;
    assert p[|f.base|..|head|] == head[|f.base|..] == sep;
    assert p[|head|..|p| - |f.ext|] == Pad4(frame);
    assert p[|p| - |f.ext|..] == f.ext;
    p
  }

  /** A child path determines its child and its frame, when child names
      hold no '.': distinct children, or distinct frames of one child, are
      written to distinct files. */
  lemma ChildPathInjective(f: FileName, c1: string, fr1: nat, c2: string, fr2: nat)
    requires '.' !in c1 && '.' !in c2
    requires ChildPath(f, c1, fr1) == ChildPath(f, c2, fr2)
    ensures c1 == c2 && fr1 == fr2
  {
    ChildPathParse(f, c1, fr1);
    ChildPathParse(f, c2, fr2);
    assert c1 == c2;
    assert Pad4(fr1) == Pad4(fr2);
  }

  /** The child name a path holds after the base of `b` characters: up to
      the next '.'. */
  function ChildNameOf(p: string, b: nat): string
    requires b < |p|
  {
    p[b + 1..b + 1 + Selection.IndexOf(p[b + 1..], '.')]
  }

  /** The child name and the frame text can be read back from a child path. */
  lemma ChildPathParse(f: FileName, c: string, fr: nat)
    requires '.' !in c
    ensures var p := ChildPath(f, c, fr);
      && ChildNameOf(p, |f.base|) == c
      && p[|f.base| + |c| + 2..|p| - |f.ext|] == Pad4(fr)
  {
    var p := ChildPath(f, c, fr);
    ChildNameBeforeDot(p, |f.base|, c);
  }

  /** The child name is what lies between the "_" at `b` and the next '.'. */
  lemma ChildNameBeforeDot(p: string, b: nat, c: string)
    requires '.' !in c
    requires b + |c| + 2 <= |p| && p[b..b + 1 + |c| + 1] == "_" + c + "."
    ensures Selection.IndexOf(p[b + 1..], '.') == |c|
    ensures p[b + 1..b + 1 + Selection.IndexOf(p[b + 1..], '.')] == c
  {
    var t := p[b + 1..];
    var seg := p[b..b + 1 + |c| + 1];
    forall j | 0 <= j < |c|
      ensures t[j] == c[j] && t[j] != '.'
    {
      assert t[j] == seg[1 + j];
      assert seg[1 + j] == ("_" + c + ".")[1 + j] == c[j];
    }
    assert t[|c|] == seg[1 + |c|] == '.';
    Selection.IndexOfPrefix(t, '.', |c|);
    assert p[b + 1..b + 1 + |c|] == t[..|c|];
  }

  /** Base "foo", child "bar", frame 7 and extension ".GEO" give
      "foo_bar.0007.geo". */
  lemma ChildPathExample()
    ensures SplitExtension("foo.GEO") == FileName("foo", ".geo")
    ensures ChildPath(FileName("foo", ".geo"), "bar", 7) == "foo_bar.0007.geo"
  {
    assert Digits(7) == "7";
    assert Zeros(3) == "000";
    assert Pad4(7) == "0007";
    assert "foo" + "_" + "bar" + "." == "foo_bar.";
    assert "foo_bar." + "0007" + ".geo" == "foo_bar.0007.geo";
  }
}
