/** The few Python string and path operations the PackBacker job logic uses:
    `str.find`, slicing from an index, `str.strip()`, `str.lower()` and
    `os.path.join` on POSIX. */
module PyText {
  import Text

  /** `s.startswith(pat)` at index `i`. */
  predicate OccursAt(s: string, pat: string, i: nat) {
    i + |pat| <= |s| && s[i..i + |pat|] == pat
  }

  /** `s.find(pat, i)` for `i <= |s|`: the first index at or after `i`. */
  function FindFrom(s: string, pat: string, i: nat): (r: int)
    requires i <= |s|
    ensures r == -1 || (i <= r && OccursAt(s, pat, r))
    ensures r == -1 <==> forall j :: i <= j <= |s| ==> !OccursAt(s, pat, j)
    ensures r != -1 ==> forall j :: i <= j < r ==> !OccursAt(s, pat, j)
    decreases |s| - i
  {
    if OccursAt(s, pat, i) then i
    else if i == |s| then -1
    else FindFrom(s, pat, i + 1)
  }

  /** `s.find(pat)`: the first index at which `pat` occurs, or -1. */
  function Find(s: string, pat: string): (r: int)
    ensures r == -1 <==> forall j :: 0 <= j <= |s| ==> !OccursAt(s, pat, j)
    ensures r != -1 ==> 0 <= r && OccursAt(s, pat, r) && forall j :: 0 <= j < r ==> !OccursAt(s, pat, j)
  {
    FindFrom(s, pat, 0)
  }

  /** `s[i:]` for a non-negative `i`: empty when `i` is past the end. */
  function SliceFrom(s: string, i: nat): (r: string)
    ensures i <= |s| ==> r == s[i..]
    ensures i >= |s| ==> r == ""
  {
    if i <= |s| then s[i..] else ""
  }

  /** `c.isspace()`: the characters Python treats as whitespace. */
  predicate IsSpace(c: char) {
    ('\t' <= c <= '\r') || ('\U{1c}' <= c <= ' ') || c == '\U{85}' || c == '\U{a0}'
    || c == '\U{1680}' || ('\U{2000}' <= c <= '\U{200a}') || c == '\U{2028}' || c == '\U{2029}'
    || c == '\U{202f}' || c == '\U{205f}' || c == '\U{3000}'
  }

  /** `s.lstrip()`. */
  function StripLeft(s: string): string {
    if s != [] && IsSpace(s[0]) then StripLeft(s[1..]) else s
  }

  /** `s.rstrip()`. */
  function StripRight(s: string): string {
    if s != [] && IsSpace(s[|s| - 1]) then StripRight(s[..|s| - 1]) else s
  }

  /** `s.strip()`. */
  function Strip(s: string): string {
    StripRight(StripLeft(s))
  }

  /** The number of characters `lstrip()` removes. */
  function LeadingSpaces(s: string): nat {
    if s != [] && IsSpace(s[0]) then 1 + LeadingSpaces(s[1..]) else 0
  }

  /** The number of characters `rstrip()` removes. */
  function TrailingSpaces(s: string): nat
    decreases |s|
  {
    if s != [] && IsSpace(s[|s| - 1]) then 1 + TrailingSpaces(s[..|s| - 1]) else 0
  }

  /** `lstrip()` drops exactly the leading run of whitespace. */
  lemma {:induction false} StripLeftIsSuffix(s: string)
    ensures var i := LeadingSpaces(s);
            && i <= |s| && StripLeft(s) == s[i..]
            && (forall k :: 0 <= k < i ==> IsSpace(s[k]))
            && (i < |s| ==> !IsSpace(s[i]))
  {
    if s != [] && IsSpace(s[0]) {
      var t := s[1..];
      StripLeftIsSuffix(t);
      var i := LeadingSpaces(t);
      assert s[i + 1..] == t[i..];
      forall k | 0 <= k < i + 1 ensures IsSpace(s[k]) {
        if k > 0 { assert s[k] == t[k - 1]; }
      }
    }
  }

  /** `rstrip()` drops exactly the trailing run of whitespace. */
  lemma {:induction false} StripRightIsPrefix(s: string)
    ensures var j := |s| - TrailingSpaces(s);
            && 0 <= j && StripRight(s) == s[..j]
            && (forall k :: j <= k < |s| ==> IsSpace(s[k]))
            && (0 < j ==> !IsSpace(s[j - 1]))
    decreases |s|
  {
    if s != [] && IsSpace(s[|s| - 1]) {
      var t := s[..|s| - 1];
      StripRightIsPrefix(t);
      var j := |t| - TrailingSpaces(t);
      assert t[..j] == s[..j];
      forall k | j <= k < |s| ensures IsSpace(s[k]) {
        if k < |t| { assert s[k] == t[k]; }
      }
    } else {
      assert s == s[..|s|];
    }
  }

  /** `strip()` removes exactly the leading and trailing whitespace: the result
      is a slice of the input bounded by non-space characters (or empty), and
      everything cut off is whitespace. */
  lemma {:induction false} StripIsTrimmedSlice(s: string)
    ensures exists i, j :: 0 <= i <= j <= |s| && Strip(s) == s[i..j]
                           && (forall k :: 0 <= k < i ==> IsSpace(s[k]))
                           && (forall k :: j <= k < |s| ==> IsSpace(s[k]))
                           && (i < j ==> !IsSpace(s[i]) && !IsSpace(s[j - 1]))
  {
    StripLeftIsSuffix(s);
    var i := LeadingSpaces(s);
    var t := s[i..];
    StripRightIsPrefix(t);
    var j := |t| - TrailingSpaces(t);
    assert Strip(s) == s[i..i + j] by {
      assert t[..j] == s[i..i + j];
    }
    forall k | i + j <= k < |s| ensures IsSpace(s[k]) {
      assert s[k] == t[k - i];
    }
    if 0 < j {
      assert s[i] == t[0];
      assert s[i + j - 1] == t[j - 1];
    }
    assert 0 <= i <= i + j <= |s| && Strip(s) == s[i..i + j];
  }

  /** A string without whitespace at either end is left as it is. */
  lemma {:induction false} StripKeepsTrimmed(s: string)
    requires s == [] || (!IsSpace(s[0]) && !IsSpace(s[|s| - 1]))
    ensures Strip(s) == s
  {
  }

  /** `c.lower()` on ASCII letters. */
  function LowerChar(c: char): char {
    if 'A' <= c <= 'Z' then (c as int + 32) as char else c
  }

  /** `s.lower()`, character by character. */
  function Lower(s: string): (r: string)
  {
    seq(|s|, i requires 0 <= i < |s| => LowerChar(s[i]))
  }

  /** Lowering works position by position, so it commutes with taking a
      prefix, and it leaves no upper-case letter. */
  lemma {:induction false} LowerPrefix(s: string, n: nat)
    requires n <= |s|
    ensures Lower(s)[..n] == Lower(s[..n])
    ensures forall i :: 0 <= i < |s| ==> !('A' <= Lower(s)[i] <= 'Z')
  {
    assert |Lower(s)[..n]| == |Lower(s[..n])|;
    forall i | 0 <= i < n ensures Lower(s)[..n][i] == Lower(s[..n])[i] {
      assert s[..n][i] == s[i];
    }
  }

  /** `os.path.join(a, b)` on POSIX: an absolute `b` replaces `a`, and a
      separator is added unless `a` is empty or already ends with one. */
  function PathJoin(a: string, b: string): (r: string)
  {
    if Text.StartsWith(b, "/") then b
    else if a == [] || a[|a| - 1] == '/' then a + b
    else a + "/" + b
  }

  /** Joining relative names onto a directory without a trailing slash puts
      one slash between each part. */
  lemma {:induction false} PathJoinRelative(a: string, b: string, c: string)
    requires a != [] && a[|a| - 1] != '/'
    requires b != [] && b[0] != '/' && b[|b| - 1] != '/'
    requires c != [] && c[0] != '/'
    ensures PathJoin(PathJoin(a, b), c) == a + "/" + b + "/" + c
  {
    assert !Text.StartsWith(b, "/") by { assert b[..1] == [b[0]]; }
    assert !Text.StartsWith(c, "/") by { assert c[..1] == [c[0]]; }
    var ab := a + "/" + b;
    assert ab[|ab| - 1] == b[|b| - 1];
  }
}
