/** The parts of `std::string` the BND reader relies on: `find`, `find_first_of`
    with one character, `substr`, and the `npos` sentinel with 64-bit `size_t`
    wrap-around (so `npos + 1 == 0`). */
module CppString {

  /** std::string::npos for a 64-bit size_t. */
  const NPOS: nat := 0xFFFF_FFFF_FFFF_FFFF
  const SIZE_MODULUS: nat := 0x1_0000_0000_0000_0000

  /** Every std::string is shorter than npos (max_size() < npos), so an index
      returned by `find` can never be mistaken for the sentinel. */
  type CppStr = s: string | |s| < NPOS witness ""

  /** A value of `size_t`. */
  type SizeT = n: nat | n < SIZE_MODULUS

  /** `a + 1` computed in size_t: only npos wraps around. */
  function SizeInc(a: nat): (r: nat)
    requires a <= NPOS
    ensures r < SIZE_MODULUS
  {
    if a == NPOS then 0 else a + 1
  }

  /** `SizeInc` is addition modulo 2^64. */
  lemma {:induction false} SizeIncIsModular(a: nat)
    requires a <= NPOS
    ensures SizeInc(a) == (a + 1) % SIZE_MODULUS
  {
  }

  predicate OccursAt(s: string, pat: string, i: nat) {
    i + |pat| <= |s| && s[i..i + |pat|] == pat
  }

  /** `s.find(pat, i)`: npos or a position at or after `i` where `pat` fits
      (what it finds is stated by `FindFromFirst`). */
  function FindFrom(s: CppStr, pat: string, i: nat): (r: nat)
    ensures r == NPOS || (i <= r && r + |pat| <= |s|)
    decreases |s| - i
  {
    if i + |pat| > |s| then NPOS
    else if s[i..i + |pat|] == pat then i
    else FindFrom(s, pat, i + 1)
  }

  /** The search from `i` stops at the first occurrence of `pat` at or after
      `i`, and answers npos only when there is none. */
  lemma {:induction false} FindFromFirst(s: CppStr, pat: string, i: nat)
    ensures var r := FindFrom(s, pat, i);
            && (r == NPOS || OccursAt(s, pat, r))
            && (forall j :: i <= j < r ==> !OccursAt(s, pat, j))
            && (r == NPOS ==> forall j :: i <= j ==> !OccursAt(s, pat, j))
    decreases |s| - i
  {
    if i + |pat| <= |s| && s[i..i + |pat|] != pat {
      FindFromFirst(s, pat, i + 1);
    }
  }

  /** `s.find(pat)`. */
  function Find(s: CppStr, pat: string): (r: nat)
    ensures r == NPOS || r + |pat| <= |s|
  {
    FindFrom(s, pat, 0)
  }

  /** `s.find(c, i)` and `s.find_first_of(c, i)` for a single character `c`:
      npos or an index at or after `i` (what it finds is stated by
      `FindCharFromFirst`). */
  function FindCharFrom(s: CppStr, c: char, i: nat): (r: nat)
    requires i <= |s|
    ensures r == NPOS || i <= r < |s|
    decreases |s| - i
  {
    if i == |s| then NPOS
    else if s[i] == c then i
    else FindCharFrom(s, c, i + 1)
  }

  /** `s.find(c)` and `s.find_first_of(c)`. */
  function FindChar(s: CppStr, c: char): (r: nat)
    ensures r == NPOS || r < |s|
  {
    FindCharFrom(s, c, 0)
  }

  /** The search from `i` stops at an occurrence of `c`, and no `c` lies
      between `i` and where it stops (npos included). */
  lemma {:induction false} FindCharFromFirst(s: CppStr, c: char, i: nat)
    requires i <= |s|
    ensures var r := FindCharFrom(s, c, i);
            (r == NPOS || s[r] == c) && forall j :: i <= j < |s| && j < r ==> s[j] != c
    decreases |s| - i
  {
    if i < |s| && s[i] != c {
      FindCharFromFirst(s, c, i + 1);
    }
  }

  /** The search fails exactly when `c` is absent, and otherwise stops at an
      index before which `c` is absent. */
  lemma {:induction false} FindCharMembership(s: CppStr, c: char)
    ensures FindChar(s, c) == NPOS <==> c !in s
    ensures FindChar(s, c) != NPOS ==> s[FindChar(s, c)] == c && c !in s[..FindChar(s, c)]
  {
    var r := FindChar(s, c);
    FindCharFromFirst(s, c, 0);
    if r != NPOS {
      assert s[r] == c;
      assert forall j :: 0 <= j < r ==> s[..r][j] == s[j];
    }
  }

  /** The character search is the substring search for a one-character
      pattern. */
  lemma {:induction false} FindCharIsFind(s: CppStr, c: char)
    ensures FindChar(s, c) == Find(s, [c])
  {
    var r := Find(s, [c]);
    FindCharFromFirst(s, c, 0);
    FindFromFirst(s, [c], 0);
    forall j: nat | j + 1 <= |s| ensures OccursAt(s, [c], j) <==> s[j] == c {
      assert s[j..j + 1] == [s[j]];
    }
    if r != NPOS {
      forall j | 0 <= j < r ensures s[..r][j] != c {
        assert !OccursAt(s, [c], j);
      }
    }
  }

  /** `s.substr(pos, n)`; the source never calls it with `pos > s.size()`,
      which would throw `std::out_of_range`. */
  function Substr(s: string, pos: nat, n: nat): (r: string)
    requires pos <= |s|
    ensures |r| <= |s| - pos
    ensures r == s[pos..pos + |r|]
    ensures |r| == if n < |s| - pos then n else |s| - pos
  {
    s[pos..pos + (if n < |s| - pos then n else |s| - pos)]
  }

  /** `find` reports position 0 exactly when the string starts with `pat`. */
  lemma {:induction false} FindZeroIsPrefix(s: CppStr, pat: string)
    ensures Find(s, pat) == 0 <==> |pat| <= |s| && s[..|pat|] == pat
  {
    FindFromFirst(s, pat, 0);
    if |pat| <= |s| && s[..|pat|] == pat {
      assert OccursAt(s, pat, 0);
    }
  }

  /** The first `c` in `a + [c] + b` is at `|a|` when `a` holds no `c`. */
  lemma {:induction false} FindCharAfter(a: string, c: char, b: string)
    requires c !in a
    requires |a + [c] + b| < NPOS
    ensures FindChar(a + [c] + b, c) == |a|
  {
    var s: CppStr := a + [c] + b;
    FindCharFromFirst(s, c, 0);
    assert forall j :: 0 <= j < |a| ==> s[j] == a[j];
    assert s[|a|] == c;
  }
}
