/**
 * The JavaScript string operations the core relies on: `String.prototype.trim`
 * (the schemas' `trim: true`), lower-casing (`lowercase: true`) and
 * `String.prototype.replace` with a string pattern, which replaces only the
 * first occurrence.
 */
module Text {
  import opened Wrappers

  /** The WhiteSpace and LineTerminator code points that `trim` removes. */
  predicate IsSpace(c: char) {
    var n := c as int;
    n == 0x09 || n == 0x0A || n == 0x0B || n == 0x0C || n == 0x0D || n == 0x20
    || n == 0xA0 || n == 0x1680 || (0x2000 <= n <= 0x200A)
    || n == 0x2028 || n == 0x2029 || n == 0x202F || n == 0x205F || n == 0x3000 || n == 0xFEFF
  }

  /** The number of white-space characters at the start of `s`. */
  function LeadingSpaces(s: string): (k: nat)
    ensures k <= |s|
    ensures forall j :: 0 <= j < k ==> IsSpace(s[j])
    ensures k < |s| ==> !IsSpace(s[k])
  {
    if |s| == 0 || !IsSpace(s[0]) then 0 else 1 + LeadingSpaces(s[1..])
  }

  /** The number of white-space characters at the end of `s`. */
  function TrailingSpaces(s: string): (k: nat)
    ensures k <= |s|
    ensures forall j :: |s| - k <= j < |s| ==> IsSpace(s[j])
    ensures k < |s| ==> !IsSpace(s[|s| - k - 1])
  {
    if |s| == 0 || !IsSpace(s[|s| - 1]) then 0 else 1 + TrailingSpaces(s[..|s| - 1])
  }

  /** `s` without its leading white space. */
  function TrimStart(s: string): (r: string)
    ensures r == [] || !IsSpace(r[0])
    ensures |r| <= |s|
  {
    s[LeadingSpaces(s)..]
  }

  /** `s` without its trailing white space. */
  function TrimEnd(s: string): (r: string)
    ensures r == [] || !IsSpace(r[|r| - 1])
    ensures |r| <= |s| && r == s[..|r|]
  {
    s[..|s| - TrailingSpaces(s)]
  }

  /** `s` without its leading and trailing white space (`trim`). */
  function Trim(s: string): (r: string)
    ensures r == [] || (!IsSpace(r[0]) && !IsSpace(r[|r| - 1]))
    ensures |r| <= |s|
    ensures LeadingSpaces(s) + |r| <= |s| && r == s[LeadingSpaces(s)..LeadingSpaces(s) + |r|]
    ensures Blank(s[..LeadingSpaces(s)]) && Blank(s[LeadingSpaces(s) + |r|..])
  {
    var t := TrimStart(s);
    var r := TrimEnd(t);
    assert r == [] || r[0] == t[0];
    TrimSlice(s);
    r
  }

  /** The two halves of `trim` leave the slice of `s` after its leading white space, with only white space after it. */
  lemma TrimSlice(s: string)
    ensures var a := LeadingSpaces(s); var r := TrimEnd(TrimStart(s));
      && a + |r| <= |s| && r == s[a..a + |r|] && Blank(s[..a]) && Blank(s[a + |r|..])
  {
    var a := LeadingSpaces(s);
    var t := TrimStart(s);
    var r := TrimEnd(t);
    assert t == s[a..] && r == s[a..a + |r|];
    assert s[a + |r|..] == t[|r|..];
  }

  /** `s` holds white space only. */
  predicate Blank(s: string) {
    forall j :: 0 <= j < |s| ==> IsSpace(s[j])
  }

  /** Trimming leaves nothing exactly when `s` holds white space only. */
  lemma TrimBlank(s: string)
    ensures Trim(s) == [] <==> Blank(s)
  {
    var a := LeadingSpaces(s);
    var t := TrimStart(s);
    if Blank(s) {
      assert a == |s|;
    }
    if Trim(s) == [] && t != [] {
      assert false;
    }
  }

  /** A string with no white space at either end is its own trim. */
  lemma TrimTrimmed(s: string)
    requires s == [] || (!IsSpace(s[0]) && !IsSpace(s[|s| - 1]))
    ensures Trim(s) == s
  {
    if s != [] {
      assert LeadingSpaces(s) == 0;
      assert s[0..] == s;
      assert TrailingSpaces(s) == 0;
      assert s[..|s|] == s;
    }
  }

  /** `trim` is idempotent: a stored, trimmed value trims to itself. */
  lemma TrimIdempotent(s: string)
    ensures Trim(Trim(s)) == Trim(s)
  {
    TrimTrimmed(Trim(s));
  }

  /** Lower-casing of the ASCII capitals; other characters are kept. */
  function LowerChar(c: char): (d: char)
    ensures 'A' <= c <= 'Z' ==> 'a' <= d <= 'z' && d as int == c as int + 32
    ensures !('A' <= c <= 'Z') ==> d == c
  {
    if 'A' <= c <= 'Z' then (c as int + 32) as char else c
  }

  function Lower(s: string): (r: string)
    ensures |r| == |s|
    ensures forall j :: 0 <= j < |s| ==> r[j] == LowerChar(s[j])
  {
    seq(|s|, j requires 0 <= j < |s| => LowerChar(s[j]))
  }

  lemma LowerIdempotent(s: string)
    ensures Lower(Lower(s)) == Lower(s)
  {
  }

  /** `Lower(Trim(s))` is the lower-cased middle of `s` between white space at either end. */
  lemma LowerOfTrim(s: string)
    ensures var r := Lower(Trim(s));
      exists a :: 0 <= a <= |s| - |r| && Blank(s[..a]) && Blank(s[a + |r|..])
        && forall i :: 0 <= i < |r| ==> r[i] == LowerChar(s[a + i])
  {
    LowerMiddle(s, Trim(s), LeadingSpaces(s));
  }

  /** Lower-casing a slice `t` of `s` that has only white space around it. */
  lemma LowerMiddle(s: string, t: string, a: nat)
    requires a + |t| <= |s| && t == s[a..a + |t|]
    requires Blank(s[..a]) && Blank(s[a + |t|..])
    ensures var r := Lower(t);
      exists b :: 0 <= b <= |s| - |r| && Blank(s[..b]) && Blank(s[b + |r|..])
        && forall i :: 0 <= i < |r| ==> r[i] == LowerChar(s[b + i])
  {
    var r := Lower(t);
    forall i | 0 <= i < |r| ensures r[i] == LowerChar(s[a + i]) {
      assert t[i] == s[a + i];
    }
  }

  /** `Lower(Trim(s))` is its own trim and its own lower-casing. */
  lemma LowerOfTrimNormal(s: string)
    ensures Trim(Lower(Trim(s))) == Lower(Trim(s)) && Lower(Lower(Trim(s))) == Lower(Trim(s))
  {
    TrimIdempotent(s);
    TrimLowerCommute(Trim(s));
    LowerIdempotent(Trim(s));
  }

  /** Lower-casing does not touch white space, so the two setters commute. */
  lemma LowerKeepsSpaces(s: string)
    ensures LeadingSpaces(Lower(s)) == LeadingSpaces(s)
    ensures TrailingSpaces(Lower(s)) == TrailingSpaces(s)
  {
    LowerKeepsLeading(s);
    LowerKeepsTrailing(s);
  }

  lemma {:induction false} LowerKeepsLeading(s: string)
    ensures LeadingSpaces(Lower(s)) == LeadingSpaces(s)
  {
    if |s| > 0 {
      assert Lower(s)[1..] == Lower(s[1..]);
      LowerKeepsLeading(s[1..]);
    }
  }

  lemma {:induction false} LowerKeepsTrailing(s: string)
    ensures TrailingSpaces(Lower(s)) == TrailingSpaces(s)
  {
    if |s| > 0 {
      assert Lower(s)[..|s| - 1] == Lower(s[..|s| - 1]);
      LowerKeepsTrailing(s[..|s| - 1]);
    }
  }

  lemma LowerSlice(s: string, i: nat, j: nat)
    requires i <= j <= |s|
    ensures Lower(s)[i..j] == Lower(s[i..j])
  {
  }

  lemma TrimStartLower(s: string)
    ensures TrimStart(Lower(s)) == Lower(TrimStart(s))
  {
    LowerKeepsSpaces(s);
    LowerSlice(s, LeadingSpaces(s), |s|);
  }

  lemma TrimEndLower(s: string)
    ensures TrimEnd(Lower(s)) == Lower(TrimEnd(s))
  {
    LowerKeepsSpaces(s);
    LowerSlice(s, 0, |s| - TrailingSpaces(s));
  }

  lemma TrimLowerCommute(s: string)
    ensures Trim(Lower(s)) == Lower(Trim(s))
  {
    TrimStartLower(s);
    TrimEndLower(TrimStart(s));
  }

  // ---------------------------------------------------------------------------
  // First-occurrence replacement

  predicate OccursAt(s: string, pat: string, j: int) {
    0 <= j && j + |pat| <= |s| && forall k :: 0 <= k < |pat| ==> s[j + k] == pat[k]
  }

  /** The index of the first occurrence of `pat` in `s` (`indexOf`), or None. */
  function IndexOf(s: string, pat: string): (r: Option<nat>)
    ensures r.Some? ==> OccursAt(s, pat, r.value)
    ensures r.Some? ==> forall j :: 0 <= j < r.value ==> !OccursAt(s, pat, j)
    ensures r.None? <==> forall j :: 0 <= j <= |s| ==> !OccursAt(s, pat, j)
  {
    if |s| < |pat| then None
    else if OccursAt(s, pat, 0) then Some(0)
    else
      assert forall j :: 1 <= j <= |s| ==> (OccursAt(s, pat, j) <==> OccursAt(s[1..], pat, j - 1));
      match IndexOf(s[1..], pat)
      case None => None
      case Some(j) =>
        assert OccursAt(s, pat, j + 1);
        Some(j + 1)
  }

  /** `s.replace(pat, rep)` for a string pattern: only the first occurrence is replaced. */
  function ReplaceFirst(s: string, pat: string, rep: string): (r: string)
    ensures IndexOf(s, pat).None? ==> r == s
    ensures IndexOf(s, pat).Some? ==>
      var j := IndexOf(s, pat).value;
      r == s[..j] + rep + s[j + |pat|..]
  {
    match IndexOf(s, pat)
    case None => s
    case Some(j) => s[..j] + rep + s[j + |pat|..]
  }
}
