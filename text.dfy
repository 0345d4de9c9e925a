/**
 * String helpers shared by every route: JavaScript's `trim`, ASCII upper-casing,
 * the label normalisation `(s ?? '').trim().toUpperCase()`, case-insensitive
 * comparison and substring search.
 */
module Text {
  import opened Wrappers

  /** The characters JavaScript's `String.prototype.trim` removes (WhiteSpace and LineTerminator). */
  predicate IsSpace(c: char) {
    c == ' ' || ('\t' <= c <= '\r') || c as int == 0xA0 || c as int == 0x1680
    || (0x2000 <= c as int <= 0x200A) || c as int == 0x2028 || c as int == 0x2029
    || c as int == 0x202F || c as int == 0x205F || c as int == 0x3000 || c as int == 0xFEFF
  }

  /** The end of the whitespace run that starts at index `i`. */
  function SkipSpaces(s: string, i: nat): (n: nat)
    requires i <= |s|
    ensures i <= n <= |s|
    ensures forall k :: i <= k < n ==> IsSpace(s[k])
    ensures n < |s| ==> !IsSpace(s[n])
    decreases |s| - i
  {
    if i < |s| && IsSpace(s[i]) then SkipSpaces(s, i + 1) else i
  }

  /** The start of the whitespace run that ends just before index `j`. */
  function SkipSpacesBack(s: string, j: nat): (n: nat)
    requires j <= |s|
    ensures n <= j
    ensures forall k :: n <= k < j ==> IsSpace(s[k])
    ensures 0 < n ==> !IsSpace(s[n - 1])
  {
    if 0 < j && IsSpace(s[j - 1]) then SkipSpacesBack(s, j - 1) else j
  }

  /** Every character of `s` is whitespace. */
  predicate AllSpaces(s: string) {
    forall i :: 0 <= i < |s| ==> IsSpace(s[i])
  }

  /** `s.trim()`: `s` without its leading and trailing whitespace. */
  function Trim(s: string): (r: string)
    ensures r == [] || (!IsSpace(r[0]) && !IsSpace(r[|r| - 1]))
    ensures r == [] <==> AllSpaces(s)
  {
    var lead := SkipSpaces(s, 0);
    if lead == |s| then ""
    else
      assert !IsSpace(s[lead]);
      s[lead..SkipSpacesBack(s, |s|)]
  }

  predicate IsLower(c: char) { 'a' <= c <= 'z' }

  function UpperChar(c: char): (u: char)
    ensures !IsLower(u)
    ensures IsSpace(u) <==> IsSpace(c)
  {
    if IsLower(c) then (c as int - 32) as char else c
  }

  /** `s.toUpperCase()` restricted to ASCII letters; every other character is kept. */
  function Upper(s: string): (r: string)
    ensures |r| == |s|
    ensures forall i :: 0 <= i < |s| ==>
      if IsLower(s[i]) then r[i] as int == s[i] as int - 32 else r[i] == s[i]
    ensures forall i :: 0 <= i < |r| ==> !IsLower(r[i])
    ensures forall i :: 0 <= i < |r| ==> (IsSpace(r[i]) <==> IsSpace(s[i]))
  {
    seq(|s|, i requires 0 <= i < |s| => UpperChar(s[i]))
  }

  /** A label is normalised when it has no surrounding whitespace and no lower-case letter. */
  predicate IsNormalized(s: string) {
    (s == [] || (!IsSpace(s[0]) && !IsSpace(s[|s| - 1])))
    && forall i :: 0 <= i < |s| ==> !IsLower(s[i])
  }

  /** The routes' `normalize`: null becomes '', anything else is trimmed then upper-cased. */
  function Normalize(s: Option<string>): (r: string)
    ensures IsNormalized(r)
    ensures r == [] <==> (s.None? || forall i :: 0 <= i < |s.value| ==> IsSpace(s.value[i]))
  {
    match s
    case None => ""
    case Some(t) => Upper(Trim(t))
  }

  /** Trimming a string that already has no surrounding whitespace changes nothing. */
  lemma TrimOfTrimmed(s: string)
    requires s == [] || (!IsSpace(s[0]) && !IsSpace(s[|s| - 1]))
    ensures Trim(s) == s
  {
    if s != [] {
      assert SkipSpaces(s, 0) == 0;
      assert SkipSpacesBack(s, |s|) == |s|;
    }
  }

  lemma UpperIdempotent(s: string)
    ensures Upper(Upper(s)) == Upper(s)
  {
  }

  /** Normalising twice is the same as normalising once. */
  lemma NormalizeIdempotent(s: Option<string>)
    ensures Normalize(Some(Normalize(s))) == Normalize(s)
  {
    var n := Normalize(s);
    TrimOfTrimmed(n);
    UpperIdempotent(n);
    if s.Some? {
      assert n == Upper(Trim(s.value));
    }
  }

  /** Upper-casing keeps whitespace where it is, so the leading run ends at the same index. */
  lemma {:induction false} SkipSpacesOfUpper(s: string, i: nat)
    requires i <= |s|
    ensures SkipSpaces(Upper(s), i) == SkipSpaces(s, i)
    decreases |s| - i
  {
    if i < |s| && IsSpace(s[i]) {
      SkipSpacesOfUpper(s, i + 1);
    }
  }

  /** Upper-casing keeps whitespace where it is, so the trailing run starts at the same index. */
  lemma {:induction false} SkipSpacesBackOfUpper(s: string, j: nat)
    requires j <= |s|
    ensures SkipSpacesBack(Upper(s), j) == SkipSpacesBack(s, j)
  {
    if 0 < j && IsSpace(s[j - 1]) {
      SkipSpacesBackOfUpper(s, j - 1);
    }
  }

  /** Upper-casing and trimming commute, because upper-casing keeps whitespace where it is. */
  lemma {:induction false} TrimUpperCommute(s: string)
    ensures Upper(Trim(s)) == Trim(Upper(s))
  {
    SkipSpacesOfUpper(s, 0);
    SkipSpacesBackOfUpper(s, |s|);
    var lead := SkipSpaces(s, 0);
    if lead < |s| {
      assert !IsSpace(s[lead]);
      UpperSlice(s, lead, SkipSpacesBack(s, |s|));
    }
  }

  /** `Trim` keeps a contiguous slice of `s` and removes only whitespace on either side of it. */
  lemma TrimIsSlice(s: string)
    ensures exists i, j :: 0 <= i <= j <= |s| && Trim(s) == s[i..j] && AllSpaces(s[..i]) && AllSpaces(s[j..])
  {
    var lead := SkipSpaces(s, 0);
    if lead == |s| {
      assert Trim(s) == s[|s|..|s|] && AllSpaces(s[..|s|]) && AllSpaces(s[|s|..]);
    } else {
      assert !IsSpace(s[lead]);
      var trail := SkipSpacesBack(s, |s|);
      assert Trim(s) == s[lead..trail] && AllSpaces(s[..lead]) && AllSpaces(s[trail..]);
    }
  }

  lemma UpperSlice(s: string, i: nat, j: nat)
    requires i <= j <= |s|
    ensures Upper(s[i..j]) == Upper(s)[i..j]
  {
  }

  /** Labels that differ only in the case of ASCII letters normalise to the same category. */
  lemma {:induction false} NormalizeIgnoresCase(s: string, t: string)
    requires Upper(s) == Upper(t)
    ensures Normalize(Some(s)) == Normalize(Some(t))
  {
    TrimUpperCommute(s);
    TrimUpperCommute(t);
  }

  /** Prisma's `{ equals: v, mode: 'insensitive' }` on a nullable column, ASCII case folding. */
  predicate EqualsIgnoreCase(field: Option<string>, v: string) {
    field.Some? && Upper(field.value) == Upper(v)
  }

  /** `t` occurs in `s` starting at index `i`. */
  predicate OccursAt(s: string, t: string, i: int) {
    0 <= i <= |s| - |t| && s[i..i + |t|] == t
  }

  /** `t` occurs in `s` as a contiguous substring. */
  predicate Contains(s: string, t: string) {
    exists i | 0 <= i <= |s| - |t| :: OccursAt(s, t, i)
  }

  /** Prisma's `{ contains: t, mode: 'insensitive' }` on a nullable column. */
  predicate ContainsIgnoreCase(field: Option<string>, t: string) {
    field.Some? && Contains(Upper(field.value), Upper(t))
  }

  /** `s.startsWith(p)`. */
  predicate StartsWith(s: string, p: string) {
    |p| <= |s| && s[..|p|] == p
  }
}
