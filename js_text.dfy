/**
 * JavaScript strings as the browser sees them: sequences of UTF-16 code units.
 * `String.prototype.length` counts code units, and a regular expression without the
 * `u` flag matches code unit by code unit, so the model keeps that representation.
 */
module JsText {

  /** One UTF-16 code unit. */
  type CodeUnit = x: int | 0 <= x < 0x1_0000

  type JsString = seq<CodeUnit>

  /**
   * The ECMAScript WhiteSpace and LineTerminator code points.  This one set is both what
   * `\s` matches in a regular expression and what `String.prototype.trim` strips.
   */
  predicate IsSpace(c: CodeUnit) {
    c == 0x09 || c == 0x0A || c == 0x0B || c == 0x0C || c == 0x0D || c == 0x20
    || c == 0xA0 || c == 0x1680 || (0x2000 <= c <= 0x200A) || c == 0x2028 || c == 0x2029
    || c == 0x202F || c == 0x205F || c == 0x3000 || c == 0xFEFF
  }

  /** The first index at or after `i` that does not hold white space, or `|s|`. */
  function SkipSpaces(s: JsString, i: nat): (n: nat)
    requires i <= |s|
    ensures i <= n <= |s|
    ensures forall k :: i <= k < n ==> IsSpace(s[k])
    ensures n == |s| || !IsSpace(s[n])
    decreases |s| - i
  {
    if i < |s| && IsSpace(s[i]) then SkipSpaces(s, i + 1) else i
  }

  /** The least index `m` at or before `j` such that `s[m..j]` is all white space. */
  function SkipSpacesBack(s: JsString, j: nat): (m: nat)
    requires j <= |s|
    ensures m <= j
    ensures forall k :: m <= k < j ==> IsSpace(s[k])
    ensures m == 0 || !IsSpace(s[m - 1])
  {
    if 0 < j && IsSpace(s[j - 1]) then SkipSpacesBack(s, j - 1) else j
  }

  /** `r` is the slice of `s` starting at `lo`, and everything in `s` around it is white space. */
  ghost predicate TrimmedAt(s: JsString, lo: int, r: JsString) {
    && 0 <= lo <= |s| - |r|
    && r == s[lo..lo + |r|]
    && (forall k :: 0 <= k < lo ==> IsSpace(s[k]))
    && (forall k :: lo + |r| <= k < |s| ==> IsSpace(s[k]))
  }

  /**
   * `String.prototype.trim`: the result is a contiguous slice of `s` that neither starts nor
   * ends with white space, everything around it is white space, and it is empty exactly
   * when `s` is all white space.
   */
  function Trim(s: JsString): (r: JsString)
    ensures exists lo :: TrimmedAt(s, lo, r)
    ensures r == [] || (!IsSpace(r[0]) && !IsSpace(r[|r| - 1]))
    ensures r == [] <==> forall k :: 0 <= k < |s| ==> IsSpace(s[k])
  {
    var lo := SkipSpaces(s, 0);
    var hi := SkipSpacesBack(s, |s|);
    if hi <= lo then
      assert TrimmedAt(s, |s|, []);
      []
    else
      assert TrimmedAt(s, lo, s[lo..hi]);
      s[lo..hi]
  }

  /** Trimming twice is trimming once. */
  lemma TrimIdempotent(s: JsString)
    ensures Trim(Trim(s)) == Trim(s)
  {
    var t := Trim(s);
    if t != [] {
      assert SkipSpaces(t, 0) == 0;
      assert SkipSpacesBack(t, |t|) == |t|;
      assert t[0..|t|] == t;
    }
  }

  /**
   * `Trim` is the only such slice: any slice of `s` that neither starts nor ends with white
   * space and has only white space around it is `Trim(s)`.
   */
  lemma TrimUnique(s: JsString, lo: int, r: JsString)
    requires TrimmedAt(s, lo, r) && r != [] && !IsSpace(r[0]) && !IsSpace(r[|r| - 1])
    ensures r == Trim(s)
  {
    var hi := lo + |r|;
    assert s[lo] == r[0] && s[hi - 1] == r[|r| - 1];
    assert SkipSpaces(s, 0) == lo;
    assert SkipSpacesBack(s, |s|) == hi;
  }
}
