/**
 * Python's `str.strip()`, `str.lower()` and `str.title()` restricted to the
 * ASCII range, which is all the telemetry normaliser relies on. The
 * operations are plain definitions; what they guarantee is stated by the
 * lemmas that follow each of them.
 */
module AsciiText {

  /** `str.isspace()` on ASCII: tab, line feed, vertical tab, form feed,
      carriage return, the four information separators and space. */
  predicate IsSpace(c: char) {
    var n := c as int;
    9 <= n <= 13 || 28 <= n <= 32
  }

  predicate IsUpper(c: char) {
    'A' <= c <= 'Z'
  }

  predicate IsLower(c: char) {
    'a' <= c <= 'z'
  }

  /** A letter that has case; `str.title()` starts a new word after any other character. */
  predicate IsCased(c: char) {
    IsUpper(c) || IsLower(c)
  }

  function ToLowerChar(c: char): char {
    if IsUpper(c) then (c as int + 32) as char else c
  }

  function ToUpperChar(c: char): char {
    if IsLower(c) then (c as int - 32) as char else c
  }

  /** No whitespace at either end. */
  predicate IsStripped(s: string) {
    s == [] || (!IsSpace(s[0]) && !IsSpace(s[|s| - 1]))
  }

  predicate HasNoUpper(s: string) {
    forall k :: 0 <= k < |s| ==> !IsUpper(s[k])
  }

  // ----- strip -----

  /** Scans forward from `i` over whitespace; the first non-space position (or |s|). */
  function SkipSpaces(s: string, i: nat): (a: nat)
    requires i <= |s|
    ensures i <= a <= |s|
    decreases |s| - i
  {
    if i < |s| && IsSpace(s[i]) then SkipSpaces(s, i + 1) else i
  }

  /** Scans backward from `j` over whitespace, not below `lo`; one past the last non-space position. */
  function SkipSpacesBack(s: string, lo: nat, j: nat): (b: nat)
    requires lo <= j <= |s|
    ensures lo <= b <= j
    decreases j
  {
    if lo < j && IsSpace(s[j - 1]) then SkipSpacesBack(s, lo, j - 1) else j
  }

  /** Where the text kept by `str.strip()` starts. */
  function StripStart(s: string): nat {
    SkipSpaces(s, 0)
  }

  /** `str.strip()`: the slice of `s` between its leading and its trailing whitespace. */
  function Strip(s: string): string {
    var a := SkipSpaces(s, 0);
    s[a..SkipSpacesBack(s, a, |s|)]
  }

  lemma {:induction false} SkipSpacesSpec(s: string, i: nat)
    requires i <= |s|
    ensures forall k :: i <= k < SkipSpaces(s, i) ==> IsSpace(s[k])
    ensures SkipSpaces(s, i) < |s| ==> !IsSpace(s[SkipSpaces(s, i)])
    decreases |s| - i
  {
    if i < |s| && IsSpace(s[i]) {
      SkipSpacesSpec(s, i + 1);
    }
  }

  lemma {:induction false} SkipSpacesBackSpec(s: string, lo: nat, j: nat)
    requires lo <= j <= |s|
    ensures forall k :: SkipSpacesBack(s, lo, j) <= k < j ==> IsSpace(s[k])
    ensures lo < SkipSpacesBack(s, lo, j) ==> !IsSpace(s[SkipSpacesBack(s, lo, j) - 1])
    decreases j
  {
    if lo < j && IsSpace(s[j - 1]) {
      SkipSpacesBackSpec(s, lo, j - 1);
    }
  }

  /** What `str.strip()` returns: a contiguous slice of `s` with no whitespace at
      either end, and every character cut away on either side is whitespace. */
  lemma StripSpec(s: string)
    ensures IsStripped(Strip(s))
    ensures StripStart(s) + |Strip(s)| <= |s|
    ensures Strip(s) == s[StripStart(s)..StripStart(s) + |Strip(s)|]
    ensures forall k :: 0 <= k < StripStart(s) ==> IsSpace(s[k])
    ensures forall k :: StripStart(s) + |Strip(s)| <= k < |s| ==> IsSpace(s[k])
  {
    var a := SkipSpaces(s, 0);
    SkipSpacesSpec(s, 0);
    SkipSpacesBackSpec(s, a, |s|);
  }

  /** Stripping leaves a string that is already stripped unchanged. */
  lemma StripStripped(s: string)
    requires IsStripped(s)
    ensures Strip(s) == s
  {
    if s != [] {
      assert SkipSpaces(s, 0) == 0;
      assert SkipSpacesBack(s, 0, |s|) == |s|;
    }
  }

  lemma StripIdempotent(s: string)
    ensures Strip(Strip(s)) == Strip(s)
  {
    StripSpec(s);
    StripStripped(Strip(s));
  }

  // ----- lower -----

  /** `str.lower()`: each upper-case letter replaced by its lower-case form. */
  function Lower(s: string): string {
    seq(|s|, k requires 0 <= k < |s| => ToLowerChar(s[k]))
  }

  /** Lower-casing keeps the length, leaves no upper-case letter, turns each capital
      into its own lower-case letter, changes nothing else, and maps whitespace to
      whitespace and nothing else to it. */
  lemma LowerSpec(s: string)
    ensures |Lower(s)| == |s| && HasNoUpper(Lower(s))
    ensures forall k :: 0 <= k < |s| && !IsUpper(s[k]) ==> Lower(s)[k] == s[k]
    ensures forall k :: 0 <= k < |s| ==> (IsSpace(Lower(s)[k]) <==> IsSpace(s[k]))
    ensures forall k :: 0 <= k < |s| && IsUpper(s[k]) ==> IsLower(Lower(s)[k]) && ToUpperChar(Lower(s)[k]) == s[k]
  {
  }

  /** A string without upper-case letters is its own lower-case form. */
  lemma LowerOfLower(s: string)
    requires HasNoUpper(s)
    ensures Lower(s) == s
  {
  }

  lemma LowerIdempotent(s: string)
    ensures Lower(Lower(s)) == Lower(s)
  {
    LowerSpec(s);
    LowerOfLower(Lower(s));
  }

  /** Lower-casing maps whitespace to whitespace and nothing else to it,
      so a stripped string stays stripped. */
  lemma LowerKeepsStripped(s: string)
    requires IsStripped(s)
    ensures IsStripped(Lower(s))
  {
  }

  // ----- title -----

  /** `str.title()`: a letter that follows a cased letter is lowered, any other letter
      is raised (CPython decides on the original previous character). */
  function Title(s: string): string {
    seq(|s|, k requires 0 <= k < |s| =>
      if k > 0 && IsCased(s[k - 1]) then ToLowerChar(s[k]) else ToUpperChar(s[k]))
  }

  /** Title-casing keeps the length, changes only the case of letters, keeps
      whitespace where it was, and makes a letter upper case exactly when it starts
      a word (it is first, or follows an uncased character). */
  lemma TitleSpec(s: string)
    ensures |Title(s)| == |s|
    ensures forall k :: 0 <= k < |s| ==> ToLowerChar(Title(s)[k]) == ToLowerChar(s[k])
    ensures forall k :: 0 <= k < |s| ==> (IsCased(Title(s)[k]) <==> IsCased(s[k]))
    ensures forall k :: 0 <= k < |s| ==> (IsSpace(Title(s)[k]) <==> IsSpace(s[k]))
    ensures forall k :: 0 <= k < |s| && IsCased(s[k]) ==> (IsUpper(Title(s)[k]) <==> (k == 0 || !IsCased(s[k - 1])))
  {
  }

  /** Title-casing a title-cased string changes nothing. */
  lemma TitleIdempotent(s: string)
    ensures Title(Title(s)) == Title(s)
  {
    TitleSpec(s);
  }

  /** Title-casing only changes letters, so a stripped string stays stripped. */
  lemma TitleKeepsStripped(s: string)
    requires IsStripped(s)
    ensures IsStripped(Title(s))
  {
  }

}
