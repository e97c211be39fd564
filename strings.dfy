/**
 * The JavaScript string operations the pages rely on: `trim`, `toLowerCase`,
 * `includes`, `startsWith`, `<` on strings, and the `"first last".trim() || fallback`
 * display-name idiom. Case mapping covers ASCII letters only.
 */
module Strings {
  import opened Wrappers

  /** The whitespace characters `String.prototype.trim` removes (ASCII part). */
  predicate IsSpace(c: char) {
    c == ' ' || c == '\t' || c == '\n' || c == '\r' || c == 11 as char || c == 12 as char
  }

  /** No whitespace at either end. */
  predicate Trimmed(s: string) {
    s != [] ==> !IsSpace(s[0]) && !IsSpace(s[|s| - 1])
  }

  /** A string that `trim()` turns into the empty string, i.e. one that is falsy after trimming. */
  predicate IsBlank(s: string) {
    forall k :: 0 <= k < |s| ==> IsSpace(s[k])
  }

  /** `s` with its leading whitespace removed. */
  function TrimStart(s: string): (r: string)
    ensures |r| <= |s| && r == s[|s| - |r|..]
    ensures forall k :: 0 <= k < |s| - |r| ==> IsSpace(s[k])
    ensures r != [] ==> !IsSpace(r[0])
  {
    if s != [] && IsSpace(s[0]) then
      var r := TrimStart(s[1..]);
      TailSuffix(s, |r|);
      r
    else s
  }

  /** A suffix of `s[1..]` is the suffix of `s` of the same length, and `s[1..]` is `s` shifted by one. */
  lemma TailSuffix(s: string, n: nat)
    requires s != [] && n <= |s| - 1
    ensures s[1..][|s| - 1 - n..] == s[|s| - n..]
    ensures forall k :: 0 <= k < |s| - 1 ==> s[1..][k] == s[k + 1]
  {
  }

  /** A slice of `s[1..]` is the slice of `s` one position further on. */
  lemma TailSlice(s: string, i: nat, n: nat)
    requires s != [] && i + n <= |s| - 1
    ensures s[1..][i..i + n] == s[i + 1..i + 1 + n]
  {
  }

  /** `s` with its trailing whitespace removed. */
  function TrimEnd(s: string): (r: string)
    ensures |r| <= |s| && r == s[..|r|]
    ensures forall k :: |r| <= k < |s| ==> IsSpace(s[k])
    ensures r != [] ==> !IsSpace(r[|r| - 1])
  {
    if s != [] && IsSpace(s[|s| - 1]) then TrimEnd(s[..|s| - 1]) else s
  }

  /**
   * `s.trim()`: the result is the slice of `s` left after dropping whitespace at
   * both ends; it is empty exactly when `s` is blank, and otherwise starts and
   * ends with a non-whitespace character.
   */
  function Trim(s: string): (r: string)
    ensures |r| <= |s|
    ensures r == [] <==> IsBlank(s)
    ensures Trimmed(r)
    ensures exists i :: OccursAt(s, r, i) && IsBlank(s[..i]) && IsBlank(s[i + |r|..])
  {
    TrimSlice(s);
    TrimDropsBlankFront(s);
    TrimDropsBlankBack(s);
    TrimBlank(s);
    TrimEnd(TrimStart(s))
  }

  /** Trimming leaves the slice of `s` that starts after the leading whitespace. */
  lemma TrimSlice(s: string)
    ensures OccursAt(s, TrimEnd(TrimStart(s)), |s| - |TrimStart(s)|)
  {
    var a := TrimStart(s);
    var r := TrimEnd(a);
    SliceOfSuffix(s, |s| - |a|, |r|);
  }

  /** What trimming drops at the front is blank. */
  lemma TrimDropsBlankFront(s: string)
    ensures IsBlank(s[..|s| - |TrimStart(s)|])
  {
    var d := |s| - |TrimStart(s)|;
    BlankSlice(s, 0, d);
  }

  /** What trimming drops at the back is blank. */
  lemma TrimDropsBlankBack(s: string)
    ensures IsBlank(s[|s| - |TrimStart(s)| + |TrimEnd(TrimStart(s))|..])
  {
    var a := TrimStart(s);
    var r := TrimEnd(a);
    var d := |s| - |a|;
    forall k | d + |r| <= k < |s|
      ensures IsSpace(s[k])
    {
      assert a[k - d] == s[k];
    }
    BlankSlice(s, d + |r|, |s|);
  }

  /** A slice made of whitespace characters is blank. */
  lemma BlankSlice(s: string, i: nat, j: nat)
    requires i <= j <= |s|
    requires forall k :: i <= k < j ==> IsSpace(s[k])
    ensures IsBlank(s[i..j]) && (i == 0 ==> IsBlank(s[..j])) && (j == |s| ==> IsBlank(s[i..]))
  {
    assert forall k :: 0 <= k < j - i ==> s[i..j][k] == s[i + k];
  }

  /**
   * `trim()` is the only way to cut `s` into blank, trimmed, blank: any slice of
   * `s` with a blank prefix and suffix before and after it, no whitespace at its
   * ends, and empty exactly for a blank `s`, is `Trim(s)`.
   */
  lemma TrimCharacterised(s: string, r: string, i: int)
    requires OccursAt(s, r, i) && IsBlank(s[..i]) && IsBlank(s[i + |r|..])
    requires Trimmed(r) && (r == [] <==> IsBlank(s))
    ensures r == Trim(s)
  {
    var t := Trim(s);
    var j :| OccursAt(s, t, j) && IsBlank(s[..j]) && IsBlank(s[j + |t|..]);
    if r != [] {
      assert s[i..i + |r|][0] == s[i] && s[j..j + |t|][0] == s[j];
      StartUnique(s, i, j);
      assert s[i..i + |r|][|r| - 1] == s[i + |r| - 1] && s[j..j + |t|][|t| - 1] == s[j + |t| - 1];
      EndUnique(s, i + |r|, j + |t|);
    }
  }

  /** The first non-whitespace character of `s` is at one position only. */
  lemma StartUnique(s: string, i: int, j: int)
    requires 0 <= i < |s| && 0 <= j < |s|
    requires IsBlank(s[..i]) && IsBlank(s[..j]) && !IsSpace(s[i]) && !IsSpace(s[j])
    ensures i == j
  {
    BlankPrefixSpaces(s, i);
    BlankPrefixSpaces(s, j);
  }

  /** The last non-whitespace character of `s` is at one position only. */
  lemma EndUnique(s: string, e: int, f: int)
    requires 0 < e <= |s| && 0 < f <= |s|
    requires IsBlank(s[e..]) && IsBlank(s[f..]) && !IsSpace(s[e - 1]) && !IsSpace(s[f - 1])
    ensures e == f
  {
    BlankSuffixSpaces(s, e);
    BlankSuffixSpaces(s, f);
  }

  /** Every character of a blank prefix is whitespace. */
  lemma BlankPrefixSpaces(s: string, i: nat)
    requires i <= |s| && IsBlank(s[..i])
    ensures forall k :: 0 <= k < i ==> IsSpace(s[k])
  {
    assert forall k :: 0 <= k < i ==> s[..i][k] == s[k];
  }

  /** Every character of a blank suffix is whitespace. */
  lemma BlankSuffixSpaces(s: string, e: nat)
    requires e <= |s| && IsBlank(s[e..])
    ensures forall k :: e <= k < |s| ==> IsSpace(s[k])
  {
    assert forall k :: e <= k < |s| ==> s[e..][k - e] == s[k];
  }

  /** A prefix of a suffix is a slice. */
  lemma SliceOfSuffix(s: string, i: nat, n: nat)
    requires i + n <= |s|
    ensures s[i..][..n] == s[i..i + n]
  {
  }

  /** Trimming leaves nothing exactly when every character is whitespace. */
  lemma TrimBlank(s: string)
    ensures TrimEnd(TrimStart(s)) == [] <==> IsBlank(s)
  {
    var a := TrimStart(s);
    var r := TrimEnd(a);
    var d := |s| - |a|;
    if r != [] {
      assert r[0] == a[0] == s[d];
      assert !IsBlank(s);
    } else {
      assert a == [];
    }
  }

  /** Trimming is idempotent: a trimmed entry trims to itself. */
  lemma TrimIdempotent(s: string)
    ensures Trim(Trim(s)) == Trim(s)
  {
    var t := Trim(s);
    if t != [] {
      assert TrimStart(t) == t;
      assert TrimEnd(t) == t;
    }
  }

  /** The ASCII part of `toLowerCase` on one character. */
  function LowerChar(c: char): char {
    if 'A' <= c <= 'Z' then (c as int + 32) as char else c
  }

  /** The ASCII part of `toUpperCase` on one character. */
  function UpperChar(c: char): char {
    if 'a' <= c <= 'z' then (c as int - 32) as char else c
  }

  /** `s.toLowerCase()`, character by character. */
  function ToLower(s: string): (r: string)
    ensures |r| == |s|
    ensures forall k :: 0 <= k < |s| ==> r[k] == LowerChar(s[k])
  {
    if s == [] then [] else [LowerChar(s[0])] + ToLower(s[1..])
  }

  /** Lower-casing works piece by piece. */
  lemma ToLowerAppend(a: string, b: string)
    ensures ToLower(a + b) == ToLower(a) + ToLower(b)
  {
    assert forall k :: 0 <= k < |b| ==> (a + b)[|a| + k] == b[k];
  }

  /** Lower-casing twice is lower-casing once. */
  lemma ToLowerIdempotent(s: string)
    ensures ToLower(ToLower(s)) == ToLower(s)
  {
    assert forall k :: 0 <= k < |s| ==> LowerChar(LowerChar(s[k])) == LowerChar(s[k]);
  }

  /** `s.startsWith(p)`. */
  predicate StartsWith(s: string, p: string) {
    |p| <= |s| && s[..|p|] == p
  }

  /** `s.endsWith(p)`. */
  predicate EndsWith(s: string, p: string) {
    |p| <= |s| && s[|s| - |p|..] == p
  }

  /** `sub` occurs in `s` starting at position `i`. */
  predicate OccursAt(s: string, sub: string, i: int) {
    0 <= i <= |s| - |sub| && s[i..i + |sub|] == sub
  }

  /** `s.includes(sub)`: `sub` occurs in `s` at some position. */
  function Contains(s: string, sub: string): (r: bool)
    ensures r <==> exists i :: OccursAt(s, sub, i)
    decreases |s|
  {
    if StartsWith(s, sub) then
      assert OccursAt(s, sub, 0);
      true
    else if s == [] then
      assert forall i :: !OccursAt(s, sub, i);
      false
    else
      var t := s[1..];
      var found := Contains(t, sub);
      if found then
        var i :| OccursAt(t, sub, i);
        assert OccursAt(s, sub, i + 1) by {
          TailSlice(s, i, |sub|);
        }
        true
      else
        assert forall i :: OccursAt(s, sub, i) ==> i == 0 || OccursAt(t, sub, i - 1) by {
          forall i | OccursAt(s, sub, i) && i != 0
            ensures OccursAt(t, sub, i - 1)
          {
            TailSlice(s, i - 1, |sub|);
          }
        }
        assert !OccursAt(s, sub, 0);
        false
  }

  /** A string lacking the first character of `sub` does not contain `sub`. */
  lemma NotContainsWithoutFirst(s: string, sub: string)
    requires sub != [] && forall k :: 0 <= k < |s| ==> s[k] != sub[0]
    ensures !Contains(s, sub)
  {
    forall i | OccursAt(s, sub, i)
      ensures s[i] == sub[0]
    {
      assert s[i..i + |sub|][0] == s[i];
    }
  }

  /** `includes('')` holds of every string. */
  lemma ContainsEmpty(s: string)
    ensures Contains(s, "")
  {
    assert OccursAt(s, "", 0);
  }

  /** Case-insensitive `includes`, as the search boxes do it: both sides lower-cased. */
  predicate ContainsIgnoringCase(s: string, term: string) {
    Contains(ToLower(s), ToLower(term))
  }

  /** `field?.toLowerCase().includes(term)` on an optional field: an absent field never matches. */
  predicate OptionalContains(field: Option<string>, term: string) {
    field.Some? && ContainsIgnoringCase(field.value, term)
  }

  /** `o || ''` on an optional string. */
  function OrEmpty(o: Option<string>): string {
    if o.Some? then o.value else ""
  }

  /** An optional string that JavaScript treats as truthy: present and non-empty. */
  predicate Truthy(o: Option<string>) {
    o.Some? && o.value != ""
  }

  /** `` `${first || ''} ${last || ''}` ``: the two names joined by one space. */
  function FullName(first: Option<string>, last: Option<string>): (r: string)
    ensures |r| == |OrEmpty(first)| + 1 + |OrEmpty(last)| && r[|OrEmpty(first)|] == ' '
    ensures r[..|OrEmpty(first)|] == OrEmpty(first) && r[|OrEmpty(first)| + 1..] == OrEmpty(last)
  {
    OrEmpty(first) + " " + OrEmpty(last)
  }

  /**
   * `` `${first || ''} ${last || ''}`.trim() || fallback ``: the trimmed full name,
   * or the fallback when that is empty. A shown name never has whitespace at
   * either end and is a piece of "first last".
   */
  function DisplayName(first: Option<string>, last: Option<string>, fallback: string): (r: string)
    ensures IsBlank(FullName(first, last)) ==> r == fallback
    ensures !IsBlank(FullName(first, last)) ==> r == Trim(FullName(first, last))
    ensures !IsBlank(FullName(first, last)) ==>
              r != [] && Trimmed(r) && Contains(FullName(first, last), r)
    ensures fallback != [] ==> r != []
  {
    var full := Trim(FullName(first, last));
    if full != [] then
      TrimContained(FullName(first, last));
      full
    else fallback
  }

  /** The trimmed string occurs in the original. */
  lemma TrimContained(s: string)
    ensures Contains(s, Trim(s))
  {
    var i :| OccursAt(s, Trim(s), i);
  }

  /** With both names missing the fallback is shown. */
  lemma DisplayNameMissing(fallback: string)
    ensures DisplayName(None, None, fallback) == fallback
  {
    assert IsBlank(FullName(None, None)) by {
      assert FullName(None, None) == " ";
    }
  }

  /** JavaScript's `a < b` on strings: lexicographic order on character codes. */
  predicate Less(a: string, b: string) {
    if a == [] then b != []
    else if b == [] then false
    else if a[0] != b[0] then a[0] < b[0]
    else Less(a[1..], b[1..])
  }

  /** `Less` is irreflexive. */
  lemma {:induction false} LessIrreflexive(a: string)
    ensures !Less(a, a)
    decreases |a|
  {
    if a != [] {
      LessIrreflexive(a[1..]);
    }
  }

  /** `Less` is transitive. */
  lemma {:induction false} LessTransitive(a: string, b: string, c: string)
    requires Less(a, b) && Less(b, c)
    ensures Less(a, c)
    decreases |a|
  {
    if a != [] && b != [] && c != [] && a[0] == b[0] && b[0] == c[0] {
      LessTransitive(a[1..], b[1..], c[1..]);
    }
  }

  /** The decimal digit for 0 <= d < 10. */
  function Digit(d: nat): char
    requires d < 10
  {
    ('0' as int + d) as char
  }

  /** The decimal rendering JavaScript gives a non-negative integer in a template string. */
  function NatToString(n: nat): (r: string)
    ensures r != []
    ensures forall k :: 0 <= k < |r| ==> '0' <= r[k] <= '9'
    ensures n >= 10 ==> r[0] != '0'
  {
    if n < 10 then [Digit(n)] else NatToString(n / 10) + [Digit(n % 10)]
  }

  /** The value of a string of decimal digits. */
  function DigitsValue(s: string): nat
    requires forall k :: 0 <= k < |s| ==> '0' <= s[k] <= '9'
  {
    if s == [] then 0 else DigitsValue(s[..|s| - 1]) * 10 + (s[|s| - 1] as int - '0' as int)
  }

  /** Rendering a number in decimal loses nothing: reading the digits back gives the number. */
  lemma {:induction false} NatToStringRoundTrip(n: nat)
    ensures DigitsValue(NatToString(n)) == n
  {
    if n >= 10 {
      NatToStringRoundTrip(n / 10);
      var r := NatToString(n);
      assert r[..|r| - 1] == NatToString(n / 10);
    }
  }

  /** `parts.join(sep)`. */
  function Join(parts: seq<string>, sep: string): string {
    if parts == [] then ""
    else if |parts| == 1 then parts[0]
    else parts[0] + sep + Join(parts[1..], sep)
  }
}
