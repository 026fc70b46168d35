/** The JavaScript values and `String.prototype` built-ins the scraper relies on,
    over Dafny strings (sequences of Unicode scalar values). */
module Js {

  /** A value that may be JavaScript `null`. */
  datatype Nullable<+T> = Null | NonNull(value: T)

  /** An optional property or a value that may be `undefined`. */
  datatype Optional<+T> = Undefined | Defined(value: T)

  /** A thrown value: an `Error` instance, which carries a message, or anything else. */
  datatype Thrown = ErrorValue(message: string) | NonErrorValue

  /** A string is truthy exactly when it is non-empty. */
  predicate Truthy(s: Nullable<string>) {
    s.NonNull? && |s.value| > 0
  }

  /** WhiteSpace and LineTerminator code points (ECMA-262, sections 12.2 and 12.3):
      the characters both `String.prototype.trim` and `Number` strip. */
  predicate IsWhitespace(c: char) {
    c in Whitespace
  }

  const Whitespace: set<char> := {
    '\t', '\U{000B}', '\U{000C}', ' ', '\U{00A0}', '\U{FEFF}', '\n', '\r', '\U{2028}', '\U{2029}',
    '\U{1680}', '\U{2000}', '\U{2001}', '\U{2002}', '\U{2003}', '\U{2004}', '\U{2005}', '\U{2006}',
    '\U{2007}', '\U{2008}', '\U{2009}', '\U{200A}', '\U{202F}', '\U{205F}', '\U{3000}'
  }

  /** Drops the leading whitespace of `s`. */
  function TrimStart(s: string): (r: string)
    ensures |r| <= |s| && r == s[|s| - |r|..]
    ensures forall i :: 0 <= i < |s| - |r| ==> IsWhitespace(s[i])
    ensures |r| > 0 ==> !IsWhitespace(r[0])
  {
    if |s| > 0 && IsWhitespace(s[0]) then TrimStart(s[1..]) else s
  }

  /** Drops the trailing whitespace of `s`. */
  function TrimEnd(s: string): (r: string)
    ensures |r| <= |s| && r == s[..|r|]
    ensures forall i :: |r| <= i < |s| ==> IsWhitespace(s[i])
    ensures |r| > 0 ==> !IsWhitespace(r[|r| - 1])
  {
    if |s| > 0 && IsWhitespace(s[|s| - 1]) then TrimEnd(s[..|s| - 1]) else s
  }

  /** `s.trim()`: the infix of `s` between its leading and trailing whitespace. */
  function Trim(s: string): (r: string)
    ensures var k := |s| - |TrimStart(s)|;
              && k + |r| <= |s| && r == s[k..k + |r|]
              && (forall i :: 0 <= i < k ==> IsWhitespace(s[i]))
              && (forall i :: k + |r| <= i < |s| ==> IsWhitespace(s[i]))
    ensures |r| > 0 ==> !IsWhitespace(r[0]) && !IsWhitespace(r[|r| - 1])
  {
    var t := TrimStart(s);
    TrimEndOfSuffix(s, t, TrimEnd(t));
    TrimEnd(t)
  }

  lemma TrimEndOfSuffix(s: string, t: string, r: string)
    requires |t| <= |s| && t == s[|s| - |t|..]
    requires |r| <= |t| && r == t[..|r|]
    requires forall i :: |r| <= i < |t| ==> IsWhitespace(t[i])
    ensures var k := |s| - |t|; r == s[k..k + |r|] && forall i :: k + |r| <= i < |s| ==> IsWhitespace(s[i])
  {
    var k := |s| - |t|;
    forall i | k + |r| <= i < |s| ensures IsWhitespace(s[i]) {
      assert s[i] == t[i - k];
    }
  }

  /** Trimming a string that neither starts nor ends with whitespace changes nothing. */
  lemma TrimIdentity(s: string)
    requires |s| > 0 ==> !IsWhitespace(s[0]) && !IsWhitespace(s[|s| - 1])
    ensures Trim(s) == s
  {
  }

  /** Trimming twice is trimming once. */
  lemma TrimIdempotent(s: string)
    ensures Trim(Trim(s)) == Trim(s)
  {
    TrimIdentity(Trim(s));
  }

  /** True when `p` occurs in `s` at position `i`. */
  predicate OccursAt(s: string, p: string, i: nat) {
    i + |p| <= |s| && s[i..i + |p|] == p
  }

  /** First occurrence of `p` in `s` at or after position `from`. */
  function IndexFrom(s: string, p: string, from: nat): (r: Nullable<nat>)
    requires from <= |s| + 1
    ensures r.NonNull? ==> from <= r.value && OccursAt(s, p, r.value)
    ensures r.NonNull? ==> forall i :: from <= i < r.value ==> !OccursAt(s, p, i)
    ensures r.Null? ==> forall i :: from <= i ==> !OccursAt(s, p, i)
    decreases |s| + 1 - from
  {
    if from + |p| > |s| then Null
    else if s[from..from + |p|] == p then NonNull(from)
    else IndexFrom(s, p, from + 1)
  }

  /** `s.indexOf(p)`, with `null` standing for -1. */
  function IndexOf(s: string, p: string): (r: Nullable<nat>)
    ensures r.NonNull? ==> OccursAt(s, p, r.value)
    ensures r.NonNull? ==> forall i :: 0 <= i < r.value ==> !OccursAt(s, p, i)
    ensures r.Null? <==> forall i :: 0 <= i ==> !OccursAt(s, p, i)
  {
    IndexFrom(s, p, 0)
  }

  /** `s.includes(p)`. */
  predicate Includes(s: string, p: string) {
    IndexOf(s, p).NonNull?
  }

  /** A string in which some character of `p` never appears cannot contain `p`. */
  lemma NotIncludes(s: string, p: string, j: nat)
    requires j < |p| && p[j] !in s
    ensures !Includes(s, p)
  {
  }

  /** `s.startsWith(p)`. */
  predicate StartsWith(s: string, p: string) {
    |p| <= |s| && s[..|p|] == p
  }

  /** `s.replace(p, q)` with a string pattern: only the first occurrence is replaced. */
  function ReplaceFirst(s: string, p: string, q: string): (r: string)
    ensures StartsWith(s, p) ==> r == q + s[|p|..]
    ensures !Includes(s, p) ==> r == s
  {
    match IndexOf(s, p)
    case Null => s
    case NonNull(i) =>
      assert StartsWith(s, p) ==> OccursAt(s, p, 0);
      s[..i] + q + s[i + |p|..]
  }
}
