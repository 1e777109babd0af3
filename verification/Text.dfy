/** String operations of the JavaScript runtime that several components share. */
module Text {
  import opened Wrappers

  /** The characters `/\s/` matches and `trim` removes. */
  predicate IsSpace(c: char) {
    || '\t' <= c <= '\r' || c == ' ' || c == '\U{A0}' || c == '\U{1680}' || '\U{2000}' <= c <= '\U{200A}'
    || c == '\U{2028}' || c == '\U{2029}' || c == '\U{202F}' || c == '\U{205F}' || c == '\U{3000}' || c == '\U{FEFF}'
  }

  /** `text.trim() === ""` */
  predicate IsBlank(s: string) {
    forall c :: c in s ==> IsSpace(c)
  }

  predicate OccursAt(s: string, pattern: string, i: nat) {
    i + |pattern| <= |s| && s[i..i + |pattern|] == pattern
  }

  /** What a text contains it still contains, at the same place, when it grows. */
  lemma OccursInPrefix(s: string, more: string, pattern: string, i: nat)
    ensures i + |pattern| <= |s| ==> (OccursAt(s, pattern, i) <==> OccursAt(s + more, pattern, i))
  {
    if i + |pattern| <= |s| { assert (s + more)[i..i + |pattern|] == s[i..i + |pattern|]; }
  }

  /** What a slice contains, the whole text contains further along. */
  lemma OccursInSlice(s: string, lo: nat, hi: nat, pattern: string, i: nat)
    requires lo <= hi <= |s|
    ensures lo + i + |pattern| <= hi ==> (OccursAt(s[lo..hi], pattern, i) <==> OccursAt(s, pattern, lo + i))
    ensures OccursAt(s[lo..hi], pattern, i) ==> lo + i + |pattern| <= hi
  {
    var inner := s[lo..hi];
    if lo + i + |pattern| <= hi {
      assert forall k :: i <= k < i + |pattern| ==> inner[k] == s[lo + k];
      assert inner[i..i + |pattern|] == s[lo + i..lo + i + |pattern|];
    }
  }

  lemma OccursInTail(s: string, lo: nat, pattern: string, i: nat)
    requires lo <= |s|
    ensures OccursAt(s[lo..], pattern, i) <==> OccursAt(s, pattern, lo + i)
  {
    if lo + i + |pattern| <= |s| { assert s[lo..][i..i + |pattern|] == s[lo + i..lo + i + |pattern|]; }
  }

  /** `s.indexOf(pattern, from)` */
  function IndexOf(s: string, pattern: string, from: nat): (r: Option<nat>)
    ensures r.None? ==> forall j: nat :: from <= j ==> !OccursAt(s, pattern, j)
    ensures r.Some? ==> from <= r.value && OccursAt(s, pattern, r.value)
                        && forall j: nat :: from <= j < r.value ==> !OccursAt(s, pattern, j)
    decreases |s| - from
  {
    if from + |pattern| > |s| then None
    else if OccursAt(s, pattern, from) then Some(from)
    else IndexOf(s, pattern, from + 1)
  }

  predicate StartsWith(s: string, pattern: string) { pattern <= s }

  /** `s.endsWith(pattern)` */
  predicate EndsWith(s: string, pattern: string) {
    |pattern| <= |s| && s[|s| - |pattern|..] == pattern
  }

  /** Adjacent concatenation, in order. */
  function Concat(parts: seq<string>): string {
    if parts == [] then "" else parts[0] + Concat(parts[1..])
  }
}
