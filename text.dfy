/** The java.lang.String and java.lang.Character operations the core relies
    on. Case conversion covers the ASCII letters only. */
module Text {

  // ---- Character.toUpperCase / toLowerCase ----

  function ToUpper(c: char): char
  {
    if 'a' <= c <= 'z' then (c as int - 32) as char else c
  }

  /** Upper-case letters become lower-case, and nothing else changes. */
  function ToLower(c: char): (r: char)
    ensures !('A' <= r <= 'Z')
    ensures !('A' <= c <= 'Z') ==> r == c
    ensures 'A' <= c <= 'Z' ==> 'a' <= r <= 'z' && ToUpper(r) == c
  {
    if 'A' <= c <= 'Z' then (c as int + 32) as char else c
  }

  // ---- String.equalsIgnoreCase ----

  /** The per-character test of String.regionMatches(ignoreCase = true). */
  predicate CharEqualsIgnoreCase(a: char, b: char)
  {
    a == b || ToUpper(a) == ToUpper(b) || ToLower(ToUpper(a)) == ToLower(ToUpper(b))
  }

  predicate EqualsIgnoreCase(a: string, b: string)
  {
    |a| == |b| && forall i :: 0 <= i < |a| ==> CharEqualsIgnoreCase(a[i], b[i])
  }

  /** A string with every letter in lower case. */
  function Lowered(s: string): (r: string)
    ensures |r| == |s| && forall i :: 0 <= i < |s| ==> r[i] == ToLower(s[i])
  {
    if s == [] then [] else [ToLower(s[0])] + Lowered(s[1..])
  }

  lemma CharEqualsIgnoreCaseIffLowerEqual(a: char, b: char)
    ensures CharEqualsIgnoreCase(a, b) <==> ToLower(a) == ToLower(b)
  {
  }

  /** Reference definition: two strings are equal ignoring case exactly when
      their lower-case forms are equal. */
  lemma EqualsIgnoreCaseIffLoweredEqual(a: string, b: string)
    ensures EqualsIgnoreCase(a, b) <==> Lowered(a) == Lowered(b)
  {
    if EqualsIgnoreCase(a, b) {
      forall i | 0 <= i < |a| ensures Lowered(a)[i] == Lowered(b)[i] {
        CharEqualsIgnoreCaseIffLowerEqual(a[i], b[i]);
      }
    }
    if Lowered(a) == Lowered(b) {
      forall i | 0 <= i < |a| ensures CharEqualsIgnoreCase(a[i], b[i]) {
        assert Lowered(a)[i] == Lowered(b)[i];
        CharEqualsIgnoreCaseIffLowerEqual(a[i], b[i]);
      }
    }
  }

  // ---- String.startsWith and String.replace(target, "") ----

  predicate StartsWith(s: string, prefix: string)
  {
    |prefix| <= |s| && s[..|prefix|] == prefix
  }

  /** `target` occurs in `s` starting at index `i`. */
  predicate OccursAt(s: string, target: string, i: int)
  {
    0 <= i && i + |target| <= |s| && s[i..i + |target|] == target
  }

  /** `target` occurs nowhere in `s`. */
  ghost predicate NoOccurrence(s: string, target: string)
  {
    forall i :: !OccursAt(s, target, i)
  }

  /** `s.replace(target, "")`: every occurrence of `target`, scanning from the
      left without overlap, removed. The result is not rescanned. */
  function RemoveAll(s: string, target: string): (r: string)
    requires |target| > 0
    ensures |r| <= |s|
    decreases |s|
  {
    if |s| < |target| then s
    else if s[..|target|] == target then RemoveAll(s[|target|..], target)
    else [s[0]] + RemoveAll(s[1..], target)
  }

  /** A string in which `target` does not occur comes back unchanged. */
  lemma {:induction false} RemoveAllWithoutOccurrence(s: string, target: string)
    requires |target| > 0 && NoOccurrence(s, target)
    ensures RemoveAll(s, target) == s
    decreases |s|
  {
    if |s| >= |target| {
      assert !OccursAt(s, target, 0);
      assert NoOccurrence(s[1..], target) by {
        forall i ensures !OccursAt(s[1..], target, i) {
          assert !OccursAt(s, target, i + 1);
          if 0 <= i && i + |target| <= |s| - 1 {
            assert s[1..][i..i + |target|] == s[i + 1..i + 1 + |target|];
          }
        }
      }
      RemoveAllWithoutOccurrence(s[1..], target);
      assert s == [s[0]] + s[1..];
    }
  }

  /** A leading occurrence is removed, and the scan goes on after it. */
  lemma RemoveAllLeading(target: string, rest: string)
    requires |target| > 0
    ensures RemoveAll(target + rest, target) == RemoveAll(rest, target)
  {
    assert (target + rest)[..|target|] == target;
    assert (target + rest)[|target|..] == rest;
  }
}
