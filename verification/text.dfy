/** String helpers mirroring the JavaScript string methods the backend uses. */
module Text {
  import opened Wrappers
  import Seqs

  predicate IsAsciiUpper(c: char) { 'A' <= c <= 'Z' }
  predicate IsAsciiLower(c: char) { 'a' <= c <= 'z' }
  predicate IsDigit(c: char) { '0' <= c <= '9' }

  /** Characters of the regular-expression class `[a-z0-9]`. */
  predicate IsLowerAlnum(c: char) { IsAsciiLower(c) || IsDigit(c) }

  /** Characters of the regular-expression class `[a-z0-9_]`. */
  predicate IsLowerAlnumOrUnderscore(c: char) { IsLowerAlnum(c) || c == '_' }

  /** Characters of the regular-expression class `[a-zA-Z0-9_]`. */
  predicate IsWordChar(c: char) { IsAsciiUpper(c) || IsLowerAlnumOrUnderscore(c) }

  /** An optional string argument is truthy: present and not empty. */
  predicate Present(s: Option<string>) { s.Some? && s.value != "" }

  /** `(s || fallback)` for an optional string argument: absent or empty strings are falsy. */
  function OrDefault(s: Option<string>, fallback: string): (r: string)
    ensures !Present(s) ==> r == fallback
    ensures Present(s) ==> r == s.value
  {
    if Present(s) then s.value else fallback
  }

  /** `(s || null)` for an optional string argument. */
  function OrNull(s: Option<string>): (r: Option<string>)
    ensures r.None? <==> !Present(s)
    ensures r.Some? ==> r == s
  {
    if Present(s) then s else None
  }

  /** `toLowerCase` on one character (ASCII letters only). */
  function LowerChar(c: char): (r: char)
    ensures !IsAsciiUpper(r)
    ensures IsAsciiLower(r) <==> IsAsciiLower(c) || IsAsciiUpper(c)
    ensures !IsAsciiUpper(c) ==> r == c
  {
    if IsAsciiUpper(c) then (c as int - 'A' as int + 'a' as int) as char else c
  }

  /** `String.prototype.toLowerCase` (ASCII letters only). */
  function Lower(s: string): (r: string)
    ensures |r| == |s|
    ensures forall i :: 0 <= i < |s| ==> r[i] == LowerChar(s[i])
  {
    if |s| == 0 then "" else [LowerChar(s[0])] + Lower(s[1..])
  }

  /** `s.replace(/[^class]/g, '')`: keeps exactly the characters satisfying `allowed`, in order. */
  function Keep(s: string, allowed: char -> bool): (r: string)
    ensures forall i :: 0 <= i < |r| ==> allowed(r[i])
    ensures forall i :: 0 <= i < |s| && allowed(s[i]) ==> s[i] in r
    ensures forall c :: c in r ==> c in s
  {
    Seqs.Filter(s, allowed)
  }

  /** `String.prototype.startsWith`. */
  predicate StartsWith(s: string, prefix: string)
  {
    |prefix| <= |s| && s[..|prefix|] == prefix
  }

  /** Index of the first occurrence of `c` in `s` (`indexOf`), if any. */
  function IndexOf(s: string, c: char): (r: Option<nat>)
    ensures r.Some? ==> r.value < |s| && s[r.value] == c && c !in s[..r.value]
    ensures r.None? <==> c !in s
  {
    Seqs.FindIndex(s, x => x == c)
  }

  /** `s.split(c)` for a one-character separator: the maximal separator-free pieces. */
  function Split(s: string, c: char): (r: seq<string>)
    ensures |r| >= 1
    ensures forall i :: 0 <= i < |r| ==> c !in r[i]
    decreases |s|
  {
    match IndexOf(s, c)
    case None => [s]
    case Some(i) => [s[..i]] + Split(s[i + 1..], c)
  }

  /** `parts.join(sep)`. */
  function Join(parts: seq<string>, sep: string): string
  {
    if |parts| == 0 then ""
    else if |parts| == 1 then parts[0]
    else parts[0] + sep + Join(parts[1..], sep)
  }

  /** Joining the pieces of a split with the separator gives back the original string. */
  lemma {:induction false} JoinSplit(s: string, c: char)
    ensures Join(Split(s, c), [c]) == s
    decreases |s|
  {
    match IndexOf(s, c)
    case None =>
    case Some(i) =>
      var rest := Split(s[i + 1..], c);
      JoinSplit(s[i + 1..], c);
      assert Split(s, c) == [s[..i]] + rest;
      assert s == s[..i] + [c] + s[i + 1..];
  }

  /** Splitting a join of separator-free pieces gives back the pieces. */
  lemma {:induction false} SplitJoin(parts: seq<string>, c: char)
    requires |parts| >= 1
    requires forall i :: 0 <= i < |parts| ==> c !in parts[i]
    ensures Split(Join(parts, [c]), c) == parts
  {
    if |parts| == 1 {
      assert IndexOf(parts[0], c).None?;
    } else {
      var head, rest := parts[0], parts[1..];
      forall i | 0 <= i < |rest|
        ensures c !in rest[i]
      {
        assert rest[i] == parts[i + 1];
      }
      SplitJoin(rest, c);
      SplitJoinStep(head, rest, c);
      assert parts == [head] + rest;
    }
  }

  /** One more separator-free piece in front of a join that splits back. */
  lemma SplitJoinStep(head: string, rest: seq<string>, c: char)
    requires |rest| >= 1 && c !in head
    requires Split(Join(rest, [c]), c) == rest
    ensures Split(Join([head] + rest, [c]), c) == [head] + rest
  {
    var parts := [head] + rest;
    assert parts[0] == head && parts[1..] == rest;
    assert Join(parts, [c]) == head + [c] + Join(rest, [c]);
    SplitPrefix(head, c, Join(rest, [c]));
  }

  /** Splitting at a separator that follows a separator-free prefix peels that prefix off. */
  lemma SplitPrefix(head: string, c: char, tail: string)
    requires c !in head
    ensures Split(head + [c] + tail, c) == [head] + Split(tail, c)
  {
    var s := head + [c] + tail;
    assert s[..|head|] == head;
    assert s[|head|] == c;
    assert IndexOf(s, c) == Some(|head|);
    assert s[|head| + 1..] == tail;
  }

  /** Lower-casing leaves a string without upper-case ASCII letters unchanged. */
  lemma {:induction false} LowerUnchanged(s: string)
    requires forall i :: 0 <= i < |s| ==> !IsAsciiUpper(s[i])
    ensures Lower(s) == s
  {
    if |s| > 0 {
      LowerUnchanged(s[1..]);
    }
  }

  /**
   * Reference reading of lower-casing followed by stripping, one character at a time:
   * each character is lower-cased and kept exactly when the result is allowed.
   */
  function Scrub(s: string, allowed: char -> bool): string
  {
    if |s| == 0 then "" else ScrubChar(s[0], allowed) + Scrub(s[1..], allowed)
  }

  /** One character of `Scrub`: its lower-case form when that is allowed, nothing otherwise. */
  function ScrubChar(c: char, allowed: char -> bool): string
  {
    if allowed(LowerChar(c)) then [LowerChar(c)] else []
  }

  /** Lower-casing a string and then stripping it is the character-wise `Scrub`. */
  lemma {:induction false} KeepLowerIsScrub(s: string, allowed: char -> bool)
    ensures Keep(Lower(s), allowed) == Scrub(s, allowed)
  {
    if |s| > 0 {
      assert Lower(s) == [LowerChar(s[0])] + Lower(s[1..]);
      Seqs.FilterCons(LowerChar(s[0]), Lower(s[1..]), allowed);
      KeepLowerIsScrub(s[1..], allowed);
    }
  }

  /** `Scrub` works piecewise: scrubbing a concatenation scrubs each part. */
  lemma {:induction false} ScrubAppend(a: string, b: string, allowed: char -> bool)
    ensures Scrub(a + b, allowed) == Scrub(a, allowed) + Scrub(b, allowed)
  {
    if |a| > 0 {
      var kept := ScrubChar(a[0], allowed);
      assert (a + b)[0] == a[0];
      assert (a + b)[1..] == a[1..] + b;
      ScrubAppend(a[1..], b, allowed);
      Seqs.AppendAssoc(kept, Scrub(a[1..], allowed), Scrub(b, allowed));
    } else {
      assert a + b == b;
    }
  }

  /** Stripping leaves a string made only of allowed characters unchanged. */
  lemma KeepUnchanged(s: string, allowed: char -> bool)
    requires forall i :: 0 <= i < |s| ==> allowed(s[i])
    ensures Keep(s, allowed) == s
  {
    Seqs.FilterAll(s, allowed);
  }

  /** The first occurrence of a separator that follows a separator-free prefix is right after it. */
  lemma IndexOfAfterPrefix(head: string, c: char, tail: string)
    requires c !in head
    ensures IndexOf(head + [c] + tail, c) == Some(|head|)
    ensures (head + [c] + tail)[..|head|] == head
  {
    var s := head + [c] + tail;
    assert s[..|head|] == head;
    assert s[|head|] == c;
  }
}
