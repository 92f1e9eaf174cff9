/** The Python string operations the analysis code uses, written out:
 *  `startswith`, `replace`, `strip`, `capitalize` and `join`, and the
 *  splitting that inverts `join`. */
module Strings {

  /** `s.startswith(prefix)`. Every string starts with the empty prefix. */
  predicate StartsWith(s: string, prefix: string)
  {
    |prefix| <= |s| && s[..|prefix|] == prefix
  }

  /** `sub in s`: `sub` occurs in `s` at some position. */
  predicate Occurs(s: string, sub: string)
    decreases |s|
  {
    StartsWith(s, sub) || (|s| > 0 && Occurs(s[1..], sub))
  }

  /** `s.replace(pat, '')`: every non-overlapping occurrence of `pat` found
   *  scanning `s` from the left is removed; an empty `pat` changes nothing. */
  function RemoveAll(s: string, pat: string): (r: string)
    ensures |r| <= |s|
    decreases |s|
  {
    if |pat| == 0 || |s| == 0 then s
    else if StartsWith(s, pat) then RemoveAll(s[|pat|..], pat)
    else [s[0]] + RemoveAll(s[1..], pat)
  }

  /** A string in which `pat` does not occur is left as it is. */
  lemma {:induction false} RemoveAllAbsent(s: string, pat: string)
    requires !Occurs(s, pat)
    ensures RemoveAll(s, pat) == s
    decreases |s|
  {
    if |pat| > 0 && |s| > 0 {
      RemoveAllAbsent(s[1..], pat);
      assert s == [s[0]] + s[1..];
    }
  }

  /** A non-empty `sub` whose first character is not in `s` does not occur in `s`. */
  lemma {:induction false} AbsentFirstChar(s: string, sub: string)
    requires |sub| > 0 && sub[0] !in s
    ensures !Occurs(s, sub)
    decreases |s|
  {
    if |s| > 0 {
      AbsentFirstChar(s[1..], sub);
    }
  }

  /** A leading occurrence of `pat` is the first one removed. */
  lemma RemoveAllLeading(pat: string, rest: string)
    requires |pat| > 0
    ensures RemoveAll(pat + rest, pat) == RemoveAll(rest, pat)
  {
    assert (pat + rest)[..|pat|] == pat;
    assert (pat + rest)[|pat|..] == rest;
  }

  /** Removing text never introduces a character. */
  lemma {:induction false} RemoveAllChars(s: string, pat: string, c: char)
    requires c !in s
    ensures c !in RemoveAll(s, pat)
    decreases |s|
  {
    if |pat| > 0 && |s| > 0 {
      if StartsWith(s, pat) {
        RemoveAllChars(s[|pat|..], pat, c);
      } else {
        RemoveAllChars(s[1..], pat, c);
      }
    }
  }

  /** `s.replace(a, b)` for single characters. */
  function ReplaceChar(s: string, a: char, b: char): (r: string)
    ensures |r| == |s|
    ensures a != b ==> a !in r
    ensures forall i :: 0 <= i < |s| && s[i] == a ==> r[i] == b
    ensures forall i :: 0 <= i < |s| && s[i] != a ==> r[i] == s[i]
  {
    seq(|s|, i requires 0 <= i < |s| => if s[i] == a then b else s[i])
  }

  /** The characters for which Python's `str.isspace()` holds, which `strip()` removes. */
  predicate IsSpace(c: char)
  {
    var n := c as int;
    (0x09 <= n <= 0x0D) || (0x1C <= n <= 0x20) || n == 0x85 || n == 0xA0 || n == 0x1680
    || (0x2000 <= n <= 0x200A) || n == 0x2028 || n == 0x2029 || n == 0x202F || n == 0x205F
    || n == 0x3000
  }

  /** `s.lstrip()`: a suffix of `s` that does not start with white space. */
  function StripStart(s: string): (r: string)
    ensures |r| <= |s| && r == s[|s| - |r|..]
    ensures |r| == 0 || !IsSpace(r[0])
    decreases |s|
  {
    if |s| > 0 && IsSpace(s[0]) then StripStart(s[1..]) else s
  }

  /** `s.rstrip()`: a prefix of `s` that does not end with white space. */
  function StripEnd(s: string): (r: string)
    ensures |r| <= |s| && r == s[..|r|]
    ensures |r| == 0 || !IsSpace(r[|r| - 1])
    decreases |s|
  {
    if |s| > 0 && IsSpace(s[|s| - 1]) then StripEnd(s[..|s| - 1]) else s
  }

  /** `lstrip` removes only white space. */
  lemma {:induction false} StripStartRemovesSpace(s: string)
    ensures forall k :: 0 <= k < |s| - |StripStart(s)| ==> IsSpace(s[k])
    decreases |s|
  {
    if |s| > 0 && IsSpace(s[0]) {
      StripStartRemovesSpace(s[1..]);
      forall k | 0 < k < |s| - |StripStart(s)| ensures IsSpace(s[k]) {
        assert s[k] == s[1..][k - 1];
      }
    }
  }

  /** `rstrip` removes only white space. */
  lemma {:induction false} StripEndRemovesSpace(s: string)
    ensures forall k :: |StripEnd(s)| <= k < |s| ==> IsSpace(s[k])
    decreases |s|
  {
    if |s| > 0 && IsSpace(s[|s| - 1]) {
      StripEndRemovesSpace(s[..|s| - 1]);
      forall k | |StripEnd(s)| <= k < |s| - 1 ensures IsSpace(s[k]) {
        assert s[k] == s[..|s| - 1][k];
      }
    }
  }

  /** `s.strip()`. */
  function Strip(s: string): string
  {
    StripEnd(StripStart(s))
  }

  lemma StripStartFixed(s: string)
    requires |s| == 0 || !IsSpace(s[0])
    ensures StripStart(s) == s
  {
  }

  lemma StripEndFixed(s: string)
    requires |s| == 0 || !IsSpace(s[|s| - 1])
    ensures StripEnd(s) == s
  {
  }

  /** A stripped string neither starts nor ends with white space, so stripping again changes nothing. */
  lemma StripIdempotent(s: string)
    ensures var r := Strip(s); |r| == 0 || (!IsSpace(r[0]) && !IsSpace(r[|r| - 1]))
    ensures Strip(Strip(s)) == Strip(s)
  {
    var a := StripStart(s);
    var r := StripEnd(a);
    assert |r| == 0 || !IsSpace(r[0]) by {
      if |r| > 0 {
        assert r[0] == a[0];
      }
    }
    StripStartFixed(r);
    StripEndFixed(r);
  }

  predicate IsAsciiUpper(c: char) { 'A' <= c <= 'Z' }
  predicate IsAsciiLower(c: char) { 'a' <= c <= 'z' }

  function ToUpper(c: char): (u: char)
    ensures !IsAsciiLower(u)
    ensures !IsAsciiLower(c) ==> u == c
  {
    if IsAsciiLower(c) then (c as int - 'a' as int + 'A' as int) as char else c
  }

  function ToLower(c: char): (l: char)
    ensures !IsAsciiUpper(l)
    ensures !IsAsciiUpper(c) ==> l == c
  {
    if IsAsciiUpper(c) then (c as int - 'A' as int + 'a' as int) as char else c
  }

  /** `s.capitalize()`: the first character in upper case, the rest in lower case. */
  function Capitalize(s: string): (r: string)
    ensures |r| == |s|
    ensures |s| > 0 ==> r[0] == ToUpper(s[0]) && !IsAsciiLower(r[0])
    ensures forall i :: 0 < i < |s| ==> r[i] == ToLower(s[i]) && !IsAsciiUpper(r[i])
  {
    if |s| == 0 then ""
    else [ToUpper(s[0])] + seq(|s| - 1, i requires 0 <= i < |s| - 1 => ToLower(s[i + 1]))
  }

  /** Capitalizing twice is capitalizing once. */
  lemma CapitalizeIdempotent(s: string)
    ensures Capitalize(Capitalize(s)) == Capitalize(s)
  {
  }

  /** Capitalizing changes only letters: a character that is not a letter occurs in the result iff it occurs in the input. */
  lemma CapitalizeKeepsNonLetters(s: string, c: char)
    requires !IsAsciiUpper(c) && !IsAsciiLower(c)
    ensures c in Capitalize(s) <==> c in s
  {
    var r := Capitalize(s);
    if c in s {
      var i :| 0 <= i < |s| && s[i] == c;
      assert r[i] == c;
    }
    if c in r {
      var i :| 0 <= i < |r| && r[i] == c;
      assert s[i] == c;
    }
  }

  /** `sep.join(parts)`. */
  function Join(parts: seq<string>, sep: string): string
    decreases |parts|
  {
    if |parts| == 0 then ""
    else if |parts| == 1 then parts[0]
    else parts[0] + sep + Join(parts[1..], sep)
  }

  /** The position of the first occurrence of `sep` in `s`, or -1 (`s.find(sep)`). */
  function IndexOf(s: string, sep: string): (i: int)
    requires |sep| > 0
    ensures i == -1 || (0 <= i <= |s| - |sep| && s[i..i + |sep|] == sep)
    decreases |s|
  {
    if |s| < |sep| then -1
    else if s[..|sep|] == sep then 0
    else
      var j := IndexOf(s[1..], sep);
      if j < 0 then -1 else j + 1
  }

  /** `s.split(sep)`, the inverse of `Join` for parts that do not hold the separator. */
  function Split(s: string, sep: string): seq<string>
    requires |sep| > 0
    decreases |s|
  {
    var i := IndexOf(s, sep);
    if i < 0 then [s] else [s[..i]] + Split(s[i + |sep|..], sep)
  }

  /** " + " does not occur in a string without '+'. */
  lemma {:induction false} PlusAbsent(s: string)
    requires '+' !in s
    ensures IndexOf(s, " + ") == -1
    decreases |s|
  {
    if |s| >= 3 {
      assert s[1] != '+';
      PlusAbsent(s[1..]);
    }
  }

  /** In `head + " + " + tail`, with no '+' in `head`, the first " + " follows `head`. */
  lemma {:induction false} PlusAfterHead(head: string, tail: string)
    requires '+' !in head
    ensures IndexOf(head + " + " + tail, " + ") == |head|
    decreases |head|
  {
    var s := head + " + " + tail;
    if |head| == 0 {
      assert s[..3] == " + ";
    } else {
      assert s[1] != '+' by {
        if |head| == 1 { assert s[1] == ' '; } else { assert s[1] == head[1]; }
      }
      assert s[..3] != " + ";
      assert s[1..] == head[1..] + " + " + tail;
      PlusAfterHead(head[1..], tail);
    }
  }

  /** Splitting `head + " + " + tail` for a '+'-free `head` gives `head`, then the pieces of `tail`. */
  lemma SplitAfterHead(head: string, tail: string)
    requires '+' !in head
    ensures Split(head + " + " + tail, " + ") == [head] + Split(tail, " + ")
  {
    var s := head + " + " + tail;
    PlusAfterHead(head, tail);
    assert s[..|head|] == head;
    assert s[|head| + 3..] == tail;
  }

  /** Splitting a " + "-joined list of '+'-free parts gives back the parts. */
  lemma {:induction false} SplitJoinPlus(parts: seq<string>)
    requires |parts| > 0
    requires forall k :: 0 <= k < |parts| ==> '+' !in parts[k]
    ensures Split(Join(parts, " + "), " + ") == parts
    decreases |parts|
  {
    if |parts| == 1 {
      PlusAbsent(parts[0]);
    } else {
      var tail := parts[1..];
      assert Join(parts, " + ") == parts[0] + " + " + Join(tail, " + ");
      SplitAfterHead(parts[0], Join(tail, " + "));
      SplitJoinPlus(tail);
      assert parts == [parts[0]] + tail;
    }
  }
}
