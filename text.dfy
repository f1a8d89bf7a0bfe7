/** The Python string operations the billing pipeline relies on:
    `str.strip()`, `str.lower()`, `str.split(sep)`, `str.split(sep, maxsplit)`
    and the ordering of `str` values. */
module Text {
  import opened Wrappers

  /** Python's `str.isspace()` for one character (the characters `str.strip()` removes). */
  predicate IsSpace(c: char) {
    var n := c as int;
    n == 0x20 || (0x09 <= n <= 0x0D) || (0x1C <= n <= 0x1F) || n == 0x85 || n == 0xA0
    || n == 0x1680 || (0x2000 <= n <= 0x200A) || n == 0x2028 || n == 0x2029
    || n == 0x202F || n == 0x205F || n == 0x3000
  }

  /** The number of white-space characters at the start of `s`. */
  function LeadingSpaces(s: string): (n: nat)
    ensures n <= |s|
    ensures forall i :: 0 <= i < n ==> IsSpace(s[i])
    ensures n < |s| ==> !IsSpace(s[n])
  {
    if s != [] && IsSpace(s[0]) then 1 + LeadingSpaces(s[1..]) else 0
  }

  /** The number of white-space characters at the end of `s`. */
  function TrailingSpaces(s: string): (n: nat)
    ensures n <= |s|
    ensures forall i :: |s| - n <= i < |s| ==> IsSpace(s[i])
    ensures n < |s| ==> !IsSpace(s[|s| - 1 - n])
  {
    if s != [] && IsSpace(s[|s| - 1]) then 1 + TrailingSpaces(s[..|s| - 1]) else 0
  }

  /** `s.strip()`: the longest infix of `s` that neither starts nor ends with white space,
      obtained by removing white space only. */
  function Strip(s: string): (r: string)
    ensures LeadingSpaces(s) + |r| <= |s|
    ensures r == s[LeadingSpaces(s)..LeadingSpaces(s) + |r|]
    ensures forall i :: LeadingSpaces(s) + |r| <= i < |s| ==> IsSpace(s[i])
    ensures r != [] ==> !IsSpace(r[0]) && !IsSpace(r[|r| - 1])
  {
    var a := LeadingSpaces(s);
    if a == |s| then [] else s[a..|s| - TrailingSpaces(s)]
  }

  /** The three properties of `LeadingSpaces` pin the count down. */
  lemma LeadingSpacesUnique(s: string, n: nat)
    requires n <= |s| && forall i :: 0 <= i < n ==> IsSpace(s[i])
    requires n < |s| ==> !IsSpace(s[n])
    ensures LeadingSpaces(s) == n
  {
  }

  /** The three properties of `TrailingSpaces` pin the count down. */
  lemma TrailingSpacesUnique(s: string, n: nat)
    requires n <= |s| && forall i :: |s| - n <= i < |s| ==> IsSpace(s[i])
    requires n < |s| ==> !IsSpace(s[|s| - 1 - n])
    ensures TrailingSpaces(s) == n
  {
  }

  /** `strip` removes any white space added around a string that neither starts nor
      ends with white space. */
  lemma StripAround(pre: string, s: string, post: string)
    requires forall i :: 0 <= i < |pre| ==> IsSpace(pre[i])
    requires forall i :: 0 <= i < |post| ==> IsSpace(post[i])
    requires s != [] && !IsSpace(s[0]) && !IsSpace(s[|s| - 1])
    ensures Strip(pre + s + post) == s
  {
    var t := pre + s + post;
    var e := |pre| + |s|;
    assert t[|pre|] == s[0] && t[e - 1] == s[|s| - 1];
    assert forall i :: 0 <= i < |pre| ==> t[i] == pre[i];
    assert forall i :: e <= i < |t| ==> t[i] == post[i - e];
    LeadingSpacesUnique(t, |pre|);
    TrailingSpacesUnique(t, |post|);
    assert t[|pre|..e] == s;
  }

  /** Lower-casing of one character; only the ASCII capitals change. */
  function LowerChar(c: char): char {
    if 'A' <= c <= 'Z' then (c as int + 32) as char else c
  }

  /** `s.lower()`, restricted to ASCII letters. */
  function Lower(s: string): (r: string)
    ensures |r| == |s|
    ensures forall i :: 0 <= i < |s| ==> r[i] == LowerChar(s[i])
  {
    seq(|s|, i requires 0 <= i < |s| => LowerChar(s[i]))
  }

  /** The first position of `c` in `s`, if any. */
  function Find(s: string, c: char): (r: Option<nat>)
    ensures r.None? ==> c !in s
    ensures r.Some? ==> r.value < |s| && s[r.value] == c && c !in s[..r.value]
  {
    if s == [] then None
    else if s[0] == c then Some(0)
    else match Find(s[1..], c)
      case None => None
      case Some(k) =>
        assert s[..k + 1] == [s[0]] + s[1..][..k];
        Some(k + 1)
  }

  /** `sep.join(parts)` for a one-character separator. */
  function Join(parts: seq<string>, sep: char): string
    requires |parts| > 0
  {
    if |parts| == 1 then parts[0] else parts[0] + [sep] + Join(parts[1..], sep)
  }

  /** The joined string starts with the first part. */
  lemma JoinHead(parts: seq<string>, sep: char)
    requires |parts| > 0
    ensures |parts[0]| <= |Join(parts, sep)| && Join(parts, sep)[..|parts[0]|] == parts[0]
  {
    if |parts| > 1 {
      assert Join(parts, sep) == parts[0] + ([sep] + Join(parts[1..], sep));
    }
  }

  /** The joined string ends with the last part. */
  lemma {:induction false} JoinLast(parts: seq<string>, sep: char)
    requires |parts| > 0
    ensures var j, last := Join(parts, sep), parts[|parts| - 1];
            |last| <= |j| && j[|j| - |last|..] == last
    decreases |parts|
  {
    if |parts| > 1 {
      var rest := parts[1..];
      JoinLast(rest, sep);
      assert rest[|rest| - 1] == parts[|parts| - 1];
      var tail := Join(rest, sep);
      var j := parts[0] + [sep] + tail;
      assert j[|j| - |tail|..] == tail;
    }
  }

  /** `s.split(sep)`: the pieces between the separators, in order. */
  function Split(s: string, sep: char): (parts: seq<string>)
    ensures |parts| > 0
    ensures Join(parts, sep) == s
    ensures forall i :: 0 <= i < |parts| ==> sep !in parts[i]
    decreases |s|
  {
    match Find(s, sep)
    case None => [s]
    case Some(k) =>
      var rest := Split(s[k + 1..], sep);
      assert ([s[..k]] + rest)[1..] == rest;
      assert s == s[..k] + [sep] + s[k + 1..];
      [s[..k]] + rest
  }

  /** `s.split(sep, n)`: at most `n` splits from the left; the last piece keeps
      every remaining separator. */
  function SplitN(s: string, sep: char, n: nat): (parts: seq<string>)
    ensures 0 < |parts| <= n + 1
    ensures Join(parts, sep) == s
    ensures forall i :: 0 <= i < |parts| - 1 ==> sep !in parts[i]
    ensures |parts| <= n ==> sep !in parts[|parts| - 1]
    decreases n
  {
    if n == 0 then [s]
    else match Find(s, sep)
      case None => [s]
      case Some(k) =>
        var rest := SplitN(s[k + 1..], sep, n - 1);
        var parts := [s[..k]] + rest;
        assert parts[0] == s[..k] && parts[1..] == rest;
        assert forall i :: 0 < i < |parts| ==> parts[i] == rest[i - 1];
        assert s == s[..k] + [sep] + s[k + 1..];
        parts
  }

  /** The separator right after a separator-free prefix is the first one. */
  lemma FindAfter(a: string, sep: char, b: string)
    requires sep !in a
    ensures Find(a + [sep] + b, sep) == Some(|a|)
  {
    var s := a + [sep] + b;
    assert s[|a|] == sep;
    assert s[..|a|] == a;
  }

  /** Splitting at the first separator: a separator-free head, then the rest split. */
  lemma SplitNStep(a: string, sep: char, b: string, n: nat)
    requires sep !in a && n > 0
    ensures SplitN(a + [sep] + b, sep, n) == [a] + SplitN(b, sep, n - 1)
  {
    var s := a + [sep] + b;
    FindAfter(a, sep, b);
    assert s[..|a|] == a && s[|a| + 1..] == b;
  }

  lemma SplitStep(a: string, sep: char, b: string)
    requires sep !in a
    ensures Split(a + [sep] + b, sep) == [a] + Split(b, sep)
  {
    var s := a + [sep] + b;
    FindAfter(a, sep, b);
    assert s[..|a|] == a && s[|a| + 1..] == b;
  }

  /** Splitting undoes joining: `sep.join(ps).split(sep) == ps` when no piece holds `sep`. */
  lemma {:induction false} SplitJoin(parts: seq<string>, sep: char)
    requires |parts| > 0
    requires forall i :: 0 <= i < |parts| ==> sep !in parts[i]
    ensures Split(Join(parts, sep), sep) == parts
    decreases |parts|
  {
    if |parts| == 1 {
      assert Find(parts[0], sep).None?;
    } else {
      var rest := parts[1..];
      SplitStep(parts[0], sep, Join(rest, sep));
      assert forall i :: 0 <= i < |rest| ==> rest[i] == parts[i + 1];
      SplitJoin(rest, sep);
      assert parts == [parts[0]] + rest;
    }
  }

  /** The bounded split is the full one when that has at most `n + 1` pieces. */
  lemma {:induction false} SplitNShort(s: string, sep: char, n: nat)
    requires |Split(s, sep)| <= n + 1
    ensures SplitN(s, sep, n) == Split(s, sep)
    decreases n
  {
    if n == 0 {
      assert Split(s, sep) == [Join(Split(s, sep), sep)];
    } else if Find(s, sep).Some? {
      var k := Find(s, sep).value;
      SplitNShort(s[k + 1..], sep, n - 1);
    }
  }

  /** With more than `n + 1` pieces, the bounded split has `n + 1` pieces and its
      first `n` are those of the full split. */
  lemma {:induction false} SplitNLong(s: string, sep: char, n: nat)
    requires |Split(s, sep)| > n + 1
    ensures |SplitN(s, sep, n)| == n + 1
    ensures forall i :: 0 <= i < n ==> SplitN(s, sep, n)[i] == Split(s, sep)[i]
    decreases n
  {
    if n > 0 {
      var k := Find(s, sep).value;
      SplitNLong(s[k + 1..], sep, n - 1);
      var part := SplitN(s, sep, n);
      var full := Split(s, sep);
      assert part[1..] == SplitN(s[k + 1..], sep, n - 1);
      assert full[1..] == Split(s[k + 1..], sep);
      forall i | 0 < i < n ensures part[i] == full[i] {
        assert part[i] == part[1..][i - 1] && full[i] == full[1..][i - 1];
      }
    }
  }

  /** Python's `<` on `str`: lexicographic order of code points. */
  predicate Less(a: string, b: string)
    decreases |a|
  {
    if a == [] then b != []
    else b != [] && (a[0] < b[0] || (a[0] == b[0] && Less(a[1..], b[1..])))
  }

  lemma {:induction false} LessIrreflexive(a: string)
    ensures !Less(a, a)
    decreases |a|
  {
    if a != [] { LessIrreflexive(a[1..]); }
  }

  lemma {:induction false} LessTransitive(a: string, b: string, c: string)
    requires Less(a, b) && Less(b, c)
    ensures Less(a, c)
    decreases |a|
  {
    if a != [] && a[0] == b[0] && b[0] == c[0] {
      LessTransitive(a[1..], b[1..], c[1..]);
    }
  }

  lemma {:induction false} LessTotal(a: string, b: string)
    ensures a == b || Less(a, b) || Less(b, a)
    decreases |a|
  {
    if a != [] && b != [] && a[0] == b[0] {
      LessTotal(a[1..], b[1..]);
      if a[1..] == b[1..] {
        assert a == [a[0]] + a[1..] && b == [b[0]] + b[1..];
      }
    }
  }

  lemma LessAsymmetric(a: string, b: string)
    requires Less(a, b)
    ensures !Less(b, a) && a != b
  {
    if Less(b, a) { LessTransitive(a, b, a); LessIrreflexive(a); }
    if a == b { LessIrreflexive(a); }
  }
}
