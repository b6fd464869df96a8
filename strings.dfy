/** Strings as sequences of characters, with the few string operations the web
    app uses: ASCII case mapping, `includes`, `split` and `join` on one
    separator character, and upper-casing the first letter. */
module Strings {

  predicate IsUpper(c: char) { 'A' <= c <= 'Z' }
  predicate IsLower(c: char) { 'a' <= c <= 'z' }

  /** `toLowerCase` on one character, restricted to ASCII letters. */
  function LowerChar(c: char): (d: char)
    ensures !IsUpper(d)
    ensures !IsUpper(c) ==> d == c
    ensures IsUpper(c) ==> IsLower(d) && d as int - c as int == 32
  {
    if IsUpper(c) then (c as int + 32) as char else c
  }

  /** `toUpperCase` on one character, restricted to ASCII letters. */
  function UpperChar(c: char): (d: char)
    ensures !IsLower(d)
    ensures !IsLower(c) ==> d == c
    ensures IsLower(c) ==> IsUpper(d) && c as int - d as int == 32
  {
    if IsLower(c) then (c as int - 32) as char else c
  }

  /** `s.toLowerCase()`: every character lower-cased, length kept. */
  function Lower(s: string): (r: string)
    ensures |r| == |s|
    ensures forall i :: 0 <= i < |s| ==> r[i] == LowerChar(s[i])
    ensures forall i :: 0 <= i < |r| ==> !IsUpper(r[i])
  {
    seq(|s|, i requires 0 <= i < |s| => LowerChar(s[i]))
  }

  lemma LowerConcat(s: string, t: string)
    ensures Lower(s + t) == Lower(s) + Lower(t)
  {
    assert forall i :: 0 <= i < |s + t| ==> Lower(s + t)[i] == (Lower(s) + Lower(t))[i];
  }

  /** Lower-casing twice is lower-casing once. */
  lemma LowerIdempotent(s: string)
    ensures Lower(Lower(s)) == Lower(s)
  {
  }

  /** `s.charAt(0).toUpperCase() + s.slice(1)`. */
  function Capitalize(s: string): (r: string)
    ensures |r| == |s|
    ensures |s| > 0 ==> r[0] == UpperChar(s[0]) && r[1..] == s[1..]
    ensures s == "" ==> r == ""
  {
    if s == "" then "" else [UpperChar(s[0])] + s[1..]
  }

  /** Strings that do not start upper-case keep apart when capitalized. */
  lemma CapitalizeInjective(s: string, t: string)
    requires s == "" || !IsUpper(s[0])
    requires t == "" || !IsUpper(t[0])
    ensures Capitalize(s) == Capitalize(t) ==> s == t
  {
    if Capitalize(s) == Capitalize(t) && s != "" {
      assert UpperChar(s[0]) == UpperChar(t[0]);
      assert s[0] == t[0];
      assert s == [s[0]] + s[1..] && t == [t[0]] + t[1..];
    }
  }

  /** `h.includes(n)`: n occurs as a contiguous block somewhere in h. */
  function Includes(h: string, n: string): bool
    decreases |h|
  {
    n <= h || (|h| > 0 && Includes(h[1..], n))
  }

  /** n occurs in h starting at index i. */
  predicate OccursAt(h: string, n: string, i: int)
  {
    0 <= i && i + |n| <= |h| && h[i..i + |n|] == n
  }

  /** `includes` agrees with the reference definition: some occurrence index exists. */
  lemma {:induction false} IncludesIffOccurs(h: string, n: string)
    ensures Includes(h, n) <==> exists i :: OccursAt(h, n, i)
    decreases |h|
  {
    if n <= h {
      assert OccursAt(h, n, 0);
    } else if |h| == 0 {
      assert n != [];
    } else {
      IncludesIffOccurs(h[1..], n);
      if exists i :: OccursAt(h[1..], n, i) {
        var i :| OccursAt(h[1..], n, i);
        assert h[1..][i..i + |n|] == h[i + 1..i + 1 + |n|];
        assert OccursAt(h, n, i + 1);
      }
      if exists i :: OccursAt(h, n, i) {
        var i :| OccursAt(h, n, i);
        assert i != 0;
        assert h[1..][i - 1..i - 1 + |n|] == h[i..i + |n|];
        assert OccursAt(h[1..], n, i - 1);
      }
    }
  }

  /** Every string includes the empty string. */
  lemma IncludesEmpty(h: string)
    ensures Includes(h, "")
  {
  }

  /** A string that includes n + m includes n: a longer needle matches no more. */
  lemma {:induction false} IncludesPrefixOfNeedle(h: string, n: string, m: string)
    requires Includes(h, n + m)
    ensures Includes(h, n)
    decreases |h|
  {
    if n + m <= h {
      assert n <= h by { assert forall k :: 0 <= k < |n| ==> n[k] == (n + m)[k]; }
    } else {
      IncludesPrefixOfNeedle(h[1..], n, m);
    }
  }

  /** `s.split(sep)`: the pieces between separators, always at least one. */
  function Split(s: string, sep: char): (parts: seq<string>)
    ensures |parts| >= 1
    ensures forall k :: 0 <= k < |parts| ==> sep !in parts[k]
    decreases |s|
  {
    if s == [] then [""]
    else
      var rest := Split(s[1..], sep);
      if s[0] == sep then [""] + rest
      else [[s[0]] + rest[0]] + rest[1..]
  }

  /** `parts.join(sep)`. */
  function Join(parts: seq<string>, sep: char): string
    decreases |parts|
  {
    if parts == [] then ""
    else if |parts| == 1 then parts[0]
    else parts[0] + [sep] + Join(parts[1..], sep)
  }

  /** Splitting a string that starts with a separator yields an empty first piece. */
  lemma SplitSepFirst(rest: string, sep: char)
    ensures Split([sep] + rest, sep) == [""] + Split(rest, sep)
  {
    assert ([sep] + rest)[1..] == rest;
  }

  /** Splitting p + rest, where p holds no separator, glues p onto the first piece. */
  lemma {:induction false} SplitNoSepPrefix(p: string, rest: string, sep: char)
    requires sep !in p
    ensures Split(p + rest, sep) == [p + Split(rest, sep)[0]] + Split(rest, sep)[1..]
    decreases |p|
  {
    if p != [] {
      assert (p + rest)[1..] == p[1..] + rest;
      SplitNoSepPrefix(p[1..], rest, sep);
      assert [p[0]] + (p[1..] + Split(rest, sep)[0]) == p + Split(rest, sep)[0];
    } else {
      var parts := Split(rest, sep);
      assert p + rest == rest;
      assert p + parts[0] == parts[0];
      assert parts == [parts[0]] + parts[1..];
    }
  }

  /** Join then split gives back the parts, when no part holds the separator. */
  lemma {:induction false} SplitJoin(parts: seq<string>, sep: char)
    requires |parts| >= 1
    requires forall k :: 0 <= k < |parts| ==> sep !in parts[k]
    ensures Split(Join(parts, sep), sep) == parts
    decreases |parts|
  {
    if |parts| == 1 {
      SplitNoSepPrefix(parts[0], "", sep);
      assert parts[0] + "" == parts[0];
    } else {
      var tail := Join(parts[1..], sep);
      SplitJoin(parts[1..], sep);
      SplitSepFirst(tail, sep);
      SplitNoSepPrefix(parts[0], [sep] + tail, sep);
      assert Join(parts, sep) == parts[0] + ([sep] + tail);
      var after := Split([sep] + tail, sep);
      assert after == [""] + parts[1..];
      assert after[0] == "" && after[1..] == parts[1..];
      assert parts[0] + "" == parts[0];
      assert parts == [parts[0]] + parts[1..];
    }
  }

  /** Split then join gives back the string. */
  lemma {:induction false} JoinSplit(s: string, sep: char)
    ensures Join(Split(s, sep), sep) == s
    decreases |s|
  {
    if s != [] {
      var rest := Split(s[1..], sep);
      JoinSplit(s[1..], sep);
      if s[0] == sep {
        assert ([""] + rest)[1..] == rest;
      } else {
        var parts := [[s[0]] + rest[0]] + rest[1..];
        if |rest| == 1 {
          assert rest[0] == s[1..];
        } else {
          assert rest == [rest[0]] + rest[1..];
          assert parts[1..] == rest[1..];
          assert Join(rest, sep) == rest[0] + [sep] + Join(rest[1..], sep);
        }
      }
    }
  }

  /** Joining one more part appends a separator and that part. */
  lemma {:induction false} JoinSnoc(parts: seq<string>, p: string, sep: char)
    requires |parts| >= 1
    ensures Join(parts + [p], sep) == Join(parts, sep) + [sep] + p
    decreases |parts|
  {
    if |parts| == 1 {
      assert (parts + [p])[1..] == [p];
    } else {
      assert (parts + [p])[1..] == parts[1..] + [p];
      JoinSnoc(parts[1..], p, sep);
    }
  }
}
