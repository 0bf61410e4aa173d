/**
 * The few JavaScript string operations the generator layer relies on:
 * `split` and `join` with a one-character separator, prefix tests,
 * `indexOf(sub) !== -1` and an ASCII `toUpperCase`.
 */
module Strings {

  /** `s.split(c)`: the pieces between separators; never empty, `"".split(c)` is `[""]`. */
  function Split(s: string, c: char): (r: seq<string>)
    ensures |r| >= 1
    ensures forall i :: 0 <= i < |r| ==> c !in r[i]
    decreases |s|
  {
    if |s| == 0 then [""]
    else
      var rest := Split(s[1..], c);
      if s[0] == c then [""] + rest
      else [[s[0]] + rest[0]] + rest[1..]
  }

  /** `parts.join(c)` */
  function Join(parts: seq<string>, c: char): (s: string)
  {
    if |parts| == 0 then ""
    else if |parts| == 1 then parts[0]
    else parts[0] + [c] + Join(parts[1..], c)
  }

  /** `s.split(a).join(b)`: every `a` in `s` replaced by `b`. */
  function Replace(s: string, a: char, b: char): (r: string)
  {
    Join(Split(s, a), b)
  }

  /** The character-by-character reading of a replacement. */
  function Substitute(s: string, a: char, b: char): (r: string)
    ensures |r| == |s|
    ensures forall i :: 0 <= i < |s| ==> r[i] == (if s[i] == a then b else s[i])
  {
    seq(|s|, i requires 0 <= i < |s| => if s[i] == a then b else s[i])
  }

  predicate IsPrefix(p: string, s: string)
  {
    |p| <= |s| && s[..|p|] == p
  }

  predicate IsSuffix(p: string, s: string)
  {
    |p| <= |s| && s[|s| - |p|..] == p
  }

  /** `s.indexOf(sub) !== -1` */
  predicate Contains(s: string, sub: string)
    decreases |s|
  {
    IsPrefix(sub, s) || (|s| > 0 && Contains(s[1..], sub))
  }

  /** `s.replace(/^p/, '')` for a literal prefix `p`. */
  function StripPrefix(s: string, p: string): (r: string)
    ensures IsPrefix(p, s) ==> p + r == s
    ensures !IsPrefix(p, s) ==> r == s
  {
    if IsPrefix(p, s) then s[|p|..] else s
  }

  /** `c.toUpperCase()` on the ASCII letters. */
  function UpperAscii(c: char): (u: char)
  {
    if 'a' <= c <= 'z' then (c as int - 'a' as int + 'A' as int) as char else c
  }

  // ---------------------------------------------------------------------------
  // Lemmas

  /** Concatenation regroups freely; stated once so loops that extend a log can cite it. */
  lemma AppendAssoc<T>(a: seq<T>, b: seq<T>, c: seq<T>)
    ensures a + b + c == a + (b + c)
  {
  }

  /** The first piece of a split is the text before the first separator, all of it when there is none. */
  lemma {:induction false} SplitFirstIsPrefix(s: string, c: char)
    ensures IsPrefix(Split(s, c)[0], s)
    ensures c !in s ==> Split(s, c)[0] == s
    decreases |s|
  {
    if |s| > 0 && s[0] != c {
      SplitFirstIsPrefix(s[1..], c);
      assert s == [s[0]] + s[1..];
    }
  }

  /** Joining the pieces of a split gives the string back. */
  lemma {:induction false} JoinSplit(s: string, c: char)
    ensures Join(Split(s, c), c) == s
    decreases |s|
  {
    if |s| > 0 {
      var rest := Split(s[1..], c);
      JoinSplit(s[1..], c);
      if s[0] == c {
        assert Split(s, c) == [""] + rest;
        assert Join([""] + rest, c) == "" + [c] + Join(rest, c);
      } else {
        var parts := [[s[0]] + rest[0]] + rest[1..];
        assert Split(s, c) == parts;
        if |rest| == 1 {
          assert Join(parts, c) == [s[0]] + rest[0];
        } else {
          assert parts[1..] == rest[1..];
          assert Join(parts, c) == [s[0]] + rest[0] + [c] + Join(rest[1..], c);
          assert Join(rest, c) == rest[0] + [c] + Join(rest[1..], c);
        }
      }
    }
  }

  /** A string without the separator splits into itself alone. */
  lemma {:induction false} SplitWithoutSeparator(s: string, c: char)
    requires c !in s
    ensures Split(s, c) == [s]
    decreases |s|
  {
    if |s| > 0 {
      SplitWithoutSeparator(s[1..], c);
      assert s[0] != c;
      assert Split(s, c) == [[s[0]] + s[1..]];
      assert [s[0]] + s[1..] == s;
    }
  }

  /** Splitting at a separator splits the two sides independently. */
  /** A string holding the separator splits into at least two pieces. */
  lemma SplitWithSeparator(s: string, c: char)
    requires c in s
    ensures |Split(s, c)| >= 2
  {
    JoinSplit(s, c);
  }

  lemma {:induction false} SplitAround(a: string, b: string, c: char)
    requires c !in a
    ensures Split(a + [c] + b, c) == [a] + Split(b, c)
    decreases |a|
  {
    if |a| == 0 {
      assert a + [c] + b == [c] + b;
      assert ([c] + b)[1..] == b;
    } else {
      SplitAround(a[1..], b, c);
      assert (a + [c] + b)[1..] == a[1..] + [c] + b;
      assert [a[0]] + a[1..] == a;
    }
  }

  /** Splitting a join of separator-free pieces gives the pieces back. */
  lemma {:induction false} SplitJoin(parts: seq<string>, c: char)
    requires |parts| >= 1
    requires forall i :: 0 <= i < |parts| ==> c !in parts[i]
    ensures Split(Join(parts, c), c) == parts
    decreases |parts|
  {
    if |parts| == 1 {
      SplitWithoutSeparator(parts[0], c);
    } else {
      SplitJoin(parts[1..], c);
      SplitAround(parts[0], Join(parts[1..], c), c);
      assert [parts[0]] + parts[1..] == parts;
    }
  }

  /** `split(a).join(b)` replaces each `a` by `b` and leaves every other character alone. */
  lemma {:induction false} ReplaceIsSubstitute(s: string, a: char, b: char)
    ensures Replace(s, a, b) == Substitute(s, a, b)
    decreases |s|
  {
    if |s| > 0 {
      ReplaceIsSubstitute(s[1..], a, b);
      var rest := Split(s[1..], a);
      assert Join(rest, b) == Substitute(s[1..], a, b);
      var x := if s[0] == a then b else s[0];
      assert Substitute(s, a, b) == [x] + Substitute(s[1..], a, b);
      if s[0] == a {
        assert Split(s, a) == [""] + rest;
        assert Join([""] + rest, b) == "" + [b] + Join(rest, b);
      } else {
        var parts := [[s[0]] + rest[0]] + rest[1..];
        assert Split(s, a) == parts;
        if |rest| == 1 {
          assert Join(parts, b) == [s[0]] + rest[0];
        } else {
          assert parts[1..] == rest[1..];
          assert Join(parts, b) == [s[0]] + rest[0] + [b] + Join(rest[1..], b);
          assert Join(rest, b) == rest[0] + [b] + Join(rest[1..], b);
        }
      }
    }
  }

  /** A string occurs in any string that has it as an infix. */
  lemma {:induction false} ContainsInfix(x: string, sub: string, y: string)
    ensures Contains(x + sub + y, sub)
    decreases |x|
  {
    if |x| == 0 {
      assert x + sub + y == sub + y;
      assert (sub + y)[..|sub|] == sub;
    } else {
      ContainsInfix(x[1..], sub, y);
      assert (x + sub + y)[1..] == x[1..] + sub + y;
    }
  }

  /** Splitting at a last separator: the part after it is the last piece. */
  lemma {:induction false} SplitBeforeLast(x: string, y: string, c: char)
    requires c !in y
    ensures Split(x + [c] + y, c) == Split(x, c) + [y]
    decreases |x|
  {
    if |x| == 0 {
      assert x + [c] + y == [c] + y;
      assert ([c] + y)[1..] == y;
      SplitWithoutSeparator(y, c);
    } else {
      SplitBeforeLast(x[1..], y, c);
      assert (x + [c] + y)[1..] == x[1..] + [c] + y;
      assert (x + [c] + y)[0] == x[0];
    }
  }
}
