/** The Python `str` operations the client relies on, over `seq<char>`.
    Case mapping covers the ASCII letters only; whitespace is Python's
    `str.isspace` set. */
module Text {

  import opened Results

  function LowerChar(c: char): char
  {
    if 'A' <= c <= 'Z' then (c as int + 32) as char else c
  }

  function UpperChar(c: char): char
  {
    if 'a' <= c <= 'z' then (c as int - 32) as char else c
  }

  /** `s.lower()` on ASCII letters. */
  function Lower(s: string): (r: string)
  {
    seq(|s|, i requires 0 <= i < |s| => LowerChar(s[i]))
  }

  /** `s.capitalize()`: first character upper case, the rest lower case. */
  function Capitalize(s: string): (r: string)
    ensures |r| == |s|
    ensures |s| > 0 ==> r[0] == UpperChar(s[0]) && r[1..] == Lower(s[1..])
  {
    if s == "" then "" else [UpperChar(s[0])] + Lower(s[1..])
  }

  lemma {:induction false} LowerIdempotent(s: string)
    ensures Lower(Lower(s)) == Lower(s)
  {
    if s != "" {
      LowerIdempotent(s[1..]);
      assert Lower(s)[1..] == Lower(s[1..]);
    }
  }

  lemma CapitalizeIdempotent(s: string)
    ensures Capitalize(Capitalize(s)) == Capitalize(s)
  {
    if s != "" {
      LowerIdempotent(s[1..]);
    }
  }

  /** `needle` occurs in `hay` starting at index `i`. */
  predicate OccursAt(hay: string, needle: string, i: int)
  {
    0 <= i <= |hay| - |needle| && hay[i..i + |needle|] == needle
  }

  /** `needle in hay` for two strings: `needle` occurs contiguously in `hay`. */
  predicate Contains(hay: string, needle: string)
  {
    exists i | 0 <= i <= |hay| :: OccursAt(hay, needle, i)
  }

  /** `prefix` begins `s` (`s.startswith(prefix)`). */
  predicate StartsWith(s: string, prefix: string)
  {
    |prefix| <= |s| && s[..|prefix|] == prefix
  }

  /** Python's `a < b` on strings: lexicographic by code point, a proper
      prefix sorting first. */
  predicate LexLess(a: string, b: string)
  {
    if |a| == 0 then |b| > 0
    else if |b| == 0 then false
    else a[0] < b[0] || (a[0] == b[0] && LexLess(a[1..], b[1..]))
  }

  /** `not (b < a)`: the order Python's stable `sorted` keeps. */
  predicate LexLe(a: string, b: string)
  {
    !LexLess(b, a)
  }

  lemma {:induction false} LexLessIrreflexive(a: string)
    ensures !LexLess(a, a)
  {
    if |a| > 0 {
      LexLessIrreflexive(a[1..]);
    }
  }

  lemma {:induction false} LexLessTrichotomy(a: string, b: string)
    ensures LexLess(a, b) || LexLess(b, a) || a == b
  {
    if |a| > 0 && |b| > 0 && a[0] == b[0] {
      LexLessTrichotomy(a[1..], b[1..]);
      if a[1..] == b[1..] {
        assert a == [a[0]] + a[1..] && b == [b[0]] + b[1..];
      }
    }
  }

  lemma {:induction false} LexLessTransitive(a: string, b: string, c: string)
    requires LexLess(a, b) && LexLess(b, c)
    ensures LexLess(a, c)
  {
    if |a| > 0 && a[0] == b[0] && b[0] == c[0] {
      LexLessTransitive(a[1..], b[1..], c[1..]);
    }
  }

  /** `LexLe` is a total preorder (in fact a total order on strings). */
  lemma LexLeTotal(a: string, b: string)
    ensures LexLe(a, b) || LexLe(b, a)
  {
    if LexLess(b, a) && LexLess(a, b) {
      LexLessTransitive(a, b, a);
      LexLessIrreflexive(a);
    }
  }

  lemma LexLeTransitive(a: string, b: string, c: string)
    requires LexLe(a, b) && LexLe(b, c)
    ensures LexLe(a, c)
  {
    if LexLess(c, a) {
      LexLessTrichotomy(a, b);
      LexLessTrichotomy(b, c);
      if LexLess(a, b) {
        LexLessTransitive(c, a, b);
      }
    }
  }

  /** `sep.join(xs)`. */
  function Join(xs: seq<string>, sep: string): (r: string)
    ensures |xs| == 1 ==> r == xs[0]
  {
    if |xs| == 0 then ""
    else if |xs| == 1 then xs[0]
    else xs[0] + sep + Join(xs[1..], sep)
  }

  /** `s.split(c)` for a single-character separator: the pieces between
      occurrences of `c`, never empty as a list. */
  function Split(s: string, c: char): (r: seq<string>)
    ensures |r| > 0
  {
    if |s| == 0 then [""]
    else if s[0] == c then [""] + Split(s[1..], c)
    else
      var rest := Split(s[1..], c);
      [[s[0]] + rest[0]] + rest[1..]
  }

  lemma {:induction false} SplitNoSeparator(s: string, c: char)
    requires c !in s
    ensures Split(s, c) == [s]
  {
    if |s| > 0 {
      SplitNoSeparator(s[1..], c);
      assert [s[0]] + s[1..] == s;
    }
  }

  lemma {:induction false} SplitAfterPiece(x: string, c: char, rest: string)
    requires c !in x
    ensures Split(x + [c] + rest, c) == [x] + Split(rest, c)
  {
    if |x| == 0 {
      assert x + [c] + rest == [c] + rest;
      assert ([c] + rest)[1..] == rest;
    } else {
      var s := x + [c] + rest;
      assert s[0] == x[0] && s[1..] == x[1..] + [c] + rest;
      SplitAfterPiece(x[1..], c, rest);
      assert [x[0]] + x[1..] == x;
    }
  }

  /** Splitting around one occurrence of `c` yields the pieces on its left
      followed by the pieces on its right. */
  lemma {:induction false} SplitConcat(a: string, c: char, b: string)
    ensures Split(a + [c] + b, c) == Split(a, c) + Split(b, c)
  {
    var s := a + [c] + b;
    if |a| == 0 {
      assert s == [c] + b;
      assert s[1..] == b;
    } else {
      assert s[0] == a[0] && s[1..] == a[1..] + [c] + b;
      SplitConcat(a[1..], c, b);
    }
  }

  /** Splitting on `c` undoes joining with `c`, provided no piece contains `c`. */
  lemma {:induction false} SplitJoin(xs: seq<string>, c: char)
    requires |xs| > 0
    requires forall i :: 0 <= i < |xs| ==> c !in xs[i]
    ensures Split(Join(xs, [c]), c) == xs
  {
    if |xs| == 1 {
      SplitNoSeparator(xs[0], c);
    } else {
      SplitJoin(xs[1..], c);
      SplitAfterPiece(xs[0], c, Join(xs[1..], [c]));
      assert [xs[0]] + xs[1..] == xs;
    }
  }

  /** `s.splitlines()` for text whose only line break is `\n`: a final
      newline does not start an extra, empty line. */
  function SplitLines(s: string): (r: seq<string>)
  {
    if s == "" then []
    else
      var pieces := Split(s, '\n');
      if pieces[|pieces| - 1] == "" then pieces[..|pieces| - 1] else pieces
  }

  /** Python's `str.isspace()` for one character. */
  predicate IsSpace(c: char)
  {
    || c == ' ' || ('\t' <= c <= '\r')
    || ('\U{1c}' <= c <= '\U{1f}')
    || c == '\U{85}' || c == '\U{a0}' || c == '\U{1680}'
    || ('\U{2000}' <= c <= '\U{200a}')
    || c == '\U{2028}' || c == '\U{2029}' || c == '\U{202f}' || c == '\U{205f}'
    || c == '\U{3000}'
  }

  /** `s.rstrip()`: `s` with its trailing whitespace removed. */
  function RStrip(s: string): (r: string)
    ensures r <= s
    ensures r == "" || !IsSpace(r[|r| - 1])
    ensures forall i :: |r| <= i < |s| ==> IsSpace(s[i])
  {
    if |s| > 0 && IsSpace(s[|s| - 1]) then RStrip(s[..|s| - 1]) else s
  }

  /** `s.split(c, 1)[1]`: the text after the first `c`, or `None` where the
      subscript would raise `IndexError`. */
  function AfterFirst(s: string, c: char): (r: Option<string>)
  {
    if |s| == 0 then None
    else if s[0] == c then Some(s[1..])
    else AfterFirst(s[1..], c)
  }

  /** `AfterFirst` fails exactly when `c` does not occur, and otherwise
      returns what follows its first occurrence. */
  lemma {:induction false} AfterFirstSpec(s: string, c: char)
    ensures AfterFirst(s, c).None? <==> c !in s
    ensures AfterFirst(s, c).Some? ==>
      exists i :: 0 <= i < |s| && s[i] == c && c !in s[..i] && AfterFirst(s, c).value == s[i + 1..]
  {
    if |s| > 0 {
      if s[0] == c {
        assert c !in s[..0];
      } else {
        AfterFirstSpec(s[1..], c);
        assert s == [s[0]] + s[1..];
        if AfterFirst(s[1..], c).Some? {
          var a := AfterFirst(s[1..], c).value;
          var i :| 0 <= i < |s[1..]| && s[1..][i] == c && c !in s[1..][..i] && a == s[1..][i + 1..];
          assert s[..i + 1] == [s[0]] + s[1..][..i];
        }
      }
    }
  }

  /** `AfterFirst` from the position of the first separator. */
  lemma {:induction false} AfterFirstAt(s: string, c: char, i: nat)
    requires i < |s| && s[i] == c && c !in s[..i]
    ensures AfterFirst(s, c) == Some(s[i + 1..])
  {
    if i > 0 {
      assert s[0] in s[..i];
      assert s[1..][..i - 1] == s[1..i];
      assert c !in s[1..][..i - 1];
      AfterFirstAt(s[1..], c, i - 1);
    }
  }
}
