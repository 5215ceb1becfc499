/**
 * The string operations the modelled code uses to build names and paths:
 * `str()` of an integer, `sep.join(...)`, `os.path.join`, `os.path.basename`,
 * `os.path.dirname`, Python's ordering of strings and `sorted()`, and the
 * newline-terminated lines of a list file.
 */
module Text {

  function DigitChar(d: nat): (c: char)
    requires d < 10
    ensures '0' <= c <= '9'
  {
    ['0', '1', '2', '3', '4', '5', '6', '7', '8', '9'][d]
  }

  /** `str(n)` for a non-negative Python int: decimal digits, no leading zero. */
  function NatToString(n: nat): (s: string)
    ensures |s| >= 1
    ensures forall i :: 0 <= i < |s| ==> '0' <= s[i] <= '9'
    ensures n >= 10 ==> |s| >= 2
    ensures n > 0 ==> s[0] != '0'
  {
    if n < 10 then [DigitChar(n)] else NatToString(n / 10) + [DigitChar(n % 10)]
  }

  lemma DigitCharInjective(a: nat, b: nat)
    requires a < 10 && b < 10 && DigitChar(a) == DigitChar(b)
    ensures a == b
  {}

  /** Distinct numbers have distinct decimal names. */
  lemma {:induction false} NatToStringInjective(a: nat, b: nat)
    requires NatToString(a) == NatToString(b)
    ensures a == b
  {
    var s := NatToString(a);
    if a < 10 && b < 10 {
      DigitCharInjective(a, b);
    } else if a >= 10 && b >= 10 {
      var n := |s|;
      assert s[n - 1] == DigitChar(a % 10) == DigitChar(b % 10);
      DigitCharInjective(a % 10, b % 10);
      assert s[..n - 1] == NatToString(a / 10) == NatToString(b / 10);
      NatToStringInjective(a / 10, b / 10);
    }
  }

  /** `str(i)` for any Python int. */
  function IntToString(i: int): (s: string)
    ensures |s| >= 1
    ensures i < 0 <==> s[0] == '-'
  {
    if i < 0 then "-" + NatToString(-i) else NatToString(i)
  }

  lemma IntToStringInjective(a: int, b: int)
    requires IntToString(a) == IntToString(b)
    ensures a == b
  {
    var s := IntToString(a);
    assert a < 0 <==> b < 0 by {
      assert a < 0 <==> s[0] == '-';
      assert b < 0 <==> s[0] == '-';
    }
    if a < 0 {
      NegativeDigits(a);
      NegativeDigits(b);
      NatToStringInjective(-a, -b);
    } else {
      NatToStringInjective(a, b);
    }
  }

  /** After its '-', a negative number's name is its magnitude's. */
  lemma NegativeDigits(i: int)
    requires i < 0
    ensures IntToString(i)[1..] == NatToString(-i)
  {
    var d := NatToString(-i);
    assert IntToString(i) == "-" + d;
    assert ("-" + d)[1..] == d;
  }

  /** `sep.join(parts)`. */
  function JoinWith(sep: string, parts: seq<string>): string
  {
    if parts == [] then ""
    else if |parts| == 1 then parts[0]
    else parts[0] + sep + JoinWith(sep, parts[1..])
  }

  /** Joining no parts gives the empty string; otherwise the join starts with the first part. */
  lemma JoinWithFirst(sep: string, parts: seq<string>)
    ensures parts == [] ==> JoinWith(sep, parts) == ""
    ensures parts != [] ==> |JoinWith(sep, parts)| >= |parts[0]| && JoinWith(sep, parts)[..|parts[0]|] == parts[0]
  {
  }

  predicate EndsWith(s: string, c: char)
  {
    |s| > 0 && s[|s| - 1] == c
  }

  /** `os.path.join(a, b)` on POSIX: an absolute `b` replaces `a`; one separator between the parts. */
  function PathJoin(a: string, b: string): (p: string)
    ensures |b| > 0 && b[0] == '/' ==> p == b
    ensures (|b| == 0 || b[0] != '/') && a != [] && !EndsWith(a, '/') ==> p == a + "/" + b
  {
    if |b| > 0 && b[0] == '/' then b
    else if a == [] || EndsWith(a, '/') then a + b
    else a + "/" + b
  }

  /** Joining onto the same directory keeps relative names apart. */
  lemma PathJoinInjective(a: string, b1: string, b2: string)
    requires |b1| == 0 || b1[0] != '/'
    requires |b2| == 0 || b2[0] != '/'
    requires PathJoin(a, b1) == PathJoin(a, b2)
    ensures b1 == b2
  {
    var prefix := if a == [] || EndsWith(a, '/') then a else a + "/";
    assert PathJoin(a, b1) == prefix + b1 && PathJoin(a, b2) == prefix + b2;
    assert b1 == (prefix + b1)[|prefix|..];
    assert b2 == (prefix + b2)[|prefix|..];
  }

  /** `os.path.join(parts[0], parts[1], ...)`. */
  function PathJoinAll(first: string, rest: seq<string>): string
    decreases |rest|
  {
    if rest == [] then first else PathJoinAll(PathJoin(first, rest[0]), rest[1..])
  }

  /** With no other part the join is the first one; otherwise it ends with the last part. */
  lemma {:induction false} PathJoinAllLast(first: string, rest: seq<string>)
    ensures rest == [] ==> PathJoinAll(first, rest) == first
    ensures rest != [] ==> var p, last := PathJoinAll(first, rest), rest[|rest| - 1];
      |p| >= |last| && p[|p| - |last|..] == last
    decreases |rest|
  {
    if rest != [] {
      var j := PathJoin(first, rest[0]);
      assert |j| >= |rest[0]| && j[|j| - |rest[0]|..] == rest[0];
      PathJoinAllLast(j, rest[1..]);
    }
  }

  /** The position just after the last '/' of `p` (0 when there is none): `p.rfind('/') + 1`. */
  function AfterLastSlash(p: string): (i: nat)
    ensures i <= |p|
    ensures i > 0 ==> p[i - 1] == '/'
    ensures forall k :: i <= k < |p| ==> p[k] != '/'
  {
    if p == [] then 0
    else if p[|p| - 1] == '/' then |p|
    else AfterLastSlash(p[..|p| - 1])
  }

  /** `os.path.basename(p)`: what follows the last '/'. */
  function Basename(p: string): (b: string)
    ensures forall k :: 0 <= k < |b| ==> b[k] != '/'
    ensures |b| <= |p| && p[|p| - |b|..] == b
  {
    p[AfterLastSlash(p)..]
  }

  /** `s.rstrip('/')`. */
  function StripTrailingSlashes(s: string): (r: string)
    ensures !EndsWith(r, '/')
    ensures |r| <= |s| && s[..|r|] == r
  {
    if EndsWith(s, '/') then StripTrailingSlashes(s[..|s| - 1]) else s
  }

  predicate AllSlashes(s: string)
  {
    forall k :: 0 <= k < |s| ==> s[k] == '/'
  }

  /** `os.path.dirname(p)` on POSIX: up to the last '/', trailing slashes removed unless all slashes. */
  function Dirname(p: string): (d: string)
    ensures |d| <= |p| && p[..|d|] == d
  {
    var head := p[..AfterLastSlash(p)];
    if head != [] && !AllSlashes(head) then StripTrailingSlashes(head) else head
  }

  /** A path without a '/' after its directory joins back to itself. */
  lemma {:induction false} JoinDirnameBasename(dir: string, name: string)
    requires name != [] && forall k :: 0 <= k < |name| ==> name[k] != '/'
    requires dir != [] && !EndsWith(dir, '/') && !AllSlashes(dir)
    ensures Basename(PathJoin(dir, name)) == name
    ensures Dirname(PathJoin(dir, name)) == dir
  {
    var p := PathJoin(dir, name);
    assert p == dir + "/" + name;
    AfterLastSlashOfJoin(dir, name);
    assert p[..|dir| + 1] == dir + "/";
    assert !AllSlashes(dir + "/") by {
      var k :| 0 <= k < |dir| && dir[k] != '/';
      assert (dir + "/")[k] == dir[k];
    }
    assert StripTrailingSlashes(dir + "/") == StripTrailingSlashes(dir) == dir;
  }

  lemma {:induction false} AfterLastSlashOfJoin(dir: string, name: string)
    requires forall k :: 0 <= k < |name| ==> name[k] != '/'
    ensures AfterLastSlash(dir + "/" + name) == |dir| + 1
    decreases |name|
  {
    var p := dir + "/" + name;
    if name != [] {
      var shorter := name[..|name| - 1];
      assert p[..|p| - 1] == dir + "/" + shorter;
      assert p[|p| - 1] == name[|name| - 1];
      AfterLastSlashOfJoin(dir, shorter);
    } else {
      assert p[|p| - 1] == '/';
    }
  }

  /** `s[:-k]` for a string at least `k` long, `""` otherwise. */
  function DropLast(s: string, k: nat): (r: string)
    ensures |s| >= k ==> r == s[..|s| - k]
    ensures |s| < k ==> r == ""
  {
    if |s| >= k then s[..|s| - k] else ""
  }

  // ---------------------------------------------------------------------------
  // Python's ordering of strings (code point by code point) and sorted().

  /** `a <= b` on Python strings. */
  predicate StrLe(a: string, b: string)
  {
    if a == [] then true
    else if b == [] then false
    else if a[0] != b[0] then a[0] < b[0]
    else StrLe(a[1..], b[1..])
  }

  lemma {:induction false} StrLeTotal(a: string, b: string)
    ensures StrLe(a, b) || StrLe(b, a)
  {
    if a != [] && b != [] && a[0] == b[0] {
      StrLeTotal(a[1..], b[1..]);
    }
  }

  lemma {:induction false} StrLeTransitive(a: string, b: string, c: string)
    requires StrLe(a, b) && StrLe(b, c)
    ensures StrLe(a, c)
  {
    if a != [] && b != [] && c != [] && a[0] == b[0] == c[0] {
      StrLeTransitive(a[1..], b[1..], c[1..]);
    }
  }

  lemma {:induction false} StrLeAntisymmetric(a: string, b: string)
    requires StrLe(a, b) && StrLe(b, a)
    ensures a == b
  {
    if a != [] && b != [] {
      StrLeAntisymmetric(a[1..], b[1..]);
      assert a == [a[0]] + a[1..];
      assert b == [b[0]] + b[1..];
    }
  }

  predicate SortedStrings(s: seq<string>)
  {
    forall i :: 0 <= i < |s| - 1 ==> StrLe(s[i], s[i + 1])
  }

  function InsertString(x: string, s: seq<string>): (r: seq<string>)
    requires SortedStrings(s)
    ensures SortedStrings(r)
    ensures multiset(r) == multiset(s) + multiset{x}
    ensures |r| == |s| + 1
    ensures r[0] == x || (s != [] && r[0] == s[0])
  {
    if s == [] then [x]
    else if StrLe(x, s[0]) then [x] + s
    else
      StrLeTotal(x, s[0]);
      var tail := InsertString(x, s[1..]);
      assert s == [s[0]] + s[1..];
      [s[0]] + tail
  }

  /** `sorted(names)`: the same names in Python's ascending string order. */
  function SortStrings(s: seq<string>): (r: seq<string>)
    ensures SortedStrings(r)
    ensures multiset(r) == multiset(s)
  {
    if s == [] then []
    else
      assert s == [s[0]] + s[1..];
      InsertString(s[0], SortStrings(s[1..]))
  }

  /** Adjacent order extends to every pair. */
  lemma {:induction false} SortedStringsAllPairs(s: seq<string>, i: nat, j: nat)
    requires SortedStrings(s) && i <= j < |s|
    ensures StrLe(s[i], s[j])
    decreases j - i
  {
    if i == j {
      StrLeRefl(s[i]);
    } else {
      SortedStringsAllPairs(s, i + 1, j);
      StrLeTransitive(s[i], s[i + 1], s[j]);
    }
  }

  lemma {:induction false} StrLeRefl(a: string)
    ensures StrLe(a, a)
  {
    if a != [] {
      StrLeRefl(a[1..]);
    }
  }

  // ---------------------------------------------------------------------------
  // Newline-terminated lines, as a list file holds them.

  /** The text of a file written with `f.write(f"{line}\n")` for each line in order. */
  function LinesText(lines: seq<string>): (t: string)
    ensures t == [] <==> lines == []
    ensures lines != [] ==> t[|t| - 1] == '\n'
    ensures |t| >= |lines|
  {
    if lines == [] then "" else lines[0] + "\n" + LinesText(lines[1..])
  }

  /** `c not in s`. */
  predicate Lacks(s: string, c: char)
  {
    forall k :: 0 <= k < |s| ==> s[k] != c
  }

  /** The position of the first `c` in `s`, or `|s|` when there is none. */
  function FirstIndexOf(s: string, c: char): (i: nat)
    ensures i <= |s|
    ensures i < |s| ==> s[i] == c
    ensures Lacks(s[..i], c)
  {
    if s == [] then 0 else if s[0] == c then 0 else 1 + FirstIndexOf(s[1..], c)
  }

  /** `s.split(c)`: the pieces between the occurrences of `c`. */
  function Split(s: string, c: char): (parts: seq<string>)
    ensures |parts| >= 1
    ensures forall k :: 0 <= k < |parts| ==> Lacks(parts[k], c)
    decreases |s|
  {
    var i := FirstIndexOf(s, c);
    if i == |s| then [s] else [s[..i]] + Split(s[i + 1..], c)
  }

  /** Splitting a join on its separator gives back the parts, when none contains the separator. */
  lemma {:induction false} SplitJoin(parts: seq<string>, c: char)
    requires |parts| >= 1
    requires forall k :: 0 <= k < |parts| ==> Lacks(parts[k], c)
    ensures Split(JoinWith([c], parts), c) == parts
  {
    var text := JoinWith([c], parts);
    if |parts| == 1 {
      assert text == parts[0];
      assert FirstIndexOf(text, c) == |text| by {
        FirstIndexOfLacking(text, c);
      }
    } else {
      var l := parts[0];
      assert text == l + [c] + JoinWith([c], parts[1..]);
      FirstIndexOfAfter(l, c, JoinWith([c], parts[1..]));
      assert text[..|l|] == l;
      assert text[|l| + 1..] == JoinWith([c], parts[1..]);
      SplitJoin(parts[1..], c);
    }
  }

  lemma {:induction false} FirstIndexOfLacking(s: string, c: char)
    requires Lacks(s, c)
    ensures FirstIndexOf(s, c) == |s|
  {
    if s != [] {
      FirstIndexOfLacking(s[1..], c);
    }
  }

  lemma {:induction false} FirstIndexOfAfter(l: string, c: char, rest: string)
    requires Lacks(l, c)
    ensures FirstIndexOf(l + [c] + rest, c) == |l|
  {
    if l != [] {
      assert (l + [c] + rest)[1..] == l[1..] + [c] + rest;
      FirstIndexOfAfter(l[1..], c, rest);
    }
  }

  /** Reading a file back as its newline-terminated lines. */
  function ReadLines(text: string): (lines: seq<string>)
    ensures lines == [] <==> text == []
    ensures forall k :: 0 <= k < |lines| ==> Lacks(lines[k], '\n')
    decreases |text|
  {
    if text == [] then []
    else
      var i := FirstIndexOf(text, '\n');
      if i == |text| then [text] else [text[..i]] + ReadLines(text[i + 1..])
  }

  /** Reading the list file back gives exactly the lines written, in order. */
  lemma {:induction false} ReadLinesText(lines: seq<string>)
    requires forall k :: 0 <= k < |lines| ==> Lacks(lines[k], '\n')
    ensures ReadLines(LinesText(lines)) == lines
  {
    if lines != [] {
      var text := LinesText(lines);
      var l := lines[0];
      assert text == l + "\n" + LinesText(lines[1..]);
      FirstIndexOfAfter(l, '\n', LinesText(lines[1..]));
      assert text[|l|] == '\n';
      assert text[..|l|] == l;
      assert text[|l| + 1..] == LinesText(lines[1..]);
      ReadLinesText(lines[1..]);
      assert ReadLines(text) == [l] + ReadLines(LinesText(lines[1..]));
    }
  }
}
