/** The handful of Python `str` operations the core relies on, over `seq<char>`:
    `split` and `join` with a one-character separator, `replace` of one
    character, `strip`, `endswith` and ASCII `lower`. */
module Text {

  /** Number of occurrences of `c` in `s`. */
  function Count(s: string, c: char): nat {
    if s == [] then 0 else (if s[0] == c then 1 else 0) + Count(s[1..], c)
  }

  lemma {:induction false} CountAppend(a: string, b: string, c: char)
    ensures Count(a + b, c) == Count(a, c) + Count(b, c)
  {
    if a != [] {
      assert (a + b)[1..] == a[1..] + b;
      CountAppend(a[1..], b, c);
    } else {
      assert a + b == b;
    }
  }

  lemma {:induction false} CountAbsent(s: string, c: char)
    ensures Count(s, c) == 0 <==> c !in s
  {
    if s != [] {
      CountAbsent(s[1..], c);
      assert s == [s[0]] + s[1..];
    }
  }

  /** `s.split(d)`: the pieces between occurrences of `d`, always at least one. */
  function Split(s: string, d: char): (r: seq<string>)
    ensures |r| >= 1
  {
    if s == [] then [""]
    else
      var rest := Split(s[1..], d);
      if s[0] == d then [""] + rest else [[s[0]] + rest[0]] + rest[1..]
  }

  /** `sep.join(parts)`. */
  function Join(sep: string, parts: seq<string>): string {
    if |parts| == 0 then ""
    else if |parts| == 1 then parts[0]
    else parts[0] + sep + Join(sep, parts[1..])
  }

  /** `s.replace(c, t)` for a one-character pattern `c`. */
  function ReplaceChar(s: string, c: char, t: string): string {
    if s == [] then "" else (if s[0] == c then t else [s[0]]) + ReplaceChar(s[1..], c, t)
  }

  /** Prepending to the first piece prepends to the joined string. */
  lemma JoinPrepend(sep: string, x: string, ps: seq<string>)
    requires |ps| >= 1
    ensures Join(sep, [x + ps[0]] + ps[1..]) == x + Join(sep, ps)
  {
    var qs := [x + ps[0]] + ps[1..];
    if |ps| > 1 {
      assert qs[1..] == ps[1..];
    }
  }

  /** `d.join(s.split(d)) == s`: splitting loses nothing. */
  lemma {:induction false} JoinSplit(s: string, d: char)
    ensures Join([d], Split(s, d)) == s
  {
    if s != [] {
      var rest := Split(s[1..], d);
      JoinSplit(s[1..], d);
      if s[0] == d {
        assert ([""] + rest)[1..] == rest;
      } else {
        JoinPrepend([d], [s[0]], rest);
      }
      assert s == [s[0]] + s[1..];
    }
  }

  /** There is one more piece than there are separators. */
  lemma {:induction false} SplitCount(s: string, d: char)
    ensures |Split(s, d)| == Count(s, d) + 1
  {
    if s != [] {
      SplitCount(s[1..], d);
    }
  }

  /** No piece contains the separator. */
  lemma {:induction false} SplitPiecesFree(s: string, d: char)
    ensures forall i :: 0 <= i < |Split(s, d)| ==> d !in Split(s, d)[i]
  {
    if s != [] {
      SplitPiecesFree(s[1..], d);
      var rest := Split(s[1..], d);
      if s[0] != d {
        var r := Split(s, d);
        forall i | 0 <= i < |r| ensures d !in r[i] {
          if i == 0 {
            assert r[0] == [s[0]] + rest[0];
          } else {
            assert r[i] == rest[i];
          }
        }
      }
    }
  }

  /** `s.split(d)` undoes `d.join(parts)` when no part holds `d`. */
  lemma {:induction false} SplitJoin(parts: seq<string>, d: char)
    requires |parts| >= 1
    requires forall i :: 0 <= i < |parts| ==> d !in parts[i]
    ensures Split(Join([d], parts), d) == parts
  {
    if |parts| == 1 {
      SplitNoSeparator(parts[0], d);
    } else {
      SplitJoin(parts[1..], d);
      SplitAfterPiece(parts[0], Join([d], parts[1..]), d);
      assert parts == [parts[0]] + parts[1..];
    }
  }

  lemma {:induction false} SplitNoSeparator(s: string, d: char)
    requires d !in s
    ensures Split(s, d) == [s]
  {
    if s != [] {
      SplitNoSeparator(s[1..], d);
      assert s == [s[0]] + s[1..];
    }
  }

  lemma {:induction false} SplitAfterPiece(p: string, rest: string, d: char)
    requires d !in p
    ensures Split(p + [d] + rest, d) == [p] + Split(rest, d)
  {
    if p == [] {
      assert p + [d] + rest == [d] + rest;
      assert ([d] + rest)[1..] == rest;
    } else {
      assert (p + [d] + rest)[1..] == p[1..] + [d] + rest;
      SplitAfterPiece(p[1..], rest, d);
      assert p == [p[0]] + p[1..];
    }
  }

  /** `s.replace(c, t) == t.join(s.split(c))`. */
  lemma {:induction false} ReplaceIsJoinSplit(s: string, c: char, t: string)
    ensures ReplaceChar(s, c, t) == Join(t, Split(s, c))
  {
    if s != [] {
      ReplaceIsJoinSplit(s[1..], c, t);
      var rest := Split(s[1..], c);
      if s[0] == c {
        assert ([""] + rest)[1..] == rest;
      } else {
        JoinPrepend(t, [s[0]], rest);
      }
    }
  }

  /** After replacing `a` by `b`, no `a` is left and every former `a` counts as a `b`. */
  lemma {:induction false} ReplaceCharCounts(s: string, a: char, b: char)
    requires a != b
    ensures a !in ReplaceChar(s, a, [b])
    ensures Count(ReplaceChar(s, a, [b]), b) == Count(s, a) + Count(s, b)
  {
    if s != [] {
      ReplaceCharCounts(s[1..], a, b);
      var head := if s[0] == a then [b] else [s[0]];
      CountAppend(head, ReplaceChar(s[1..], a, [b]), b);
    }
  }

  lemma {:induction false} ReplaceCharAppend(a: string, b: string, c: char, t: string)
    ensures ReplaceChar(a + b, c, t) == ReplaceChar(a, c, t) + ReplaceChar(b, c, t)
  {
    if a == [] {
      assert a + b == b;
    } else {
      assert (a + b)[1..] == a[1..] + b;
      ReplaceCharAppend(a[1..], b, c, t);
    }
  }

  /** Replacing in `p + [c] + q`: `t` stands where the `c` stood. */
  lemma ReplaceCharAt(p: string, q: string, c: char, t: string)
    ensures ReplaceChar(p + [c] + q, c, t) == ReplaceChar(p, c, t) + t + ReplaceChar(q, c, t)
  {
    ReplaceCharAppend(p + [c], q, c, t);
    ReplaceCharAppend(p, [c], c, t);
    assert ReplaceChar([c], c, t) == t + ReplaceChar([], c, t);
  }

  lemma {:induction false} ReplaceCharAbsent(s: string, c: char, t: string)
    requires c !in s
    ensures ReplaceChar(s, c, t) == s
  {
    if s != [] {
      ReplaceCharAbsent(s[1..], c, t);
      assert s == [s[0]] + s[1..];
    }
  }

  /** Length of a replacement: every occurrence of `c` grows by `|t| - 1`. */
  lemma {:induction false} ReplaceCharLength(s: string, c: char, t: string)
    ensures |ReplaceChar(s, c, t)| == |s| + Count(s, c) * (|t| - 1)
  {
    if s != [] {
      ReplaceCharLength(s[1..], c, t);
    }
  }

  /** A replacement whose text does not hold `c` leaves no `c` behind. */
  lemma {:induction false} ReplaceCharRemoves(s: string, c: char, t: string)
    requires c !in t
    ensures c !in ReplaceChar(s, c, t)
  {
    if s != [] {
      ReplaceCharRemoves(s[1..], c, t);
    }
  }

  /** Where piece `i` starts in `Join(sep, ps)`: the pieces before it, each
      followed by one separator. */
  function Offset(sep: string, ps: seq<string>, i: nat): nat
    requires i <= |ps|
  {
    if i == 0 then 0 else Offset(sep, ps, i - 1) + |ps[i - 1]| + |sep|
  }

  /** Length of a joined string: the pieces plus one separator between each two. */
  lemma {:induction false} JoinLength(sep: string, ps: seq<string>)
    requires |ps| >= 1
    ensures |Join(sep, ps)| == Offset(sep, ps, |ps| - 1) + |ps[|ps| - 1]|
  {
    if |ps| > 1 {
      JoinLength(sep, ps[1..]);
      OffsetShift(sep, ps, |ps| - 1);
    }
  }

  lemma SliceShift(a: string, b: string, x: nat, y: nat)
    requires x <= y <= |b|
    ensures (a + b)[|a| + x..|a| + y] == b[x..y]
  {
  }

  /** Piece `i` of a joined string sits at `Offset(sep, ps, i)`. */
  lemma {:induction false} JoinPieceAt(sep: string, ps: seq<string>, i: nat)
    requires i < |ps|
    ensures Offset(sep, ps, i) + |ps[i]| <= |Join(sep, ps)|
    ensures Join(sep, ps)[Offset(sep, ps, i)..Offset(sep, ps, i) + |ps[i]|] == ps[i]
  {
    if i == 0 {
      if |ps| > 1 {
        assert Join(sep, ps) == ps[0] + (sep + Join(sep, ps[1..]));
      }
    } else {
      var tl := ps[1..];
      JoinPieceAt(sep, tl, i - 1);
      OffsetShift(sep, ps, i);
      assert ps[i] == tl[i - 1];
      assert Join(sep, ps) == (ps[0] + sep) + Join(sep, tl);
      SliceShift(ps[0] + sep, Join(sep, tl), Offset(sep, tl, i - 1), Offset(sep, tl, i - 1) + |tl[i - 1]|);
    }
  }

  /** Between piece `i` and piece `i + 1` stands exactly one separator. */
  lemma {:induction false} JoinSeparatorAt(sep: string, ps: seq<string>, i: nat)
    requires i + 1 < |ps|
    ensures Offset(sep, ps, i + 1) <= |Join(sep, ps)|
    ensures Join(sep, ps)[Offset(sep, ps, i) + |ps[i]|..Offset(sep, ps, i + 1)] == sep
  {
    var tl := ps[1..];
    assert Join(sep, ps) == (ps[0] + sep) + Join(sep, tl);
    if i == 0 {
      assert Offset(sep, ps, 1) == |ps[0]| + |sep|;
    } else {
      JoinSeparatorAt(sep, tl, i - 1);
      OffsetShift(sep, ps, i);
      OffsetShift(sep, ps, i + 1);
      assert ps[i] == tl[i - 1];
      SliceShift(ps[0] + sep, Join(sep, tl), Offset(sep, tl, i - 1) + |tl[i - 1]|, Offset(sep, tl, i));
    }
  }

  lemma {:induction false} OffsetShift(sep: string, ps: seq<string>, i: nat)
    requires 1 <= i <= |ps|
    ensures Offset(sep, ps, i) == |ps[0]| + |sep| + Offset(sep, ps[1..], i - 1)
  {
    if i > 1 {
      OffsetShift(sep, ps, i - 1);
    }
  }

  // ---------------------------------------------------------------- strip

  /** Number of leading characters of `s` that belong to `cs`. */
  function LeadingIn(s: string, cs: set<char>): (n: nat)
    ensures n <= |s|
    ensures forall k :: 0 <= k < n ==> s[k] in cs
    ensures n == |s| || s[n] !in cs
  {
    if s != [] && s[0] in cs then 1 + LeadingIn(s[1..], cs) else 0
  }

  /** Number of trailing characters of `s` that belong to `cs`. */
  function TrailingIn(s: string, cs: set<char>): (n: nat)
    ensures n <= |s|
    ensures forall k :: |s| - n <= k < |s| ==> s[k] in cs
    ensures n == |s| || s[|s| - 1 - n] !in cs
  {
    if s != [] && s[|s| - 1] in cs then 1 + TrailingIn(s[..|s| - 1], cs) else 0
  }

  /** `s.strip(chars)`: drop the leading and the trailing characters in `cs`. */
  function StripSet(s: string, cs: set<char>): (r: string)
    ensures r == [] <==> forall k :: 0 <= k < |s| ==> s[k] in cs
    ensures r != [] ==> r[0] !in cs && r[|r| - 1] !in cs
    ensures exists i, j ::
              (0 <= i <= j <= |s| && r == s[i..j]
               && (forall k :: 0 <= k < i ==> s[k] in cs)
               && (forall k :: j <= k < |s| ==> s[k] in cs))
  {
    var a := LeadingIn(s, cs);
    var t := s[a..];
    var b := TrailingIn(t, cs);
    var r := t[..|t| - b];
    assert r == s[a..|s| - b];
    AllInWhenEmpty(s, cs, a, |s| - b);
    r
  }

  /** A string whose two ends are outside `cs` is left as it is. */
  lemma StripSetKeeps(s: string, cs: set<char>)
    requires s != [] && s[0] !in cs && s[|s| - 1] !in cs
    ensures StripSet(s, cs) == s
  {
    assert LeadingIn(s, cs) == 0;
    assert s[0..] == s;
    assert TrailingIn(s, cs) == 0;
  }

  lemma AllInWhenEmpty(s: string, cs: set<char>, i: nat, j: nat)
    requires i <= |s| && j <= |s|
    requires forall k :: 0 <= k < i ==> s[k] in cs
    requires forall k :: j <= k < |s| ==> s[k] in cs
    ensures j <= i ==> forall k :: 0 <= k < |s| ==> s[k] in cs
  {
  }

  /** The characters Python's `str.isspace` accepts. */
  predicate IsSpace(c: char) {
    var n := c as int;
    n in {9, 10, 11, 12, 13, 28, 29, 30, 31, 32, 133, 160, 5760, 8232, 8233, 8239, 8287, 12288}
    || 8192 <= n <= 8202
  }

  const Whitespace: set<char> := set n | 0 <= n < 12289 && IsSpace(n as char) :: n as char

  lemma WhitespaceIsSpace(c: char)
    ensures c in Whitespace <==> IsSpace(c)
  {
    if IsSpace(c) {
      var n := c as int;
      assert 0 <= n < 12289 && IsSpace(n as char);
    }
  }

  /** `s.strip()`. */
  function Strip(s: string): string {
    StripSet(s, Whitespace)
  }

  /** `not s.strip()`: empty or whitespace only. */
  predicate Blank(s: string) {
    Strip(s) == ""
  }

  lemma BlankIff(s: string)
    ensures Blank(s) <==> forall k :: 0 <= k < |s| ==> IsSpace(s[k])
  {
    forall k | 0 <= k < |s| { WhitespaceIsSpace(s[k]); }
  }

  /** Index of the first `c` in `s`. */
  function IndexOf(s: string, c: char): (i: nat)
    requires c in s
    ensures i < |s| && s[i] == c
    ensures forall k :: 0 <= k < i ==> s[k] != c
  {
    if s[0] == c then 0 else 1 + IndexOf(s[1..], c)
  }

  /** `s.split(d, 1)` when `d` occurs: the text before the first `d` and all after it. */
  function SplitOnce(s: string, d: char): (r: (string, string))
    requires d in s
    ensures d !in r.0
    ensures s == r.0 + [d] + r.1
  {
    var i := IndexOf(s, d);
    assert s == s[..i] + [d] + s[i + 1..];
    (s[..i], s[i + 1..])
  }

  /** Only the first `d` separates: the rest, `d`s included, is the second half. */
  lemma SplitOnceFirst(k: string, v: string, d: char)
    requires d !in k
    ensures d in k + [d] + v
    ensures SplitOnce(k + [d] + v, d) == (k, v)
  {
    var s := k + [d] + v;
    assert s[|k|] == d;
    var r := SplitOnce(s, d);
    assert r.0 == s[..|k|] == k;
    assert r.1 == s[|k| + 1..] == v;
  }

  // ------------------------------------------------------ prefixes, case

  predicate EndsWith(s: string, suffix: string) {
    |suffix| <= |s| && s[|s| - |suffix|..] == suffix
  }

  predicate StartsWith(s: string, prefix: string) {
    |prefix| <= |s| && s[..|prefix|] == prefix
  }

  function LowerChar(c: char): char {
    if 'A' <= c <= 'Z' then (c as int + 32) as char else c
  }

  /** `s.lower()` on the ASCII letters. */
  function Lower(s: string): (r: string)
    ensures |r| == |s|
    ensures forall i :: 0 <= i < |s| ==> r[i] == LowerChar(s[i])
  {
    seq(|s|, i requires 0 <= i < |s| => LowerChar(s[i]))
  }

  /** Lowering twice is lowering once. */
  lemma LowerIdempotent(s: string)
    ensures Lower(Lower(s)) == Lower(s)
  {
  }
}
