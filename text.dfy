/** The handful of JavaScript string and array primitives that the form and
    the chat panel rely on (`indexOf`, `includes`, `trim`, `toLowerCase`,
    `split`, `slice`, `join`), written out with the facts the rest of the
    model needs about them. */
module Text {

  /** `Array.prototype.indexOf` / `String.prototype.indexOf` for one element:
      the first position holding `x`, or -1 when there is none. */
  function IndexOf<T(==)>(s: seq<T>, x: T): (i: int)
    ensures -1 <= i < |s|
    ensures i == -1 <==> x !in s
    ensures 0 <= i ==> s[i] == x && x !in s[..i]
  {
    if |s| == 0 then -1
    else if s[0] == x then 0
    else
      var j := IndexOf(s[1..], x);
      if j == -1 then -1
      else
        assert s[..j + 1] == [s[0]] + s[1..][..j];
        j + 1
  }

  /** A sequence is what comes before position `i`, the element there, and
      what comes after. */
  lemma SplitAt<T>(s: seq<T>, i: nat)
    requires i < |s|
    ensures s == s[..i] + [s[i]] + s[i + 1..]
  {
  }

  /** `sub` sits in `s` starting at position `i`. */
  ghost predicate OccursAt(s: string, sub: string, i: int)
  {
    0 <= i && i + |sub| <= |s| && s[i..i + |sub|] == sub
  }

  /** `String.prototype.includes`: `sub` occurs somewhere in `s`. */
  function Contains(s: string, sub: string): (r: bool)
    ensures r <==> exists i :: OccursAt(s, sub, i)
    decreases |s|
  {
    if |sub| > |s| then false
    else if s[..|sub|] == sub then
      assert OccursAt(s, sub, 0);
      true
    else
      var r := Contains(s[1..], sub);
      assert r ==> exists i :: OccursAt(s, sub, i) by {
        if r {
          var i :| OccursAt(s[1..], sub, i);
          assert s[i + 1..i + 1 + |sub|] == s[1..][i..i + |sub|];
          assert OccursAt(s, sub, i + 1);
        }
      }
      assert (exists i :: OccursAt(s, sub, i)) ==> r by {
        if exists i :: OccursAt(s, sub, i) {
          var i :| OccursAt(s, sub, i);
          assert i != 0;
          assert s[1..][i - 1..i - 1 + |sub|] == s[i..i + |sub|];
          assert OccursAt(s[1..], sub, i - 1);
        }
      }
      r
  }

  /** Whatever stands between two pieces of a concatenation occurs in it. */
  lemma ContainsMiddle(a: string, b: string, c: string)
    ensures Contains(a + b + c, b)
  {
    assert (a + b + c)[|a|..|a| + |b|] == b;
    assert OccursAt(a + b + c, b, |a|);
  }

  /** Text placed between a lead and a tail: the result contains it. */
  function Embed(lead: string, inner: string, tail: string): (r: string)
    ensures Contains(r, inner)
  {
    ContainsMiddle(lead, inner, tail);
    lead + inner + tail
  }

  /** Putting text in front keeps every occurrence. */
  lemma ContainsExtendedLeft(a: string, b: string, sub: string)
    requires Contains(b, sub)
    ensures Contains(a + b, sub)
  {
    var i :| OccursAt(b, sub, i);
    assert (a + b)[|a| + i..|a| + i + |sub|] == b[i..i + |sub|];
    assert OccursAt(a + b, sub, |a| + i);
  }

  /** Putting text behind keeps every occurrence. */
  lemma ContainsExtendedRight(a: string, b: string, sub: string)
    requires Contains(a, sub)
    ensures Contains(a + b, sub)
  {
    var i :| OccursAt(a, sub, i);
    assert (a + b)[i..i + |sub|] == a[i..i + |sub|];
    assert OccursAt(a + b, sub, i);
  }

  /** Containment is transitive. */
  lemma ContainsTransitive(s: string, t: string, u: string)
    requires Contains(s, t) && Contains(t, u)
    ensures Contains(s, u)
  {
    var i :| OccursAt(s, t, i);
    var j :| OccursAt(t, u, j);
    forall k | 0 <= k < |u| ensures s[i + j..i + j + |u|][k] == u[k] {
      assert u[k] == t[j + k] == s[i + j + k];
    }
    assert OccursAt(s, u, i + j);
  }

  /** The characters `String.prototype.trim` strips: the ECMAScript
      WhiteSpace and LineTerminator code points. */
  predicate IsWhiteSpace(ch: char)
  {
    ch == '\t' || ch == '\n' || ch == '\U{000B}' || ch == '\U{000C}' || ch == '\r' ||
    ch == ' ' || ch == '\U{00A0}' || ch == '\U{1680}' ||
    ('\U{2000}' <= ch <= '\U{200A}') ||
    ch == '\U{2028}' || ch == '\U{2029}' || ch == '\U{202F}' || ch == '\U{205F}' ||
    ch == '\U{3000}' || ch == '\U{FEFF}'
  }

  /** `s` with its leading white space removed. */
  function TrimStart(s: string): (r: string)
    ensures |r| <= |s| && r == s[|s| - |r|..]
    ensures r == [] || !IsWhiteSpace(r[0])
    ensures forall i :: 0 <= i < |s| - |r| ==> IsWhiteSpace(s[i])
  {
    if |s| > 0 && IsWhiteSpace(s[0]) then TrimStart(s[1..]) else s
  }

  /** `s` with its trailing white space removed. */
  function TrimEnd(s: string): (r: string)
    ensures |r| <= |s| && r == s[..|r|]
    ensures r == [] || !IsWhiteSpace(r[|r| - 1])
    ensures forall i :: |r| <= i < |s| ==> IsWhiteSpace(s[i])
  {
    if |s| > 0 && IsWhiteSpace(s[|s| - 1]) then TrimEnd(s[..|s| - 1]) else s
  }

  /** `String.prototype.trim`: white space goes from both ends, and nothing
      is left exactly when the string is all white space. */
  function Trim(s: string): (r: string)
    ensures |r| <= |s|
    ensures r == [] || (!IsWhiteSpace(r[0]) && !IsWhiteSpace(r[|r| - 1]))
    ensures r == [] <==> forall i :: 0 <= i < |s| ==> IsWhiteSpace(s[i])
    ensures var a := |s| - |TrimStart(s)|;
      && 0 <= a && a + |r| <= |s| && r == s[a..][..|r|]
      && forall i :: a + |r| <= i < |s| ==> IsWhiteSpace(s[i])
  {
    TrimmedEmptyIffAllWhiteSpace(s);
    TrimEndOfSuffix(s, |s| - |TrimStart(s)|);
    TrimEnd(TrimStart(s))
  }

  /** What trimming the end of the suffix `s[a..]` drops is white space of
      `s` itself. */
  lemma TrimEndOfSuffix(s: string, a: nat)
    requires a <= |s|
    ensures forall i :: a + |TrimEnd(s[a..])| <= i < |s| ==> IsWhiteSpace(s[i])
  {
    var t := s[a..];
    forall i | a + |TrimEnd(t)| <= i < |s| ensures IsWhiteSpace(s[i]) {
      assert s[i] == t[i - a];
    }
  }

  /** `s.trim() === ""`: every character is white space. */
  predicate IsBlank(s: string)
  {
    forall i :: 0 <= i < |s| ==> IsWhiteSpace(s[i])
  }

  /** A string is blank exactly when trimming it leaves the empty string. */
  lemma BlankIffTrimEmpty(s: string)
    ensures IsBlank(s) <==> Trim(s) == []
  {
  }

  /** Trimming both ends leaves nothing exactly when every character is
      white space. */
  lemma TrimmedEmptyIffAllWhiteSpace(s: string)
    ensures TrimEnd(TrimStart(s)) == [] <==> forall i :: 0 <= i < |s| ==> IsWhiteSpace(s[i])
  {
    var t := TrimStart(s);
    if !forall i :: 0 <= i < |s| ==> IsWhiteSpace(s[i]) {
      var k :| 0 <= k < |s| && !IsWhiteSpace(s[k]);
      assert t != [];
      assert !IsWhiteSpace(t[0]);
      assert TrimEnd(t) != [];
    }
  }

  /** The ASCII part of `String.prototype.toLowerCase`. */
  function LowerChar(ch: char): (r: char)
    ensures !('A' <= r <= 'Z')
    ensures !('A' <= ch <= 'Z') ==> r == ch
    ensures 'A' <= ch <= 'Z' ==> r as int == ch as int + ('a' as int - 'A' as int)
  {
    if 'A' <= ch <= 'Z' then (ch as int - 'A' as int + 'a' as int) as char else ch
  }

  /** `toLowerCase` on ASCII letters; every other character is kept. */
  function ToLowerAscii(s: string): (r: string)
    ensures |r| == |s|
    ensures forall i :: 0 <= i < |s| ==> r[i] == LowerChar(s[i])
  {
    if |s| == 0 then [] else [LowerChar(s[0])] + ToLowerAscii(s[1..])
  }

  /** Lower-casing twice is lower-casing once. */
  lemma {:induction false} ToLowerAsciiIdempotent(s: string)
    ensures ToLowerAscii(ToLowerAscii(s)) == ToLowerAscii(s)
  {
    var r := ToLowerAscii(s);
    var rr := ToLowerAscii(r);
    assert |rr| == |r|;
    forall i | 0 <= i < |r| ensures rr[i] == r[i] {
      assert rr[i] == LowerChar(r[i]);
    }
  }

  /** Number of occurrences of `c` in `s`. */
  function Count(s: string, c: char): (n: nat)
    ensures n <= |s|
    ensures n == 0 <==> c !in s
  {
    if |s| == 0 then 0 else (if s[0] == c then 1 else 0) + Count(s[1..], c)
  }

  /** `String.prototype.split` with a one-character separator: the pieces
      between consecutive separators, one more piece than separators. */
  function SplitOn(s: string, sep: char): (parts: seq<string>)
    ensures |parts| >= 1
    ensures forall k :: 0 <= k < |parts| ==> sep !in parts[k]
    decreases |s|
  {
    var i := IndexOf(s, sep);
    if i == -1 then [s] else [s[..i]] + SplitOn(s[i + 1..], sep)
  }

  /** `Array.prototype.join`. */
  function JoinWith(parts: seq<string>, sep: string): string
  {
    if |parts| == 0 then []
    else if |parts| == 1 then parts[0]
    else parts[0] + sep + JoinWith(parts[1..], sep)
  }

  /** Every piece appears in the joined text. */
  lemma {:induction false} JoinContainsEachPiece(parts: seq<string>, sep: string)
    ensures forall k :: 0 <= k < |parts| ==> Contains(JoinWith(parts, sep), parts[k])
  {
    if |parts| == 1 {
      assert OccursAt(parts[0], parts[0], 0);
    } else if |parts| > 1 {
      var rest := JoinWith(parts[1..], sep);
      JoinContainsEachPiece(parts[1..], sep);
      ContainsMiddle([], parts[0], sep + rest);
      assert [] + parts[0] + (sep + rest) == JoinWith(parts, sep);
      forall k | 1 <= k < |parts| ensures Contains(JoinWith(parts, sep), parts[k]) {
        assert parts[k] == parts[1..][k - 1];
        ContainsExtendedLeft(parts[0] + sep, rest, parts[k]);
      }
    }
  }

  /** `Array.prototype.slice(0, n)`: the first `n` elements, or all of them. */
  function Take<T>(xs: seq<T>, n: nat): (r: seq<T>)
    ensures |r| == if |xs| <= n then |xs| else n
    ensures r <= xs
  {
    if |xs| <= n then xs else xs[..n]
  }

  /** Splitting `s` at `sep` yields one piece more than `sep` occurs in `s`. */
  lemma {:induction false} SplitOnLength(s: string, sep: char)
    ensures |SplitOn(s, sep)| == Count(s, sep) + 1
    decreases |s|
  {
    var i := IndexOf(s, sep);
    if i != -1 {
      SplitOnLength(s[i + 1..], sep);
      CountSplit(s, i, sep);
    }
  }

  /** Counting across the first separator. */
  lemma {:induction false} CountSplit(s: string, i: nat, sep: char)
    requires i < |s| && s[i] == sep && sep !in s[..i]
    ensures Count(s, sep) == 1 + Count(s[i + 1..], sep)
  {
    if i > 0 {
      assert s[1..][..i - 1] == s[1..i];
      assert s[1..][i - 1 + 1..] == s[i + 1..];
      CountSplit(s[1..], i - 1, sep);
    }
  }

  /** Joining the pieces back with the separator restores the string. */
  lemma {:induction false} JoinSplit(s: string, sep: char)
    ensures JoinWith(SplitOn(s, sep), [sep]) == s
    decreases |s|
  {
    var i := IndexOf(s, sep);
    if i != -1 {
      var rest := SplitOn(s[i + 1..], sep);
      JoinSplit(s[i + 1..], sep);
      var parts := SplitOn(s, sep);
      assert parts == [s[..i]] + rest;
      JoinCons(s[..i], rest, [sep]);
      assert s == s[..i] + [sep] + s[i + 1..];
    }
  }

  /** Splitting a join of separator-free pieces gives the pieces back. */
  lemma {:induction false} SplitJoin(parts: seq<string>, sep: char)
    requires |parts| >= 1
    requires forall k :: 0 <= k < |parts| ==> sep !in parts[k]
    ensures SplitOn(JoinWith(parts, [sep]), sep) == parts
    decreases |parts|
  {
    var s := JoinWith(parts, [sep]);
    if |parts| == 1 {
      assert IndexOf(s, sep) == -1;
    } else {
      var tail := JoinWith(parts[1..], [sep]);
      assert s == parts[0] + [sep] + tail;
      assert s[|parts[0]|] == sep;
      assert s[..|parts[0]|] == parts[0];
      assert IndexOf(s, sep) == |parts[0]|;
      assert s[|parts[0]| + 1..] == tail;
      SplitJoin(parts[1..], sep);
    }
  }

  /** Joining a list with at least two pieces puts the separator after the first. */
  lemma JoinCons(a: string, t: seq<string>, sep: string)
    requires |t| >= 1
    ensures JoinWith([a] + t, sep) == a + sep + JoinWith(t, sep)
  {
    assert ([a] + t)[1..] == t;
  }

  /** Re-joining any number (at least one) of the leading pieces gives a
      prefix of the original string. */
  lemma {:induction false} JoinLeadingPiecesIsPrefix(s: string, sep: char, n: nat)
    requires n >= 1
    ensures IsPrefix(JoinWith(Take(SplitOn(s, sep), n), [sep]), s)
    decreases |s|
  {
    var i := IndexOf(s, sep);
    if i == -1 || n == 1 {
      FirstPieceIsPrefix(s, sep, n);
    } else {
      var front, tail := s[..i] + [sep], s[i + 1..];
      assert s == front + tail;
      JoinLeadingPiecesIsPrefix(tail, sep, n - 1);
      SplitOnFirst(s, sep);
      JoinTakeCons(s[..i], SplitOn(tail, sep), n, [sep]);
      PrefixAfter(front, JoinWith(Take(SplitOn(tail, sep), n - 1), [sep]), tail);
    }
  }

  /** The base cases of the above: no separator, or only the first piece kept. */
  lemma FirstPieceIsPrefix(s: string, sep: char, n: nat)
    requires n == 1 || sep !in s
    requires n >= 1
    ensures IsPrefix(JoinWith(Take(SplitOn(s, sep), n), [sep]), s)
  {
    var i := IndexOf(s, sep);
    if i == -1 {
      assert SplitOn(s, sep) == [s];
    } else {
      assert Take(SplitOn(s, sep), n) == [s[..i]];
    }
  }

  /** Re-joining the first `n` elements of a list with a known head. */
  lemma JoinTakeCons(first: string, rest: seq<string>, n: nat, sep: string)
    requires n >= 2 && |rest| >= 1
    ensures JoinWith(Take([first] + rest, n), sep) == first + sep + JoinWith(Take(rest, n - 1), sep)
  {
    TakeCons(first, rest, n);
    JoinCons(first, Take(rest, n - 1), sep);
  }

  /** Splitting a string that holds the separator: the piece before its
      first occurrence, then the pieces of the rest. */
  lemma SplitOnFirst(s: string, sep: char)
    requires sep in s
    ensures var i := IndexOf(s, sep);
      SplitOn(s, sep) == [s[..i]] + SplitOn(s[i + 1..], sep)
  {
  }

  /** Taking `n` elements of a list with a known head. */
  lemma TakeCons<T>(a: T, xs: seq<T>, n: nat)
    requires n >= 1
    ensures Take([a] + xs, n) == [a] + Take(xs, n - 1)
  {
    if |xs| > n - 1 {
      assert ([a] + xs)[..n] == [a] + xs[..n - 1];
    }
  }

  /** Extending both sides of a prefix by the same front keeps it a prefix. */
  lemma PrefixAfter(front: string, p: string, u: string)
    requires IsPrefix(p, u)
    ensures IsPrefix(front + p, front + u)
  {
    assert (front + u)[..|front + p|] == front + p;
  }

  /** `p` is a prefix of `s`. */
  predicate IsPrefix(p: string, s: string)
  {
    |p| <= |s| && s[..|p|] == p
  }

  /** With fewer than `n` separators, the first `n` pieces are all of them. */
  lemma FewSeparatorsKeepAll(s: string, sep: char, n: nat)
    requires Count(s, sep) < n
    ensures JoinWith(Take(SplitOn(s, sep), n), [sep]) == s
  {
    SplitOnLength(s, sep);
    JoinSplit(s, sep);
  }

  /** Counting over a concatenation adds the counts of the two halves. */
  lemma {:induction false} CountAppend(a: string, b: string, c: char)
    ensures Count(a + b, c) == Count(a, c) + Count(b, c)
    decreases |a|
  {
    if |a| == 0 {
      assert a + b == b;
    } else {
      assert (a + b)[1..] == a[1..] + b;
      CountAppend(a[1..], b, c);
    }
  }

  /** With at least `n` separators, re-joining the first `n` pieces stops
      right before the `n`-th separator: it holds `n - 1` separators and the
      string goes on with a separator. */
  lemma LeadingPiecesStopAtSeparator(s: string, sep: char, n: nat)
    requires n >= 1 && Count(s, sep) >= n
    ensures var r := JoinWith(Take(SplitOn(s, sep), n), [sep]);
      Count(r, sep) == n - 1 && |r| < |s| && s[|r|] == sep
  {
    SplitOnLength(s, sep);
    JoinSplit(s, sep);
    JoinLeadingStops(SplitOn(s, sep), sep, n);
  }

  /** The same for any list of separator-free pieces with more than `n`
      entries: the first `n` re-joined stop right before a separator of the
      whole join. */
  lemma {:induction false} JoinLeadingStops(parts: seq<string>, sep: char, n: nat)
    requires 1 <= n < |parts|
    requires forall k :: 0 <= k < |parts| ==> sep !in parts[k]
    ensures var r, whole := JoinWith(Take(parts, n), [sep]), JoinWith(parts, [sep]);
      Count(r, sep) == n - 1 && |r| < |whole| && whole[|r|] == sep
    decreases n
  {
    var first, rest := parts[0], parts[1..];
    assert parts == [first] + rest;
    JoinCons(first, rest, [sep]);
    if n == 1 {
      assert Take(parts, 1) == [first];
      assert JoinWith([first], [sep]) == first;
      assert Count(first, sep) == 0;
      assert (first + [sep] + JoinWith(rest, [sep]))[|first|] == sep;
    } else {
      assert forall k :: 0 <= k < |rest| ==> sep !in rest[k] by {
        forall k | 0 <= k < |rest| ensures sep !in rest[k] {
          assert rest[k] == parts[k + 1];
        }
      }
      JoinLeadingStops(rest, sep, n - 1);
      JoinTakeCons(first, rest, n, [sep]);
      SeparatorThenPrefix(first, sep, JoinWith(rest, [sep]), JoinWith(Take(rest, n - 1), [sep]));
    }
  }

  /** One step of the above: a separator-free front, the separator, then a
      prefix of the rest that stops before a separator. */
  lemma SeparatorThenPrefix(front: string, sep: char, tail: string, r: string)
    requires sep !in front
    requires |r| < |tail| && tail[|r|] == sep
    ensures Count(front + [sep] + r, sep) == Count(r, sep) + 1
    ensures (front + [sep] + tail)[|front + [sep] + r|] == sep
  {
    CountAppend(front, [sep], sep);
    CountAppend(front + [sep], r, sep);
    assert Count([sep], sep) == 1 by { assert [sep][1..] == []; }
  }
}
