/**
 * String helpers with the JavaScript semantics the source relies on:
 * `trim`, `includes`, `replace` with a string or with a global one-pattern
 * regex, `split(c).pop()`, ASCII case mapping and decimal rendering.
 * A string is a sequence of characters; the source's UTF-16 code units are
 * modelled one character each.
 */
module Text {

  /** The line terminators excluded by the regex `.`. */
  predicate IsLineTerminator(c: char)
  {
    c == '\n' || c == '\r' || c == '\U{2028}' || c == '\U{2029}'
  }

  /** JavaScript white space plus line terminators: the set of `\s` and of `trim`. */
  predicate IsSpace(c: char)
  {
    c == '\t' || c == '\n' || c == '\U{000B}' || c == '\U{000C}' || c == '\r' || c == ' '
    || c == '\U{00A0}' || c == '\U{1680}' || ('\U{2000}' <= c <= '\U{200A}')
    || c == '\U{2028}' || c == '\U{2029}' || c == '\U{202F}' || c == '\U{205F}'
    || c == '\U{3000}' || c == '\U{FEFF}'
  }

  predicate NoSpace(s: string)
  {
    forall i :: 0 <= i < |s| ==> !IsSpace(s[i])
  }

  predicate AllSpace(s: string)
  {
    forall i :: 0 <= i < |s| ==> IsSpace(s[i])
  }

  predicate NoneOfChars(s: string, cs: string)
  {
    forall i :: 0 <= i < |s| ==> s[i] !in cs
  }

  /** `s.trimStart()`: the suffix left after dropping leading white space. */
  function TrimStart(s: string): (r: string)
    ensures |r| <= |s| && r == s[|s| - |r|..] && AllSpace(s[..|s| - |r|])
    ensures r == [] || !IsSpace(r[0])
  {
    if s != [] && IsSpace(s[0]) then
      var r := TrimStart(s[1..]);
      assert s[1..][..|s| - 1 - |r|] == s[1..|s| - |r|];
      r
    else
      s
  }

  /** `s.trimEnd()`: the prefix left after dropping trailing white space. */
  function TrimEnd(s: string): (r: string)
    ensures |r| <= |s| && r == s[..|r|] && AllSpace(s[|r|..])
    ensures r == [] || !IsSpace(r[|r| - 1])
  {
    if s != [] && IsSpace(s[|s| - 1]) then
      var r := TrimEnd(s[..|s| - 1]);
      assert s[..|s| - 1][|r|..] == s[|r|..|s| - 1];
      r
    else
      s
  }

  /** `s.trim()`. */
  function Trim(s: string): (r: string)
    ensures r == [] || (!IsSpace(r[0]) && !IsSpace(r[|r| - 1]))
  {
    TrimEnd(TrimStart(s))
  }

  /** Trim removes exactly the white space around a text that neither starts nor ends with it. */
  lemma TrimFrame(a: string, x: string, b: string)
    requires AllSpace(a) && AllSpace(b)
    requires x == [] || (!IsSpace(x[0]) && !IsSpace(x[|x| - 1]))
    ensures Trim(a + x + b) == x
  {
    if x == [] {
      assert a + x + b == a + b;
      TrimStartSpaces(a + b, []);
      assert a + b + [] == a + b;
    } else {
      assert a + x + b == a + (x + b);
      TrimStartSpaces(a, x + b);
      TrimEndSpaces(x, b);
    }
  }

  /** Trim leaves a text that neither starts nor ends with white space as it is. */
  lemma TrimEnds(s: string)
    requires s == [] || (!IsSpace(s[0]) && !IsSpace(s[|s| - 1]))
    ensures Trim(s) == s
  {
    TrimFrame([], s, []);
    assert [] + s + [] == s;
  }

  /** Trim leaves a text without white space as it is. */
  lemma NoSpaceTrim(s: string)
    requires NoSpace(s)
    ensures Trim(s) == s
  {
    if s != [] {
      assert !IsSpace(s[0]) && !IsSpace(s[|s| - 1]);
    }
    TrimEnds(s);
  }

  lemma {:induction false} TrimStartSpaces(a: string, y: string)
    requires AllSpace(a) && (y == [] || !IsSpace(y[0]))
    ensures TrimStart(a + y) == y
  {
    if a != [] {
      assert (a + y)[1..] == a[1..] + y;
      TrimStartSpaces(a[1..], y);
    }
  }

  lemma {:induction false} TrimEndSpaces(y: string, b: string)
    requires AllSpace(b) && (y == [] || !IsSpace(y[|y| - 1]))
    ensures TrimEnd(y + b) == y
  {
    if b != [] {
      assert (y + b)[..|y + b| - 1] == y + b[..|b| - 1];
      TrimEndSpaces(y, b[..|b| - 1]);
    }
  }

  /** `s.startsWith(p, i)`. */
  predicate StartsAt(s: string, i: nat, p: string)
  {
    i + |p| <= |s| && s[i..i + |p|] == p
  }

  /** `s.includes(p)`. */
  predicate Contains(s: string, p: string)
  {
    exists i :: 0 <= i <= |s| - |p| && StartsAt(s, i, p)
  }

  /** A text does not contain a pattern whose first character it lacks where the pattern would fit. */
  lemma NoFirstChar(s: string, p: string)
    requires p != [] && forall i :: 0 <= i <= |s| - |p| ==> s[i] != p[0]
    ensures !Contains(s, p)
  {
    forall i | 0 <= i <= |s| - |p| ensures !StartsAt(s, i, p) {
      assert s[i..i + |p|][0] == s[i];
    }
  }

  /** Position of the first occurrence of `p` at or after `from` (`indexOf`). */
  function IndexOfFrom(s: string, p: string, from: nat): (r: int)
    requires from <= |s|
    ensures r == -1 || (from <= r <= |s| - |p| && StartsAt(s, r, p))
    ensures r == -1 ==> forall i :: from <= i <= |s| - |p| ==> !StartsAt(s, i, p)
    ensures r != -1 ==> forall i :: from <= i < r ==> !StartsAt(s, i, p)
    decreases |s| - from
  {
    if StartsAt(s, from, p) then from
    else if from + |p| >= |s| then -1
    else IndexOfFrom(s, p, from + 1)
  }

  function IndexOf(s: string, p: string): int
  {
    IndexOfFrom(s, p, 0)
  }

  /** `s.replace(p, r)` with a string pattern: only the first occurrence is replaced. */
  function ReplaceFirst(s: string, p: string, r: string): string
  {
    var i := IndexOf(s, p);
    if i == -1 then s
    else s[..i] + r + s[i + |p|..]
  }

  /** Without an occurrence nothing changes. */
  lemma ReplaceFirstAbsent(s: string, p: string, r: string)
    requires !Contains(s, p)
    ensures ReplaceFirst(s, p, r) == s
  {
    assert IndexOf(s, p) == -1;
  }

  /** An occurrence at the start is the one replaced. */
  lemma ReplaceFirstAtStart(s: string, p: string, r: string)
    requires StartsAt(s, 0, p)
    ensures ReplaceFirst(s, p, r) == r + s[|p|..]
  {
    assert IndexOf(s, p) == 0;
    assert s[..0] + r == r;
  }

  /** The first occurrence is the one replaced. */
  lemma ReplaceFirstAt(s: string, k: nat, p: string, r: string)
    requires StartsAt(s, k, p) && forall i :: 0 <= i < k ==> !StartsAt(s, i, p)
    ensures ReplaceFirst(s, p, r) == s[..k] + r + s[k + |p|..]
  {
    assert IndexOf(s, p) == k;
  }

  /** `s.replace(/p/g, r)` for a pattern that is a plain non-empty string:
    * occurrences are replaced left to right without overlap. */
  function ReplaceAll(s: string, p: string, r: string): string
    requires p != []
    decreases |s|
  {
    if s == [] then []
    else if StartsAt(s, 0, p) then r + ReplaceAll(s[|p|..], p, r)
    else [s[0]] + ReplaceAll(s[1..], p, r)
  }

  /** A text without an occurrence of the pattern is left as it is. */
  lemma {:induction false} ReplaceAllAbsent(s: string, p: string, r: string)
    requires p != [] && !Contains(s, p)
    ensures ReplaceAll(s, p, r) == s
    decreases |s|
  {
    if s != [] {
      assert !StartsAt(s, 0, p);
      assert !Contains(s[1..], p) by {
        if Contains(s[1..], p) {
          var i :| 0 <= i <= |s[1..]| - |p| && StartsAt(s[1..], i, p);
          assert s[i + 1..i + 1 + |p|] == s[1..][i..i + |p|];
          assert StartsAt(s, i + 1, p);
        }
      }
      ReplaceAllAbsent(s[1..], p, r);
    }
  }

  /** A global replace brings in no character that neither the text nor the replacement has. */
  lemma {:induction false} ReplaceAllKeeps(s: string, p: string, r: string, c: char)
    requires p != [] && c !in s && c !in r
    ensures c !in ReplaceAll(s, p, r)
    decreases |s|
  {
    if s != [] {
      if StartsAt(s, 0, p) {
        ReplaceAllKeeps(s[|p|..], p, r, c);
      } else {
        ReplaceAllKeeps(s[1..], p, r, c);
      }
    }
  }

  /** Replacing every occurrence of one character by text without it leaves none of it. */
  lemma {:induction false} ReplaceAllRemoves(s: string, c: char, r: string)
    requires c !in r
    ensures c !in ReplaceAll(s, [c], r)
    decreases |s|
  {
    if s != [] {
      if StartsAt(s, 0, [c]) {
        ReplaceAllRemoves(s[1..], c, r);
      } else {
        assert s[0..1] == [s[0]];
        ReplaceAllRemoves(s[1..], c, r);
      }
    }
  }

  /** A chain of global replaces `s.replace(/p1/g, r1).replace(/p2/g, r2)…`, applied in order. */
  function ReplaceEach(s: string, rules: seq<(string, string)>): string
    requires forall i :: 0 <= i < |rules| ==> rules[i].0 != []
    decreases |rules|
  {
    if rules == [] then s else ReplaceEach(ReplaceAll(s, rules[0].0, rules[0].1), rules[1..])
  }

  /** A chain of replaces brings in no character that neither the text nor any replacement has. */
  lemma {:induction false} ReplaceEachKeeps(s: string, rules: seq<(string, string)>, c: char)
    requires forall i :: 0 <= i < |rules| ==> rules[i].0 != [] && c !in rules[i].1
    requires c !in s
    ensures c !in ReplaceEach(s, rules)
    decreases |rules|
  {
    if rules != [] {
      ReplaceAllKeeps(s, rules[0].0, rules[0].1, c);
      ReplaceEachKeeps(ReplaceAll(s, rules[0].0, rules[0].1), rules[1..], c);
    }
  }

  /** A character that rule `j` replaces by text without it, and that no later rule brings in, is
    * absent from the result. */
  lemma {:induction false} ReplaceEachRemoves(s: string, rules: seq<(string, string)>, j: nat, c: char)
    requires forall i :: 0 <= i < |rules| ==> rules[i].0 != []
    requires j < |rules| && rules[j].0 == [c]
    requires forall i :: j <= i < |rules| ==> c !in rules[i].1
    ensures c !in ReplaceEach(s, rules)
    decreases |rules|
  {
    var t := ReplaceAll(s, rules[0].0, rules[0].1);
    if j == 0 {
      ReplaceAllRemoves(s, c, rules[0].1);
      ReplaceEachKeeps(t, rules[1..], c);
    } else {
      ReplaceEachRemoves(t, rules[1..], j - 1, c);
    }
  }

  /** `s.replace(/[cs]/g, '')`: every character of `cs` removed. */
  function RemoveChars(s: string, cs: string): (r: string)
    ensures NoneOfChars(r, cs)
    ensures |r| <= |s|
    ensures NoneOfChars(s, cs) ==> r == s
  {
    if s == [] then []
    else if s[0] in cs then RemoveChars(s[1..], cs)
    else [s[0]] + RemoveChars(s[1..], cs)
  }

  /** The last piece of `s.split(c)`, that is `s.split(c).pop()`. */
  function LastSegment(s: string, c: char): (r: string)
    ensures c !in r
    ensures |r| <= |s| && r == s[|s| - |r|..]
    ensures c !in s ==> r == s
    decreases |s|
  {
    if s == [] then []
    else if s[|s| - 1] == c then []
    else
      var r := LastSegment(s[..|s| - 1], c);
      assert r + [s[|s| - 1]] == s[|s| - 1 - |r|..];
      assert c !in s ==> c !in s[..|s| - 1];
      r + [s[|s| - 1]]
  }

  function LowerChar(c: char): char
  {
    if 'A' <= c <= 'Z' then (c as int + 32) as char else c
  }

  function UpperChar(c: char): char
  {
    if 'a' <= c <= 'z' then (c as int - 32) as char else c
  }

  /**
   * `s.toLowerCase()` restricted to ASCII letters: JavaScript maps case over all of
   * Unicode, where a letter such as `É` also changes and `İ` becomes two code units.
   */
  function ToLower(s: string): (r: string)
    ensures |r| == |s|
    ensures forall i :: 0 <= i < |s| ==> r[i] == LowerChar(s[i])
  {
    if s == [] then [] else [LowerChar(s[0])] + ToLower(s[1..])
  }

  /** Decimal rendering of a natural number, as template literals print it. */
  function NatToString(n: nat): (r: string)
    ensures r != []
    ensures forall i :: 0 <= i < |r| ==> '0' <= r[i] <= '9'
  {
    var d := ['0' + (n % 10) as char];
    if n < 10 then d else NatToString(n / 10) + d
  }

  lemma {:induction false} NatToStringLength(n: nat)
    ensures n < 10 <==> |NatToString(n)| == 1
  {
    if n >= 10 {
      assert NatToString(n) == NatToString(n / 10) + ['0' + (n % 10) as char];
    }
  }

  /** Different numbers print differently. */
  lemma {:induction false} NatToStringInjective(m: nat, n: nat)
    requires NatToString(m) == NatToString(n)
    ensures m == n
  {
    var a, b := NatToString(m), NatToString(n);
    NatToStringLength(m);
    NatToStringLength(n);
    assert a[|a| - 1] == '0' + (m % 10) as char;
    assert b[|b| - 1] == '0' + (n % 10) as char;
    assert m % 10 == n % 10;
    if m >= 10 {
      assert a[..|a| - 1] == NatToString(m / 10);
      assert b[..|b| - 1] == NatToString(n / 10);
      NatToStringInjective(m / 10, n / 10);
    }
  }

  /** `xs.join(sep)`. */
  function Join(xs: seq<string>, sep: string): (r: string)
    ensures |xs| == 1 ==> r == xs[0]
    ensures xs == [] ==> r == []
  {
    if xs == [] then []
    else if |xs| == 1 then xs[0]
    else xs[0] + sep + Join(xs[1..], sep)
  }

  /** Strict lexicographic order on character codes: the order of `Array.prototype.sort`. */
  predicate Less(a: string, b: string)
  {
    if a == [] then b != []
    else if b == [] then false
    else a[0] < b[0] || (a[0] == b[0] && Less(a[1..], b[1..]))
  }

  lemma {:induction false} LessIrreflexive(a: string)
    ensures !Less(a, a)
  {
    if a != [] {
      LessIrreflexive(a[1..]);
    }
  }

  lemma {:induction false} LessTransitive(a: string, b: string, c: string)
    requires Less(a, b) && Less(b, c)
    ensures Less(a, c)
  {
    if a != [] && b != [] && c != [] && a[0] == b[0] && b[0] == c[0] {
      LessTransitive(a[1..], b[1..], c[1..]);
    }
  }

  lemma {:induction false} LessTotal(a: string, b: string)
    ensures a == b || Less(a, b) || Less(b, a)
  {
    if a != [] && b != [] && a[0] == b[0] {
      LessTotal(a[1..], b[1..]);
      if a[1..] == b[1..] {
        assert a == [a[0]] + a[1..] && b == [b[0]] + b[1..];
      }
    }
  }

  lemma {:induction false} RemoveCharsConcat(a: string, b: string, cs: string)
    ensures RemoveChars(a + b, cs) == RemoveChars(a, cs) + RemoveChars(b, cs)
  {
    if a != [] {
      assert (a + b)[1..] == a[1..] + b;
      RemoveCharsConcat(a[1..], b, cs);
    } else {
      assert a + b == b;
    }
  }

  /** A prefix with none of the characters is kept as it is. */
  lemma RemoveCharsKeepsPrefix(a: string, b: string, cs: string)
    requires NoneOfChars(a, cs)
    ensures RemoveChars(a + b, cs) == a + RemoveChars(b, cs)
  {
    RemoveCharsConcat(a, b, cs);
  }
}
