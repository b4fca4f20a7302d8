/**
 * A backtracking matcher for the small fragment of JavaScript regular
 * expressions that the source uses: literals, `\s*`, greedy and lazy
 * one-or-more repetitions of a character class, and alternations of
 * literals, each optionally captured. A pattern is a sequence of nodes.
 * `Match` returns the FIRST successful path in JavaScript's backtracking
 * order: a greedy repetition tries its longest run first, a lazy one its
 * shortest, an alternation its alternatives from left to right.
 */
module Regex {
  import opened Wrappers
  import opened Text

  /** A character class: `.`, `\s`, or `[^...]`. */
  datatype Class = NotNewline | Space | NoneOf(excluded: string)

  datatype Node =
    | Lit(s: string)                          // a literal, e.g. `\(` or `==`
    | Star(k: Class)                          // `k*`, greedy, not captured
    | Plus(k: Class, lazy: bool, cap: bool)   // `k+` or `k+?`, optionally captured
    | Alt(alts: seq<string>, cap: bool)       // `(a|b|...)` over literals, optionally captured

  type Pattern = seq<Node>

  /** Where a successful match ends, and the captured texts in order. */
  datatype Res = Res(end: nat, caps: seq<string>)

  predicate InClass(k: Class, c: char)
  {
    match k
    case NotNewline => !IsLineTerminator(c)
    case Space => IsSpace(c)
    case NoneOf(cs) => c !in cs
  }

  /** The end of the longest run of class `k` that starts at `i`. */
  function RunEnd(k: Class, t: string, i: nat): (j: nat)
    requires i <= |t|
    ensures i <= j <= |t|
    ensures forall m :: i <= m < j ==> InClass(k, t[m])
    ensures j < |t| ==> !InClass(k, t[j])
    decreases |t| - i
  {
    if i < |t| && InClass(k, t[i]) then RunEnd(k, t, i + 1) else i
  }

  function MinRun(n: Node): nat
  {
    if n.Plus? then 1 else 0
  }

  /** The capture list after node `n` matched `s`. */
  function Keep(n: Node, caps: seq<string>, s: string): seq<string>
  {
    if (n.Plus? || n.Alt?) && n.cap then caps + [s] else caps
  }

  predicate IsGreedy(n: Node)
  {
    n.Star? || (n.Plus? && !n.lazy)
  }

  /** Matches pattern `re` anchored at position `i` of `t`. */
  function Match(re: Pattern, t: string, i: nat, caps: seq<string>): (r: Option<Res>)
    requires i <= |t|
    ensures r.Some? ==> i <= r.value.end <= |t|
    decreases |re|, 1, 0
  {
    if re == [] then Some(Res(i, caps))
    else
      match re[0]
      case Lit(s) =>
        if StartsAt(t, i, s) then Match(re[1..], t, i + |s|, caps) else None
      case Star(k) => Greedy(re, t, i, RunEnd(k, t, i), caps)
      case Plus(k, lazy, _) =>
        if lazy then Lazy(re, t, i, i + 1, caps) else Greedy(re, t, i, RunEnd(k, t, i), caps)
      case Alt(_, _) => Alts(re, t, i, 0, caps)
  }

  /** A greedy repetition: tries the run ending at `j`, then shorter ones. */
  function Greedy(re: Pattern, t: string, i: nat, j: nat, caps: seq<string>): (r: Option<Res>)
    requires re != [] && IsGreedy(re[0]) && i <= j <= |t|
    ensures r.Some? ==> i <= r.value.end <= |t|
    decreases |re|, 0, j
  {
    if j < i + MinRun(re[0]) then None
    else
      match Match(re[1..], t, j, Keep(re[0], caps, t[i..j]))
      case Some(r) => Some(r)
      case None => if j == i + MinRun(re[0]) then None else Greedy(re, t, i, j - 1, caps)
  }

  /** A lazy repetition: tries the run ending at `j`, then longer ones. */
  function Lazy(re: Pattern, t: string, i: nat, j: nat, caps: seq<string>): (r: Option<Res>)
    requires re != [] && re[0].Plus? && re[0].lazy && i < j <= |t| + 1
    ensures r.Some? ==> i <= r.value.end <= |t|
    decreases |re|, 0, |t| + 1 - j
  {
    if j > RunEnd(re[0].k, t, i) then None
    else
      match Match(re[1..], t, j, Keep(re[0], caps, t[i..j]))
      case Some(r) => Some(r)
      case None => Lazy(re, t, i, j + 1, caps)
  }

  /** An alternation: tries alternative `n`, then the later ones. */
  function Alts(re: Pattern, t: string, i: nat, n: nat, caps: seq<string>): (r: Option<Res>)
    requires re != [] && re[0].Alt? && n <= |re[0].alts|
    ensures r.Some? ==> i <= r.value.end <= |t|
    decreases |re|, 0, |re[0].alts| - n
  {
    if n == |re[0].alts| then None
    else
      var a := re[0].alts[n];
      if StartsAt(t, i, a) then
        match Match(re[1..], t, i + |a|, Keep(re[0], caps, a))
        case Some(r) => Some(r)
        case None => Alts(re, t, i, n + 1, caps)
      else Alts(re, t, i, n + 1, caps)
  }

  /** `t.match(re)` without the `g` flag: the first start position that matches. */
  function Search(re: Pattern, t: string, s: nat): (r: Option<Res>)
    requires s <= |t|
    decreases |t| - s
  {
    match Match(re, t, s, [])
    case Some(r) => Some(r)
    case None => if s == |t| then None else Search(re, t, s + 1)
  }

  function Find(re: Pattern, t: string): Option<Res>
  {
    Search(re, t, 0)
  }

  predicate Accepts(re: Pattern, t: string, i: nat)
    requires i <= |t|
  {
    Match(re, t, i, []).Some?
  }

  /** The captures of `inner` placed after an earlier capture list `c`. */
  function After(c: seq<string>, inner: Option<Res>): Option<Res>
  {
    match inner
    case None => None
    case Some(r) => Some(Res(r.end, c + r.caps))
  }

  lemma KeepShift(n: Node, c: seq<string>, s: string)
    ensures Keep(n, c, s) == c + Keep(n, [], s)
  {
  }

  lemma AfterAssoc(c: seq<string>, d: seq<string>, x: Option<Res>)
    ensures After(c + d, x) == After(c, After(d, x))
  {
    if x.Some? {
      assert c + d + x.value.caps == c + (d + x.value.caps);
    }
  }

  /** Earlier captures never influence a match: they are only carried along. */
  lemma {:induction false} MatchCaps(re: Pattern, t: string, i: nat, c: seq<string>)
    requires i <= |t|
    ensures Match(re, t, i, c) == After(c, Match(re, t, i, []))
    decreases |re|, 1, 0
  {
    if re == [] {
      assert c + [] == c;
    } else {
      match re[0]
      case Lit(s) =>
        if StartsAt(t, i, s) {
          MatchCaps(re[1..], t, i + |s|, c);
        }
      case Star(k) => GreedyCaps(re, t, i, RunEnd(k, t, i), c);
      case Plus(k, lazy, _) =>
        if lazy { LazyCaps(re, t, i, i + 1, c); } else { GreedyCaps(re, t, i, RunEnd(k, t, i), c); }
      case Alt(_, _) => AltsCaps(re, t, i, 0, c);
    }
  }

  lemma {:induction false} GreedyCaps(re: Pattern, t: string, i: nat, j: nat, c: seq<string>)
    requires re != [] && IsGreedy(re[0]) && i <= j <= |t|
    ensures Greedy(re, t, i, j, c) == After(c, Greedy(re, t, i, j, []))
    decreases |re|, 0, j
  {
    if j >= i + MinRun(re[0]) {
      var s := t[i..j];
      MatchCaps(re[1..], t, j, Keep(re[0], c, s));
      MatchCaps(re[1..], t, j, Keep(re[0], [], s));
      KeepShift(re[0], c, s);
      AfterAssoc(c, Keep(re[0], [], s), Match(re[1..], t, j, []));
      if j > i + MinRun(re[0]) {
        GreedyCaps(re, t, i, j - 1, c);
      }
    }
  }

  lemma {:induction false} LazyCaps(re: Pattern, t: string, i: nat, j: nat, c: seq<string>)
    requires re != [] && re[0].Plus? && re[0].lazy && i < j <= |t| + 1
    ensures Lazy(re, t, i, j, c) == After(c, Lazy(re, t, i, j, []))
    decreases |re|, 0, |t| + 1 - j
  {
    if j <= RunEnd(re[0].k, t, i) {
      var s := t[i..j];
      MatchCaps(re[1..], t, j, Keep(re[0], c, s));
      MatchCaps(re[1..], t, j, Keep(re[0], [], s));
      KeepShift(re[0], c, s);
      AfterAssoc(c, Keep(re[0], [], s), Match(re[1..], t, j, []));
      LazyCaps(re, t, i, j + 1, c);
    }
  }

  lemma {:induction false} AltsCaps(re: Pattern, t: string, i: nat, n: nat, c: seq<string>)
    requires re != [] && re[0].Alt? && n <= |re[0].alts|
    ensures Alts(re, t, i, n, c) == After(c, Alts(re, t, i, n, []))
    decreases |re|, 0, |re[0].alts| - n
  {
    if n < |re[0].alts| {
      var a := re[0].alts[n];
      if StartsAt(t, i, a) {
        MatchCaps(re[1..], t, i + |a|, Keep(re[0], c, a));
        MatchCaps(re[1..], t, i + |a|, Keep(re[0], [], a));
        KeepShift(re[0], c, a);
        AfterAssoc(c, Keep(re[0], [], a), Match(re[1..], t, i + |a|, []));
      }
      AltsCaps(re, t, i, n + 1, c);
    }
  }

  lemma MatchAccepts(re: Pattern, t: string, i: nat, c: seq<string>)
    requires i <= |t|
    ensures Match(re, t, i, c).Some? == Accepts(re, t, i)
  {
    MatchCaps(re, t, i, c);
  }

  /** Which run lengths a repetition node leaves to the rest of the pattern. */
  predicate IsRep(n: Node)
  {
    n.Star? || n.Plus?
  }

  lemma {:induction false} GreedyAccepts(re: Pattern, t: string, i: nat, j: nat, c: seq<string>)
    requires re != [] && IsGreedy(re[0]) && i <= j <= |t|
    ensures Greedy(re, t, i, j, c).Some? <==>
      exists m :: i + MinRun(re[0]) <= m <= j && Accepts(re[1..], t, m)
    decreases j
  {
    if j >= i + MinRun(re[0]) {
      MatchAccepts(re[1..], t, j, Keep(re[0], c, t[i..j]));
      if j > i + MinRun(re[0]) {
        GreedyAccepts(re, t, i, j - 1, c);
      }
    }
  }

  lemma {:induction false} LazyAccepts(re: Pattern, t: string, i: nat, j: nat, c: seq<string>)
    requires re != [] && re[0].Plus? && re[0].lazy && i < j <= |t| + 1
    ensures Lazy(re, t, i, j, c).Some? <==>
      exists m :: j <= m <= RunEnd(re[0].k, t, i) && Accepts(re[1..], t, m)
    decreases |t| + 1 - j
  {
    if j <= RunEnd(re[0].k, t, i) {
      MatchAccepts(re[1..], t, j, Keep(re[0], c, t[i..j]));
      LazyAccepts(re, t, i, j + 1, c);
    }
  }

  lemma {:induction false} AltsAccepts(re: Pattern, t: string, i: nat, n: nat, c: seq<string>)
    requires re != [] && re[0].Alt? && n <= |re[0].alts|
    ensures Alts(re, t, i, n, c).Some? <==>
      exists a :: n <= a < |re[0].alts| && StartsAt(t, i, re[0].alts[a])
        && Accepts(re[1..], t, i + |re[0].alts[a]|)
    decreases |re[0].alts| - n
  {
    if n < |re[0].alts| {
      var a := re[0].alts[n];
      if StartsAt(t, i, a) {
        MatchAccepts(re[1..], t, i + |a|, Keep(re[0], c, a));
      }
      AltsAccepts(re, t, i, n + 1, c);
    }
  }

  /** A repetition node succeeds iff the rest of the pattern accepts after some admissible run. */
  lemma AcceptsRep(re: Pattern, t: string, i: nat)
    requires re != [] && IsRep(re[0]) && i <= |t|
    ensures Accepts(re, t, i) <==>
      exists m :: i + MinRun(re[0]) <= m <= RunEnd(re[0].k, t, i) && Accepts(re[1..], t, m)
  {
    if re[0].Plus? && re[0].lazy {
      LazyAccepts(re, t, i, i + 1, []);
    } else {
      GreedyAccepts(re, t, i, RunEnd(re[0].k, t, i), []);
    }
  }

  /** A literal succeeds iff it is present and the rest accepts after it. */
  lemma AcceptsLit(re: Pattern, t: string, i: nat)
    requires re != [] && re[0].Lit? && i <= |t|
    ensures Accepts(re, t, i) <==>
      StartsAt(t, i, re[0].s) && Accepts(re[1..], t, i + |re[0].s|)
  {
    if StartsAt(t, i, re[0].s) {
      MatchAccepts(re[1..], t, i + |re[0].s|, []);
    }
  }

  /** An alternation succeeds iff some alternative is present and the rest accepts after it. */
  lemma AcceptsAlt(re: Pattern, t: string, i: nat)
    requires re != [] && re[0].Alt? && i <= |t|
    ensures Accepts(re, t, i) <==>
      exists a :: 0 <= a < |re[0].alts| && StartsAt(t, i, re[0].alts[a])
        && Accepts(re[1..], t, i + |re[0].alts[a]|)
  {
    AltsAccepts(re, t, i, 0, []);
  }

  lemma {:induction false} GreedyFirst(re: Pattern, t: string, i: nat, j: nat, m: nat, c: seq<string>)
    requires re != [] && IsGreedy(re[0]) && i + MinRun(re[0]) <= m <= j <= |t|
    requires Accepts(re[1..], t, m)
    requires forall m' :: m < m' <= j ==> !Accepts(re[1..], t, m')
    ensures Greedy(re, t, i, j, c) == Match(re[1..], t, m, Keep(re[0], c, t[i..m]))
    decreases j
  {
    MatchAccepts(re[1..], t, j, Keep(re[0], c, t[i..j]));
    if j > m {
      GreedyFirst(re, t, i, j - 1, m, c);
    }
  }

  lemma {:induction false} LazyFirst(re: Pattern, t: string, i: nat, j: nat, m: nat, c: seq<string>)
    requires re != [] && re[0].Plus? && re[0].lazy && m <= |t| && i < j <= m <= RunEnd(re[0].k, t, i)
    requires Accepts(re[1..], t, m)
    requires forall m' :: j <= m' < m ==> !Accepts(re[1..], t, m')
    ensures Lazy(re, t, i, j, c) == Match(re[1..], t, m, Keep(re[0], c, t[i..m]))
    decreases m - j
  {
    MatchAccepts(re[1..], t, j, Keep(re[0], c, t[i..j]));
    if j < m {
      LazyFirst(re, t, i, j + 1, m, c);
    }
  }

  lemma {:induction false} AltsFirst(re: Pattern, t: string, i: nat, n: nat, a: nat, c: seq<string>)
    requires re != [] && re[0].Alt? && n <= a < |re[0].alts|
    requires StartsAt(t, i, re[0].alts[a]) && Accepts(re[1..], t, i + |re[0].alts[a]|)
    requires forall b :: n <= b < a && StartsAt(t, i, re[0].alts[b]) ==>
      !Accepts(re[1..], t, i + |re[0].alts[b]|)
    ensures Alts(re, t, i, n, c) == Match(re[1..], t, i + |re[0].alts[a]|, Keep(re[0], c, re[0].alts[a]))
    decreases a - n
  {
    var x := re[0].alts[n];
    if StartsAt(t, i, x) {
      MatchAccepts(re[1..], t, i + |x|, Keep(re[0], c, x));
    }
    if n < a {
      AltsFirst(re, t, i, n + 1, a, c);
    }
  }

  /** A greedy repetition hands over at the longest admissible run after which the rest accepts. */
  lemma MatchGreedy(re: Pattern, t: string, i: nat, m: nat, c: seq<string>)
    requires re != [] && IsGreedy(re[0]) && m <= |t| && i + MinRun(re[0]) <= m <= RunEnd(re[0].k, t, i)
    requires Accepts(re[1..], t, m)
    requires forall m' :: m < m' <= RunEnd(re[0].k, t, i) ==> !Accepts(re[1..], t, m')
    ensures Match(re, t, i, c) == Match(re[1..], t, m, Keep(re[0], c, t[i..m]))
  {
    GreedyFirst(re, t, i, RunEnd(re[0].k, t, i), m, c);
  }

  /** A lazy repetition hands over at the shortest admissible run after which the rest accepts. */
  lemma MatchLazy(re: Pattern, t: string, i: nat, m: nat, c: seq<string>)
    requires re != [] && re[0].Plus? && re[0].lazy && m <= |t| && i < m <= RunEnd(re[0].k, t, i)
    requires Accepts(re[1..], t, m)
    requires forall m' :: i < m' < m ==> !Accepts(re[1..], t, m')
    ensures Match(re, t, i, c) == Match(re[1..], t, m, Keep(re[0], c, t[i..m]))
  {
    LazyFirst(re, t, i, i + 1, m, c);
  }

  /** An alternation hands over after the first alternative with which the rest accepts. */
  lemma MatchAlt(re: Pattern, t: string, i: nat, a: nat, c: seq<string>)
    requires re != [] && re[0].Alt? && a < |re[0].alts|
    requires StartsAt(t, i, re[0].alts[a]) && Accepts(re[1..], t, i + |re[0].alts[a]|)
    requires forall b :: 0 <= b < a && StartsAt(t, i, re[0].alts[b]) ==>
      !Accepts(re[1..], t, i + |re[0].alts[b]|)
    ensures Match(re, t, i, c) == Match(re[1..], t, i + |re[0].alts[a]|, Keep(re[0], c, re[0].alts[a]))
  {
    AltsFirst(re, t, i, 0, a, c);
  }

  /** The unanchored search reports the first start position at which the pattern matches. */
  lemma {:induction false} SearchFirst(re: Pattern, t: string, s: nat, s0: nat)
    requires s <= s0 <= |t| && Accepts(re, t, s0)
    requires forall s' :: s <= s' < s0 ==> !Accepts(re, t, s')
    ensures Search(re, t, s) == Match(re, t, s0, [])
    decreases s0 - s
  {
    if s < s0 {
      assert !Accepts(re, t, s);
      SearchFirst(re, t, s + 1, s0);
    }
  }

  lemma {:induction false} SearchNone(re: Pattern, t: string, s: nat)
    requires s <= |t|
    ensures Search(re, t, s) == None <==> forall s' :: s <= s' <= |t| ==> !Accepts(re, t, s')
    decreases |t| - s
  {
    if !Accepts(re, t, s) && s < |t| {
      SearchNone(re, t, s + 1);
    }
  }

  /** A pattern that matches has every prefix pattern matching at the same place. */
  lemma {:induction false} AcceptsPrefix(a: Pattern, b: Pattern, t: string, i: nat)
    requires i <= |t| && Accepts(a + b, t, i)
    ensures Accepts(a, t, i)
    decreases |a|
  {
    if a != [] {
      var re := a + b;
      assert re[0] == a[0] && re[1..] == a[1..] + b;
      match a[0]
      case Lit(s) =>
        AcceptsPrefix(a[1..], b, t, i + |s|);
      case Alt(alts, _) =>
        AcceptsAlt(re, t, i);
        AcceptsAlt(a, t, i);
        var k :| 0 <= k < |alts| && StartsAt(t, i, alts[k]) && Accepts(re[1..], t, i + |alts[k]|);
        AcceptsPrefix(a[1..], b, t, i + |alts[k]|);
      case _ =>
        AcceptsRep(re, t, i);
        AcceptsRep(a, t, i);
        var m :| i + MinRun(a[0]) <= m <= RunEnd(a[0].k, t, i) && Accepts(re[1..], t, m);
        AcceptsPrefix(a[1..], b, t, m);
    }
  }

  /** `t.split(re)` (ECMAScript's `@@split` with a sticky copy of `re`): the
    * pieces between matches, each followed by that match's captures. */
  function Split(re: Pattern, t: string): seq<string>
  {
    if |t| == 0 then (if Accepts(re, t, 0) then [] else [t])
    else SplitFrom(re, t, 0, 0)
  }

  /** The scan of `Split`: the current piece starts at `p`, a match is tried at `q`. */
  function SplitFrom(re: Pattern, t: string, p: nat, q: nat): seq<string>
    requires p <= q <= |t|
    decreases |t| - q, if p < q then 1 else 0
  {
    if q == |t| then [t[p..]]
    else
      match Match(re, t, q, [])
      case None => SplitFrom(re, t, p, q + 1)
      case Some(r) =>
        if r.end == p then SplitFrom(re, t, p, q + 1)
        else [t[p..q]] + r.caps + SplitFrom(re, t, r.end, r.end)
  }

  /** Positions where the pattern does not match are skipped by the scan. */
  lemma {:induction false} SplitSkip(re: Pattern, t: string, p: nat, q: nat, q2: nat)
    requires p <= q <= q2 <= |t|
    requires forall x :: q <= x < q2 ==> !Accepts(re, t, x)
    ensures SplitFrom(re, t, p, q) == SplitFrom(re, t, p, q2)
    decreases q2 - q
  {
    if q < q2 {
      assert !Accepts(re, t, q);
      SplitSkip(re, t, p, q + 1, q2);
    }
  }

  /** Number of capturing groups of a pattern. */
  function CapCount(re: Pattern): nat
  {
    if re == [] then 0
    else (if (re[0].Plus? || re[0].Alt?) && re[0].cap then 1 else 0) + CapCount(re[1..])
  }

  /** A successful match adds one capture per capturing group. */
  lemma {:induction false} MatchCapCount(re: Pattern, t: string, i: nat, c: seq<string>)
    requires i <= |t| && Match(re, t, i, c).Some?
    ensures |Match(re, t, i, c).value.caps| == |c| + CapCount(re)
    decreases |re|, 1, 0
  {
    if re != [] {
      match re[0]
      case Lit(s) => MatchCapCount(re[1..], t, i + |s|, c);
      case Star(k) => GreedyCapCount(re, t, i, RunEnd(k, t, i), c);
      case Plus(k, lazy, _) =>
        if lazy { LazyCapCount(re, t, i, i + 1, c); } else { GreedyCapCount(re, t, i, RunEnd(k, t, i), c); }
      case Alt(_, _) => AltsCapCount(re, t, i, 0, c);
    }
  }

  lemma {:induction false} GreedyCapCount(re: Pattern, t: string, i: nat, j: nat, c: seq<string>)
    requires re != [] && IsGreedy(re[0]) && i <= j <= |t| && Greedy(re, t, i, j, c).Some?
    ensures |Greedy(re, t, i, j, c).value.caps| == |c| + CapCount(re)
    decreases |re|, 0, j
  {
    var k := Keep(re[0], c, t[i..j]);
    if Match(re[1..], t, j, k).Some? {
      MatchCapCount(re[1..], t, j, k);
    } else {
      GreedyCapCount(re, t, i, j - 1, c);
    }
  }

  lemma {:induction false} LazyCapCount(re: Pattern, t: string, i: nat, j: nat, c: seq<string>)
    requires re != [] && re[0].Plus? && re[0].lazy && i < j <= |t| + 1 && Lazy(re, t, i, j, c).Some?
    ensures |Lazy(re, t, i, j, c).value.caps| == |c| + CapCount(re)
    decreases |re|, 0, |t| + 1 - j
  {
    var k := Keep(re[0], c, t[i..j]);
    if Match(re[1..], t, j, k).Some? {
      MatchCapCount(re[1..], t, j, k);
    } else {
      LazyCapCount(re, t, i, j + 1, c);
    }
  }

  lemma {:induction false} AltsCapCount(re: Pattern, t: string, i: nat, n: nat, c: seq<string>)
    requires re != [] && re[0].Alt? && n <= |re[0].alts| && Alts(re, t, i, n, c).Some?
    ensures |Alts(re, t, i, n, c).value.caps| == |c| + CapCount(re)
    decreases |re|, 0, |re[0].alts| - n
  {
    var a := re[0].alts[n];
    if StartsAt(t, i, a) && Match(re[1..], t, i + |a|, Keep(re[0], c, a)).Some? {
      MatchCapCount(re[1..], t, i + |a|, Keep(re[0], c, a));
    } else {
      AltsCapCount(re, t, i, n + 1, c);
    }
  }

  /** Every result of the search carries one capture per group. */
  lemma {:induction false} SearchCapCount(re: Pattern, t: string, s: nat)
    requires s <= |t| && Search(re, t, s).Some?
    ensures |Search(re, t, s).value.caps| == CapCount(re)
    decreases |t| - s
  {
    if Match(re, t, s, []).Some? {
      MatchCapCount(re, t, s, []);
    } else {
      SearchCapCount(re, t, s + 1);
    }
  }

  /** The capturing nodes of a pattern, in order. */
  function CapNodes(re: Pattern): (r: seq<Node>)
    ensures |r| == CapCount(re)
  {
    if re == [] then []
    else (if (re[0].Plus? || re[0].Alt?) && re[0].cap then [re[0]] else []) + CapNodes(re[1..])
  }

  /** What a capturing node can capture: a non-empty run of its class, or one of its alternatives. */
  predicate Fits(n: Node, s: string)
  {
    (n.Plus? ==> s != [] && forall x :: 0 <= x < |s| ==> InClass(n.k, s[x])) &&
    (n.Alt? ==> s in n.alts)
  }

  predicate AllFit(ns: seq<Node>, caps: seq<string>)
  {
    |ns| == |caps| && forall j :: 0 <= j < |ns| ==> Fits(ns[j], caps[j])
  }

  lemma FitsCons(n: Node, s: string, ns: seq<Node>, caps: seq<string>)
    requires Fits(n, s) && AllFit(ns, caps)
    ensures AllFit([n] + ns, [s] + caps)
  {
    var a, b := [n] + ns, [s] + caps;
    forall j | 0 <= j < |a| ensures Fits(a[j], b[j]) {
      if j > 0 {
        assert a[j] == ns[j - 1] && b[j] == caps[j - 1];
      }
    }
  }

  /** After node `re[0]` took `s`, the rest's captures fit the rest's groups: all captures fit. */
  lemma StepFits(re: Pattern, t: string, j: nat, s: string)
    requires re != [] && j <= |t| && Fits(re[0], s)
    requires Match(re[1..], t, j, Keep(re[0], [], s)).Some?
    requires Accepts(re[1..], t, j) ==> AllFit(CapNodes(re[1..]), Match(re[1..], t, j, []).value.caps)
    ensures AllFit(CapNodes(re), Match(re[1..], t, j, Keep(re[0], [], s)).value.caps)
  {
    MatchCaps(re[1..], t, j, Keep(re[0], [], s));
    var rest := Match(re[1..], t, j, []).value.caps;
    if (re[0].Plus? || re[0].Alt?) && re[0].cap {
      FitsCons(re[0], s, CapNodes(re[1..]), rest);
      assert Keep(re[0], [], s) == [s];
    } else {
      assert Keep(re[0], [], s) == [];
      assert [] + rest == rest;
    }
  }

  /** A successful match captures, for every group, text that group can capture. */
  lemma {:induction false} MatchFits(re: Pattern, t: string, i: nat)
    requires i <= |t| && Accepts(re, t, i)
    ensures AllFit(CapNodes(re), Match(re, t, i, []).value.caps)
    decreases |re|, 1, 0
  {
    if re != [] {
      match re[0]
      case Lit(s) =>
        MatchFits(re[1..], t, i + |s|);
      case Star(k) => GreedyFits(re, t, i, RunEnd(k, t, i));
      case Plus(k, lazy, _) =>
        if lazy { LazyFits(re, t, i, i + 1); } else { GreedyFits(re, t, i, RunEnd(k, t, i)); }
      case Alt(_, _) => AltsFits(re, t, i, 0);
    }
  }

  lemma {:induction false} GreedyFits(re: Pattern, t: string, i: nat, j: nat)
    requires re != [] && IsGreedy(re[0]) && i <= |t| && i <= j <= RunEnd(re[0].k, t, i) && Greedy(re, t, i, j, []).Some?
    ensures AllFit(CapNodes(re), Greedy(re, t, i, j, []).value.caps)
    decreases |re|, 0, j
  {
    var s := t[i..j];
    if Match(re[1..], t, j, Keep(re[0], [], s)).Some? {
      MatchAccepts(re[1..], t, j, Keep(re[0], [], s));
      MatchFits(re[1..], t, j);
      StepFits(re, t, j, s);
    } else {
      GreedyFits(re, t, i, j - 1);
    }
  }

  lemma {:induction false} LazyFits(re: Pattern, t: string, i: nat, j: nat)
    requires re != [] && re[0].Plus? && re[0].lazy && i < j <= |t| + 1 && Lazy(re, t, i, j, []).Some?
    ensures AllFit(CapNodes(re), Lazy(re, t, i, j, []).value.caps)
    decreases |re|, 0, |t| + 1 - j
  {
    var s := t[i..j];
    if Match(re[1..], t, j, Keep(re[0], [], s)).Some? {
      MatchAccepts(re[1..], t, j, Keep(re[0], [], s));
      MatchFits(re[1..], t, j);
      StepFits(re, t, j, s);
    } else {
      LazyFits(re, t, i, j + 1);
    }
  }

  lemma {:induction false} AltsFits(re: Pattern, t: string, i: nat, n: nat)
    requires re != [] && re[0].Alt? && n <= |re[0].alts| && Alts(re, t, i, n, []).Some?
    ensures AllFit(CapNodes(re), Alts(re, t, i, n, []).value.caps)
    decreases |re|, 0, |re[0].alts| - n
  {
    var a := re[0].alts[n];
    if StartsAt(t, i, a) && Match(re[1..], t, i + |a|, Keep(re[0], [], a)).Some? {
      MatchAccepts(re[1..], t, i + |a|, Keep(re[0], [], a));
      MatchFits(re[1..], t, i + |a|);
      StepFits(re, t, i + |a|, a);
    } else {
      AltsFits(re, t, i, n + 1);
    }
  }

  /** The groups of the search result fit their nodes. */
  lemma {:induction false} SearchFits(re: Pattern, t: string, s: nat)
    requires s <= |t| && Search(re, t, s).Some?
    ensures AllFit(CapNodes(re), Search(re, t, s).value.caps)
    decreases |t| - s
  {
    if Match(re, t, s, []).Some? {
      MatchFits(re, t, s);
    } else {
      SearchFits(re, t, s + 1);
    }
  }
}
