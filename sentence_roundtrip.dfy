/** The sentence form's round trip: the text the generator writes for two or more sentences is split
  * by `/\s+(AND|OR)\s+/` exactly at the connectors it wrote, and every part reads back as its
  * sentence. */
module SentenceRoundTrip {
  import opened Wrappers
  import opened Text
  import opened Regex
  import opened ClauseSyntax
  import opened SentenceView
  import ConditionEditor

  // ---------------------------------------------------------------------------
  // Where the split pattern matches

  /** No connector word followed by white space starts at `i`. */
  predicate Blocked(t: string, i: nat)
  {
    !(StartsAt(t, i, "AND") && i + 3 < |t| && IsSpace(t[i + 3])) &&
    !(StartsAt(t, i, "OR") && i + 2 < |t| && IsSpace(t[i + 2]))
  }

  /** The split pattern needs white space to start. */
  lemma NoMatchAtNonSpace(t: string, q: nat)
    requires q <= |t| && (q == |t| || !IsSpace(t[q]))
    ensures !Accepts(SplitRe, t, q)
  {
    assert RunEnd(Space, t, q) == q;
  }

  /** The last node, `\s+`, fails where no white space starts. */
  lemma TrailNone(t: string, j: nat, c: seq<string>)
    requires j <= |t| && (j == |t| || !IsSpace(t[j]))
    ensures Match(SplitRe[2..], t, j, c) == None
  {
    assert SplitRe[2..] == [Plus(Space, false, false)];
    assert RunEnd(Space, t, j) == j;
  }

  /** A single blank before text is taken whole by the last node. */
  lemma TrailOne(t: string, j: nat, c: seq<string>)
    requires j + 1 < |t| && IsSpace(t[j]) && !IsSpace(t[j + 1])
    ensures Match(SplitRe[2..], t, j, c) == Some(Res(j + 1, c))
  {
    var tail := SplitRe[2..];
    assert tail == [Plus(Space, false, false)] && tail[1..] == [];
    assert RunEnd(Space, t, j + 1) == j + 1;
    assert RunEnd(Space, t, j) == j + 1;
    assert Keep(tail[0], c, t[j..j + 1]) == c;
    assert Match(tail[1..], t, j + 1, c) == Some(Res(j + 1, c));
  }

  /** The connector alternation and the blanks after it fail where the text is blocked. */
  lemma ConnectorNone(t: string, i: nat)
    requires i < |t| && Blocked(t, i)
    ensures Match(SplitRe[1..], t, i, []) == None
  {
    var alt := SplitRe[1..];
    assert alt == [Alt(["AND", "OR"], true), Plus(Space, false, false)];
    assert alt[1..] == SplitRe[2..];
    assert alt[0].alts[0] == "AND" && alt[0].alts[1] == "OR" && |alt[0].alts| == 2;
    if StartsAt(t, i, "AND") {
      TrailNone(t, i + 3, Keep(alt[0], [], "AND"));
    }
    if StartsAt(t, i, "OR") {
      TrailNone(t, i + 2, Keep(alt[0], [], "OR"));
    }
    assert Alts(alt, t, i, 2, []) == None;
    assert Alts(alt, t, i, 1, []) == None;
  }

  /** One blank before text that is not a connector word followed by white space is no match. */
  lemma NoMatchBefore(t: string, q: nat)
    requires q + 1 < |t| && IsSpace(t[q]) && !IsSpace(t[q + 1]) && Blocked(t, q + 1)
    ensures !Accepts(SplitRe, t, q)
  {
    assert RunEnd(Space, t, q + 1) == q + 1;
    assert RunEnd(Space, t, q) == q + 1;
    assert Keep(SplitRe[0], [], t[q..q + 1]) == [];
    ConnectorNone(t, q + 1);
  }

  /** A connector between single blanks, followed by text, is matched with the connector captured. */
  lemma MatchAtConnector(t: string, q: nat, a: string)
    requires a == "AND" || a == "OR"
    requires q + 2 + |a| < |t| && IsSpace(t[q]) && StartsAt(t, q + 1, a) && IsSpace(t[q + 1 + |a|])
    requires !IsSpace(t[q + 2 + |a|])
    ensures Match(SplitRe, t, q, []) == Some(Res(q + 2 + |a|, [a]))
  {
    var alt := SplitRe[1..];
    var e := q + 2 + |a|;
    assert alt == [Alt(["AND", "OR"], true), Plus(Space, false, false)];
    assert alt[1..] == SplitRe[2..];
    assert alt[0].alts[0] == "AND" && alt[0].alts[1] == "OR" && |alt[0].alts| == 2;
    assert t[q + 1] == t[q + 1..q + 1 + |a|][0] == a[0];
    assert RunEnd(Space, t, q + 1) == q + 1;
    assert RunEnd(Space, t, q) == q + 1;
    assert Keep(SplitRe[0], [], t[q..q + 1]) == [];
    assert Keep(alt[0], [], a) == [a];
    TrailOne(t, e - 1, [a]);
    if a == "OR" {
      assert t[q + 2] == t[q + 1..q + 3][1] == 'R';
      assert !StartsAt(t, q + 1, "AND");
      assert Alts(alt, t, q + 1, 1, []) == Some(Res(e, [a]));
    }
    assert Alts(alt, t, q + 1, 0, []) == Some(Res(e, [a]));
    assert Match(alt, t, q + 1, []) == Some(Res(e, [a]));
  }

  /** A word without white space that is not a connector, followed by white space, blocks a match. */
  lemma WordBlocked(t: string, i: nat, w: string)
    requires i + |w| < |t| && t[i..i + |w|] == w && IsSpace(t[i + |w|])
    requires w != [] && NoSpace(w) && w != "AND" && w != "OR"
    ensures Blocked(t, i)
  {
    forall j | 0 <= j < |w| ensures t[i + j] == w[j] {
      assert t[i..i + |w|][j] == t[i + j];
    }
    if |w| > 3 {
      assert !IsSpace(t[i + 3]);
    } else if |w| == 3 {
      assert t[i..i + 3] != "AND";
    } else if i + 3 <= |t| {
      assert t[i..i + 3][|w|] == t[i + |w|];
    }
    if |w| > 2 {
      assert !IsSpace(t[i + 2]);
    } else if |w| == 2 {
      assert t[i..i + 2] != "OR";
    } else if i + 2 <= |t| {
      assert t[i..i + 2][|w|] == t[i + |w|];
    }
  }

  /** Text starting with neither `A` nor `O` blocks a match. */
  lemma LetterBlocked(t: string, i: nat)
    requires i < |t| && t[i] != 'A' && t[i] != 'O'
    ensures Blocked(t, i)
  {
    if i + 3 <= |t| {
      assert t[i] == t[i..i + 3][0];
    }
    if i + 2 <= |t| {
      assert t[i] == t[i..i + 2][0];
    }
  }

  // ---------------------------------------------------------------------------
  // The generated text and where it splits

  /** A sentence the round trip is exact for: a field and a value without white space, quotes,
    * parentheses or operator characters that are not themselves a connector word, and one of the
    * four operators the clause pattern reads unchanged. */
  predicate Plain(s: Sentence)
  {
    PlainField(s.field) && NoneOfChars(s.field, "()") && s.field != "AND" && s.field != "OR" &&
    PrimaryOperator(s.operator) &&
    s.value != [] && NoSpace(s.value) && NoneOfChars(s.value, "'\"") && NoneOfChars(s.value, "()") &&
    s.value != "AND" && s.value != "OR"
  }

  predicate AllPlain(v: seq<Sentence>)
  {
    forall j :: 0 <= j < |v| ==> Plain(v[j])
  }

  /** A value without white space or quotes is written bare. */
  lemma BareValue(v: string)
    requires NoSpace(v) && NoneOfChars(v, "'\"")
    ensures Quote(v) == v
  {
    if NeedsQuotes(v) {
      var i :| 0 <= i < |v| && (IsSpace(v[i]) || v[i] == '\'');
      assert false;
    }
  }

  /** The generated text from clause `k` on: `ck Kk+1 ... cn )`. */
  function Tail(v: seq<Sentence>, k: nat): string
    requires k < |v|
    decreases |v| - k
  {
    if k + 1 == |v| then SentenceClause(v[k]) + " )"
    else SentenceClause(v[k]) + " " + JoinText(v[k + 1]) + " " + Tail(v, k + 1)
  }

  /** The pieces the split yields from clause `k` on, the first one after `lead`: clauses and the
    * connectors between them, the last clause with the closing ` )`. */
  function Parts(v: seq<Sentence>, k: nat, lead: string): (r: seq<string>)
    requires k < |v|
    ensures r != []
    decreases |v| - k
  {
    if k + 1 == |v| then [lead + SentenceClause(v[k]) + " )"]
    else [lead + SentenceClause(v[k]), JoinText(v[k + 1])] + Parts(v, k + 1, [])
  }

  /** The split pattern matches nowhere in `[a, b)`. */
  predicate Gap(re: Pattern, t: string, a: nat, b: nat)
  {
    forall x :: a <= x < b && x <= |t| ==> !Accepts(re, t, x)
  }

  /** No match starts inside a word without white space. */
  lemma WordGap(t: string, a: nat, w: string)
    requires a + |w| <= |t| && t[a..a + |w|] == w && NoSpace(w)
    ensures Gap(SplitRe, t, a, a + |w|)
  {
    forall x | a <= x < a + |w| ensures !Accepts(SplitRe, t, x) {
      assert t[x] == t[a..a + |w|][x - a];
      NoMatchAtNonSpace(t, x);
    }
  }

  lemma GapJoin(re: Pattern, t: string, a: nat, b: nat, c: nat)
    requires a <= b <= c && Gap(re, t, a, b) && Gap(re, t, b, c)
    ensures Gap(re, t, a, c)
  {
  }

  /** The blank before blocked text is a gap of one position. */
  lemma BlankGap(t: string, a: nat)
    requires a + 1 < |t| && IsSpace(t[a]) && !IsSpace(t[a + 1]) && Blocked(t, a + 1)
    ensures Gap(SplitRe, t, a, a + 1)
  {
    NoMatchBefore(t, a);
  }

  /** No match starts inside `f op ` laid out at `q` and followed by text that is not a connector. */
  lemma HeadGap(t: string, q: nat, f: string, op: string)
    requires PlainField(f) && PrimaryOperator(op) && q + |f| + |op| + 2 < |t|
    requires t[q..q + |f|] == f && t[q + |f|] == ' '
    requires t[q + |f| + 1..q + |f| + 1 + |op|] == op && t[q + |f| + 1 + |op|] == ' '
    requires !IsSpace(t[q + |f| + |op| + 2]) && Blocked(t, q + |f| + |op| + 2)
    ensures Gap(SplitRe, t, q, q + |f| + |op| + 2)
  {
    var a1 := q + |f|;
    var a2 := a1 + 1 + |op|;
    ConditionEditor.OperatorNoSpace(op);
    WordGap(t, q, f);
    assert t[a1 + 1] == t[a1 + 1..a2][0];
    LetterBlocked(t, a1 + 1);
    BlankGap(t, a1);
    GapJoin(SplitRe, t, q, a1, a1 + 1);
    WordGap(t, a1 + 1, op);
    GapJoin(SplitRe, t, q, a1 + 1, a2);
    BlankGap(t, a2);
    GapJoin(SplitRe, t, q, a2, a2 + 1);
  }

  /** No match starts inside `f op val` laid out at `q` and followed by white space. */
  lemma PiecesGap(t: string, q: nat, f: string, op: string, val: string)
    requires PlainField(f) && PrimaryOperator(op) && val != [] && NoSpace(val) && val != "AND" && val != "OR"
    requires q + |f| + |op| + |val| + 2 < |t|
    requires t[q..q + |f|] == f && t[q + |f|] == ' '
    requires t[q + |f| + 1..q + |f| + 1 + |op|] == op && t[q + |f| + 1 + |op|] == ' '
    requires t[q + |f| + |op| + 2..q + |f| + |op| + 2 + |val|] == val && IsSpace(t[q + |f| + |op| + 2 + |val|])
    ensures Gap(SplitRe, t, q, q + |f| + |op| + |val| + 2)
  {
    var a := q + |f| + |op| + 2;
    WordBlocked(t, a, val);
    assert t[a] == t[a..a + |val|][0];
    HeadGap(t, q, f, op);
    WordGap(t, a, val);
    GapJoin(SplitRe, t, q, a, a + |val|);
  }

  /** A slice that spells `x + y` is `x` followed by `y`. */
  lemma SplitSlice(t: string, q: nat, x: string, y: string)
    requires q + |x| + |y| <= |t| && t[q..q + |x| + |y|] == x + y
    ensures t[q..q + |x|] == x && t[q + |x|..q + |x| + |y|] == y
  {
    var w := t[q..q + |x| + |y|];
    assert t[q..q + |x|] == w[..|x|];
    assert t[q + |x|..q + |x| + |y|] == w[|x|..];
  }

  /** The pieces of a clause laid out in the text. */
  lemma ClauseSlices(t: string, q: nat, f: string, op: string, val: string)
    requires q + |f + " " + op + " " + val| <= |t| && t[q..q + |f + " " + op + " " + val|] == f + " " + op + " " + val
    ensures t[q..q + |f|] == f && t[q + |f|] == ' '
    ensures t[q + |f| + 1..q + |f| + 1 + |op|] == op && t[q + |f| + 1 + |op|] == ' '
    ensures t[q + |f| + |op| + 2..q + |f| + |op| + 2 + |val|] == val
  {
    var a1 := q + |f|;
    var a2 := a1 + 1 + |op|;
    SplitSlice(t, q, f + " " + op + " ", val);
    SplitSlice(t, q, f + " " + op, " ");
    SplitSlice(t, q, f + " ", op);
    SplitSlice(t, q, f, " ");
    assert t[a1] == t[a1..a1 + 1][0];
    assert t[a2] == t[a2..a2 + 1][0];
  }

  /** No match starts inside a clause followed by white space. */
  lemma ClauseGap(t: string, q: nat, s: Sentence)
    requires Plain(s) && q + |SentenceClause(s)| < |t| && t[q..q + |SentenceClause(s)|] == SentenceClause(s)
    requires IsSpace(t[q + |SentenceClause(s)|])
    ensures Gap(SplitRe, t, q, q + |SentenceClause(s)|)
  {
    BareValue(s.value);
    assert SentenceClause(s) == s.field + " " + s.operator + " " + s.value;
    ClauseSlices(t, q, s.field, s.operator, s.value);
    PiecesGap(t, q, s.field, s.operator, s.value);
  }

  /** The generated text from clause `k` on starts with that clause's field. */
  lemma TailHead(v: seq<Sentence>, k: nat)
    requires k < |v| && Plain(v[k])
    ensures Tail(v, k) != [] && Tail(v, k)[0] == v[k].field[0]
  {
    assert SentenceClause(v[k]) == v[k].field + (" " + v[k].operator + " " + Quote(v[k].value));
  }

  /** How a stretch of text `c a rest` is laid out. */
  lemma StepSlices(t: string, q: nat, c: string, a: string, rest: string)
    requires q <= |t| && t[q..] == c + " " + a + " " + rest
    ensures q + |c| + |a| + 2 <= |t|
    ensures t[q..q + |c|] == c && t[q + |c|] == ' ' && t[q + |c| + 1 + |a|] == ' '
    ensures StartsAt(t, q + |c| + 1, a) && t[q + |c| + |a| + 2..] == rest
  {
    var e := q + |c|;
    var ca := c + " " + a;
    var y := ca + " ";
    assert t[q..q + |y| + |rest|] == y + rest;
    SplitSlice(t, q, y, rest);
    SplitSlice(t, q, ca, " ");
    SplitSlice(t, q, c + " ", a);
    SplitSlice(t, q, c, " ");
    assert t[e] == t[e..e + 1][0];
    assert t[e + 1 + |a|] == t[e + 1 + |a|..e + 2 + |a|][0];
  }

  /** How the last stretch of text `c )` is laid out. */
  lemma LastSlices(t: string, q: nat, c: string)
    requires q <= |t| && t[q..] == c + " )"
    ensures |t| == q + |c| + 2 && t[q..q + |c|] == c && t[q + |c|..] == " )"
    ensures t[q + |c|] == ' ' && t[q + |c| + 1] == ')'
  {
    assert t[q..q + |c| + 2] == c + " )";
    SplitSlice(t, q, c, " )");
  }

  /** Where a pattern matches in the text from clause `k`, laid out at `q`, on: nowhere inside a
    * clause, at each connector with the connector captured and the blank after it taken, and nowhere
    * from the last clause to the end, which is ` )`. */
  predicate Layout(re: Pattern, v: seq<Sentence>, t: string, q: nat, k: nat)
    requires k < |v|
    decreases |v| - k
  {
    var c := SentenceClause(v[k]);
    var e := q + |c|;
    e <= |t| && t[q..e] == c && Gap(re, t, q, e) &&
    if k + 1 == |v| then t[e..] == " )" && Gap(re, t, e, |t|)
    else
      var a := JoinText(v[k + 1]);
      var n := e + |a| + 2;
      Piece(re, t, q, e, n, c, a) && Layout(re, v, t, n, k + 1)
  }

  /** Clause `c` at `q..e`, with no match inside it, then connector `a` matched from `e` to `n`. */
  predicate Piece(re: Pattern, t: string, q: nat, e: nat, n: nat, c: string, a: string)
  {
    e == q + |c| && n == e + |a| + 2 && e < |t| && n <= |t| && t[q..e] == c && Gap(re, t, q, e) &&
    Match(re, t, e, []) == Some(Res(n, [a]))
  }

  /** A match that ends past the start of the current piece cuts it off. */
  lemma SplitCut(re: Pattern, t: string, p: nat, e: nat, r: Res)
    requires p <= e < |t| && Match(re, t, e, []) == Some(r) && p < r.end <= |t|
    ensures SplitFrom(re, t, p, e) == [t[p..e]] + r.caps + SplitFrom(re, t, r.end, r.end)
  {
  }

  /** After a gap, a match that ends past the start of the current piece cuts it off. */
  lemma GapCut(re: Pattern, t: string, p: nat, q: nat, e: nat, r: Res)
    requires p <= q <= e < |t| && Gap(re, t, q, e) && Match(re, t, e, []) == Some(r) && p < r.end <= |t|
    ensures SplitFrom(re, t, p, q) == [t[p..e]] + r.caps + SplitFrom(re, t, r.end, r.end)
  {
    SplitSkip(re, t, p, q, e);
    SplitCut(re, t, p, e, r);
  }

  /** The scan through the last clause and the closing ` )`. */
  lemma ScanLast(re: Pattern, t: string, p: nat, q: nat, c: string)
    requires p <= q && q + |c| <= |t| && t[q..q + |c|] == c && t[q + |c|..] == " )"
    requires Gap(re, t, q, q + |c|) && Gap(re, t, q + |c|, |t|)
    ensures SplitFrom(re, t, p, q) == [t[p..q] + c + " )"]
  {
    var e := q + |c|;
    SplitSkip(re, t, p, q, e);
    SplitSkip(re, t, p, e, |t|);
    assert t[p..] == t[p..q] + t[q..e] + t[e..];
  }

  /** The scan through a clause, ending at `e`, and the connector after it, ending at `n`. */
  lemma ScanStep(re: Pattern, t: string, p: nat, q: nat, e: nat, n: nat, c: string, a: string)
    requires p <= q && Piece(re, t, q, e, n, c, a)
    ensures SplitFrom(re, t, p, q) == [t[p..q] + c, a] + SplitFrom(re, t, n, n)
  {
    GapCut(re, t, p, q, e, Res(n, [a]));
    assert t[p..e] == t[p..q] + c;
  }

  /** A scan through such a layout yields the clauses and the connectors. */
  lemma {:induction false} ScanLayout(re: Pattern, v: seq<Sentence>, t: string, p: nat, q: nat, k: nat)
    requires k < |v| && p <= q <= |t| && Layout(re, v, t, q, k)
    ensures SplitFrom(re, t, p, q) == Parts(v, k, t[p..q])
    decreases |v| - k
  {
    if k + 1 == |v| {
      ScanLastLayout(re, v, t, p, q, k);
    } else {
      var n := ScanNextLayout(re, v, t, p, q, k);
      ScanLayout(re, v, t, n, n, k + 1);
      PartsStep(v, k, t[p..q], t[n..n]);
    }
  }

  lemma PartsStep(v: seq<Sentence>, k: nat, lead: string, none: string)
    requires k + 1 < |v| && none == []
    ensures Parts(v, k, lead) == [lead + SentenceClause(v[k]), JoinText(v[k + 1])] + Parts(v, k + 1, none)
  {
  }

  lemma ScanLastLayout(re: Pattern, v: seq<Sentence>, t: string, p: nat, q: nat, k: nat)
    requires k + 1 == |v| && p <= q <= |t| && Layout(re, v, t, q, k)
    ensures SplitFrom(re, t, p, q) == Parts(v, k, t[p..q])
  {
    LayoutLast(re, v, t, q, k);
    ScanLast(re, t, p, q, SentenceClause(v[k]));
  }

  lemma ScanNextLayout(re: Pattern, v: seq<Sentence>, t: string, p: nat, q: nat, k: nat) returns (n: nat)
    requires k + 1 < |v| && p <= q <= |t| && Layout(re, v, t, q, k)
    ensures n <= |t| && Layout(re, v, t, n, k + 1)
    ensures SplitFrom(re, t, p, q) == [t[p..q] + SentenceClause(v[k]), JoinText(v[k + 1])] + SplitFrom(re, t, n, n)
  {
    var e, c, a;
    e, c, a, n := LayoutNext(re, v, t, q, k);
    ScanStep(re, t, p, q, e, n, c, a);
  }

  lemma LayoutLast(re: Pattern, v: seq<Sentence>, t: string, q: nat, k: nat)
    requires k + 1 == |v| && Layout(re, v, t, q, k)
    ensures q + |SentenceClause(v[k])| <= |t| && t[q..q + |SentenceClause(v[k])|] == SentenceClause(v[k])
    ensures t[q + |SentenceClause(v[k])|..] == " )"
    ensures Gap(re, t, q, q + |SentenceClause(v[k])|) && Gap(re, t, q + |SentenceClause(v[k])|, |t|)
  {
  }

  /** The facts of one step of a layout, named. */
  lemma LayoutNext(re: Pattern, v: seq<Sentence>, t: string, q: nat, k: nat)
      returns (e: nat, c: string, a: string, n: nat)
    requires k + 1 < |v| && Layout(re, v, t, q, k)
    ensures c == SentenceClause(v[k]) && a == JoinText(v[k + 1])
    ensures Piece(re, t, q, e, n, c, a) && n <= |t| && Layout(re, v, t, n, k + 1)
  {
    c := SentenceClause(v[k]);
    a := JoinText(v[k + 1]);
    e := q + |c|;
    n := e + |a| + 2;
  }

  /** The last clause and the closing ` )`: no match anywhere. */
  lemma LastLayout(t: string, q: nat, s: Sentence)
    requires Plain(s) && q <= |t| && t[q..] == SentenceClause(s) + " )"
    ensures var e := q + |SentenceClause(s)|;
            e <= |t| && t[q..e] == SentenceClause(s) && Gap(SplitRe, t, q, e) &&
            t[e..] == " )" && Gap(SplitRe, t, e, |t|)
  {
    var c := SentenceClause(s);
    var e := q + |c|;
    LastSlices(t, q, c);
    ClauseGap(t, q, s);
    LetterBlocked(t, e + 1);
    BlankGap(t, e);
    NoMatchAtNonSpace(t, e + 1);
    GapJoin(SplitRe, t, e, e + 1, e + 2);
  }

  /** A clause, a connector and more text: no match inside the clause, the connector matched. */
  lemma StepLayout(t: string, q: nat, s: Sentence, a: string, rest: string) returns (e: nat, n: nat)
    requires Plain(s) && (a == "AND" || a == "OR") && rest != [] && !IsSpace(rest[0])
    requires q <= |t| && t[q..] == SentenceClause(s) + " " + a + " " + rest
    ensures Piece(SplitRe, t, q, e, n, SentenceClause(s), a) && n <= |t| && t[n..] == rest
  {
    var c := SentenceClause(s);
    e := q + |c|;
    n := e + |a| + 2;
    StepSlices(t, q, c, a, rest);
    assert t[n] == t[n..][0];
    StepPiece(t, q, s, a);
  }

  /** The same, from the characters around the connector. */
  lemma StepPiece(t: string, q: nat, s: Sentence, a: string)
    requires Plain(s) && (a == "AND" || a == "OR")
    requires q + |SentenceClause(s)| + |a| + 2 < |t| && t[q..q + |SentenceClause(s)|] == SentenceClause(s)
    requires t[q + |SentenceClause(s)|] == ' ' && StartsAt(t, q + |SentenceClause(s)| + 1, a)
    requires t[q + |SentenceClause(s)| + 1 + |a|] == ' ' && !IsSpace(t[q + |SentenceClause(s)| + |a| + 2])
    ensures Piece(SplitRe, t, q, q + |SentenceClause(s)|, q + |SentenceClause(s)| + |a| + 2, SentenceClause(s), a)
  {
    var e := q + |SentenceClause(s)|;
    assert IsSpace(t[e]) && IsSpace(t[e + 1 + |a|]);
    ClauseGap(t, q, s);
    MatchAtConnector(t, e, a);
  }

  /** The layout from clause `k` on, put together from that clause's facts and the layout after it. */
  lemma LayoutStep(re: Pattern, v: seq<Sentence>, t: string, q: nat, k: nat, e: nat, n: nat)
    requires k + 1 < |v| && Piece(re, t, q, e, n, SentenceClause(v[k]), JoinText(v[k + 1]))
    requires Layout(re, v, t, n, k + 1)
    ensures Layout(re, v, t, q, k)
  {
  }

  /** The split pattern has that layout in the generated text. */
  lemma {:induction false} LayoutHolds(v: seq<Sentence>, t: string, q: nat, k: nat)
    requires k < |v| && AllPlain(v) && q <= |t| && t[q..] == Tail(v, k)
    ensures Layout(SplitRe, v, t, q, k)
    decreases |v| - k
  {
    if k + 1 == |v| {
      LastLayout(t, q, v[k]);
    } else {
      TailHead(v, k + 1);
      var e, n := StepLayout(t, q, v[k], JoinText(v[k + 1]), Tail(v, k + 1));
      LayoutHolds(v, t, n, k + 1);
      LayoutStep(SplitRe, v, t, q, k, e, n);
    }
  }

  // ---------------------------------------------------------------------------
  // The whole generated text

  /** What follows clause `n - 1` in the generated text. */
  function After(v: seq<Sentence>, n: nat): string
    requires 0 < n <= |v|
  {
    if n == |v| then " )" else " " + JoinText(v[n]) + " " + Tail(v, n)
  }

  lemma Regroup(p: string, a: string, c: string, r: string)
    ensures p + (" " + a + " " + (c + r)) == p + " " + a + " " + c + r
  {
  }

  /** The chain of the first `n` sentences adds the `n`-th clause to the chain before it. */
  lemma ChainLast(v: seq<Sentence>, n: nat)
    requires 1 < n <= |v|
    ensures Chain(v[..n]) == Chain(v[..n - 1]) + " " + JoinText(v[n - 1]) + " " + SentenceClause(v[n - 1])
  {
    var w := v[..n];
    assert w[..n - 1] == v[..n - 1] && w[n - 1] == v[n - 1];
  }

  lemma AfterStep(v: seq<Sentence>, n: nat)
    requires 1 < n <= |v|
    ensures After(v, n - 1) == " " + JoinText(v[n - 1]) + " " + (SentenceClause(v[n - 1]) + After(v, n))
  {
    var c := SentenceClause(v[n - 1]);
    if n < |v| {
      var a, rest := JoinText(v[n]), Tail(v, n);
      assert c + " " + a + " " + rest == c + (" " + a + " " + rest);
    }
  }

  /** The left-to-right chain and the right-nested tail are the same text. */
  lemma {:induction false} ChainTail(v: seq<Sentence>, n: nat)
    requires 0 < n <= |v|
    ensures Chain(v[..n]) + After(v, n) == Tail(v, 0)
    decreases n
  {
    if n == 1 {
      assert Chain(v[..1]) == SentenceClause(v[0]);
      if |v| > 1 {
        var c, a, rest := SentenceClause(v[0]), JoinText(v[1]), Tail(v, 1);
        assert c + " " + a + " " + rest == c + (" " + a + " " + rest);
      }
    } else {
      ChainTail(v, n - 1);
      ChainLast(v, n);
      AfterStep(v, n);
      Regroup(Chain(v[..n - 1]), JoinText(v[n - 1]), SentenceClause(v[n - 1]), After(v, n));
    }
  }

  lemma Wrapped(ch: string, t: string)
    requires ch + " )" == t
    ensures "( " + ch + " )" == "( " + t
  {
  }

  lemma ChainText(v: seq<Sentence>)
    requires |v| >= 2
    ensures Chain(v) + " )" == Tail(v, 0)
  {
    ChainTail(v, |v|);
    assert v[..|v|] == v;
  }

  /** The text generated for two or more sentences. */
  lemma GeneratedText(ss: seq<Sentence>)
    requires |KeptSentences(ss)| >= 2
    ensures ExpressionOf(ss) == "( " + Tail(KeptSentences(ss), 0)
  {
    var v := KeptSentences(ss);
    ChainText(v);
    Wrapped(Chain(v), Tail(v, 0));
  }

  /** The generated text from clause `k` on is that clause followed by a blank. */
  lemma TailClause(v: seq<Sentence>, k: nat)
    requires k < |v|
    ensures |Tail(v, k)| > |SentenceClause(v[k])|
    ensures Tail(v, k)[..|SentenceClause(v[k])|] == SentenceClause(v[k])
    ensures Tail(v, k)[|SentenceClause(v[k])|] == ' '
  {
  }

  /** The text after the opening `( ` starts with the first field and a blank. */
  lemma OpenSlices(v: seq<Sentence>, t: string)
    requires v != [] && Plain(v[0]) && t == "( " + Tail(v, 0)
    ensures 2 + |v[0].field| < |t| && t[2..2 + |v[0].field|] == v[0].field && t[2 + |v[0].field|] == ' '
  {
    var s := v[0];
    var c := SentenceClause(s);
    BareValue(s.value);
    assert c == s.field + " " + s.operator + " " + s.value;
    TailClause(v, 0);
    assert t[2..] == Tail(v, 0);
    assert t[2..2 + |c|] == Tail(v, 0)[..|c|];
    ClauseSlices(t, 2, s.field, s.operator, s.value);
  }

  /** No match at the opening `( ` of the generated text. */
  lemma OpenGap(v: seq<Sentence>, t: string)
    requires v != [] && Plain(v[0]) && t == "( " + Tail(v, 0)
    ensures Gap(SplitRe, t, 0, 2)
  {
    OpenSlices(v, t);
    assert t[0] == '(' && t[1] == ' ';
    OpenFieldGap(t, v[0].field);
  }

  /** `( ` and then a field that is neither connector: no match in the first two characters. */
  lemma OpenFieldGap(t: string, f: string)
    requires 2 + |f| < |t| && t[0] == '(' && t[1] == ' ' && t[2..2 + |f|] == f && t[2 + |f|] == ' '
    requires PlainField(f) && f != "AND" && f != "OR"
    ensures Gap(SplitRe, t, 0, 2)
  {
    assert Gap(SplitRe, t, 1, 2) by {
      WordBlocked(t, 2, f);
      assert t[2] == t[2..2 + |f|][0] == f[0];
      NoMatchBefore(t, 1);
    }
    assert Gap(SplitRe, t, 0, 1) by {
      NoMatchAtNonSpace(t, 0);
    }
    GapJoin(SplitRe, t, 0, 1, 2);
  }

  /** The split of the generated text: `( c1`, `K2`, `c2`, ..., `Kn`, `cn )`. */
  lemma SplitGenerated(v: seq<Sentence>, t: string)
    requires v != [] && AllPlain(v) && t == "( " + Tail(v, 0)
    ensures Split(SplitRe, t) == Parts(v, 0, "( ")
  {
    OpenGap(v, t);
    SplitSkip(SplitRe, t, 0, 0, 2);
    assert t[2..] == Tail(v, 0);
    LayoutHolds(v, t, 2, 0);
    ScanLayout(SplitRe, v, t, 0, 2, 0);
    assert t[0..2] == "( ";
  }

  // ---------------------------------------------------------------------------
  // Reading the parts back

  /** The clause of a plain sentence: bare, without parentheses, not starting or ending in white space. */
  lemma PlainClause(s: Sentence)
    requires Plain(s)
    ensures SentenceClause(s) == s.field + " " + s.operator + " " + s.value
    ensures NoneOfChars(SentenceClause(s), "()")
    ensures !IsSpace(SentenceClause(s)[0]) && !IsSpace(SentenceClause(s)[|SentenceClause(s)| - 1])
  {
    BareValue(s.value);
    var c := SentenceClause(s);
    var f, op, val := s.field, s.operator, s.value;
    forall i | 0 <= i < |c| ensures c[i] !in "()" {
      if i < |f| {
        assert c[i] == f[i];
      } else if i == |f| || i == |f| + 1 + |op| {
      } else if i < |f| + 1 + |op| {
        assert c[i] == op[i - |f| - 1];
      } else {
        assert c[i] == val[i - |f| - |op| - 2];
      }
    }
    assert c[0] == f[0];
    assert c[|c| - 1] == val[|val| - 1];
  }

  /** The opening `( ` and the closing ` )` leave one blank once the parentheses are removed. */
  lemma ParenBlanks()
    ensures RemoveChars("( ", "()") == " " && RemoveChars(" )", "()") == " "
  {
    assert "( "[1..] == " " && " )"[1..] == ")";
    assert " "[1..] == [] && ")"[1..] == [];
  }

  lemma LeadRegroup(c: string, f: string, op: string, val: string)
    requires c == f + " " + op + " " + val
    ensures " " + c == (" " + f) + " " + op + " " + val
  {
  }

  lemma TrailRegroup(c: string, f: string, op: string, val: string)
    requires c == f + " " + op + " " + val
    ensures c + " " == f + " " + op + " " + (val + " ")
  {
  }

  /** The reading of the three groups of a clause match. */
  lemma CapturedPlain(F: string, op: string, U: string, f: string, val: string, id: string, connector: Option<Connector>)
    requires PrimaryOperator(op) && Trim(F) == f && ValueText(U) == val
    ensures Captured([F, op, U], id, connector) == Sentence(id, f, op, val, connector)
  {
    assert op in Operators;
    ConditionEditor.TrimOperator(op);
    var c := [F, op, U];
    assert c[0] == F && c[1] == op && c[2] == U;
  }

  /** A middle part, `c`, reads as its sentence. */
  lemma ReadMiddle(s: Sentence, id: string, connector: Option<Connector>)
    requires Plain(s)
    ensures PartSentence(SentenceClause(s), id, connector) == Some(Sentence(id, s.field, s.operator, s.value, connector))
  {
    var c := SentenceClause(s);
    var f, op, val := s.field, s.operator, s.value;
    assert RemoveChars(Trim(c), "()") == c by {
      PlainClause(s);
      TrimEnds(c);
    }
    ClauseRoundTrip(f, op, val);
    BareValue(val);
    ReadPart(c, c, f, op, val, f, val, id, connector);
  }

  /** The first part, `( c`, with its parentheses removed. */
  lemma FirstText(s: Sentence)
    requires Plain(s)
    ensures RemoveChars(Trim("( " + SentenceClause(s)), "()") == (" " + s.field) + " " + s.operator + " " + s.value
  {
    var c := SentenceClause(s);
    var part := "( " + c;
    PlainClause(s);
    assert part[0] == '(' && part[|part| - 1] == c[|c| - 1];
    TrimEnds(part);
    RemoveCharsConcat("( ", c, "()");
    ParenBlanks();
    LeadRegroup(c, s.field, s.operator, s.value);
  }

  /** The last part, `c )`, with its parentheses removed. */
  lemma LastText(s: Sentence)
    requires Plain(s)
    ensures RemoveChars(Trim(SentenceClause(s) + " )"), "()") == s.field + " " + s.operator + " " + (s.value + " ")
  {
    var c := SentenceClause(s);
    var part := c + " )";
    PlainClause(s);
    assert part[0] == c[0] && part[|part| - 1] == ')';
    TrimEnds(part);
    RemoveCharsConcat(c, " )", "()");
    ParenBlanks();
    TrailRegroup(c, s.field, s.operator, s.value);
  }

  /** The clause pattern on the first part: the field group keeps the blank before the field. */
  lemma FirstCaptures(f: string, op: string, val: string)
    requires PlainField(f) && PrimaryOperator(op) && val != [] && NoSpace(val)
    ensures ClauseCaptures((" " + f) + " " + op + " " + val) == Some([" " + f, op, val])
    ensures Trim(" " + f) == f
  {
    LeadFieldText(" ", f);
    assert PlainTail(val);
    ClauseMatch(" " + f, op, val);
    TrimFrame(" ", f, []);
    assert " " + f + [] == " " + f;
  }

  /** The clause pattern on the last part: the value group keeps the blank after the value. */
  lemma LastCaptures(f: string, op: string, val: string)
    requires PlainField(f) && PrimaryOperator(op) && val != [] && NoSpace(val) && NoneOfChars(val, "'\"")
    ensures ClauseCaptures(f + " " + op + " " + (val + " ")) == Some([f, op, val + " "])
    ensures Trim(f) == f && ValueText(val + " ") == val
  {
    LastMatch(f, op, val + " ");
    NoSpaceTrim(f);
    LastValue(val);
  }

  lemma LastMatch(f: string, op: string, u: string)
    requires PlainField(f) && PrimaryOperator(op) && PlainTail(u)
    ensures ClauseCaptures(f + " " + op + " " + u) == Some([f, op, u])
  {
    LeadFieldText([], f);
    assert [] + f == f;
    ClauseMatch(f, op, u);
  }

  /** The blank after the last value goes with the trim. */
  lemma LastValue(val: string)
    requires val != [] && NoSpace(val) && NoneOfChars(val, "'\"")
    ensures ValueText(val + " ") == val
  {
    TrimFrame([], val, " ");
    assert [] + val + " " == val + " ";
  }

  /** A part reads as the sentence of its clause match. */
  lemma ReadPart(part: string, x: string, F: string, op: string, U: string, f: string, val: string,
                 id: string, connector: Option<Connector>)
    requires RemoveChars(Trim(part), "()") == x && ClauseCaptures(x) == Some([F, op, U])
    requires PrimaryOperator(op) && Trim(F) == f && ValueText(U) == val
    ensures PartSentence(part, id, connector) == Some(Sentence(id, f, op, val, connector))
  {
    CapturedPlain(F, op, U, f, val, id, connector);
  }

  /** The first part, `( c`, reads as its sentence. */
  lemma ReadFirst(s: Sentence, id: string, connector: Option<Connector>)
    requires Plain(s)
    ensures PartSentence("( " + SentenceClause(s), id, connector) == Some(Sentence(id, s.field, s.operator, s.value, connector))
  {
    var f, op, val := s.field, s.operator, s.value;
    FirstText(s);
    FirstCaptures(f, op, val);
    BareValue(val);
    ClauseRoundTrip(f, op, val);
    ReadPart("( " + SentenceClause(s), (" " + f) + " " + op + " " + val, " " + f, op, val, f, val, id, connector);
  }

  /** The last part, `c )`, reads as its sentence. */
  lemma ReadLast(s: Sentence, id: string, connector: Option<Connector>)
    requires Plain(s)
    ensures PartSentence(SentenceClause(s) + " )", id, connector) == Some(Sentence(id, s.field, s.operator, s.value, connector))
  {
    var f, op, val := s.field, s.operator, s.value;
    LastText(s);
    LastCaptures(f, op, val);
    ReadPart(SentenceClause(s) + " )", f + " " + op + " " + (val + " "), f, op, val + " ", f, val, id, connector);
  }

  // ---------------------------------------------------------------------------
  // The round trip

  lemma {:induction false} PartsLength(v: seq<Sentence>, k: nat, lead: string)
    requires k < |v|
    ensures |Parts(v, k, lead)| == 2 * (|v| - k) - 1
    decreases |v| - k
  {
    if k + 1 < |v| {
      PartsLength(v, k + 1, []);
    }
  }

  /** The clause part `2 j` of `Parts(v, k, lead)`: clause `k + j`, after `lead` when it is the first
    * and before ` )` when it is the last. */
  function ClausePart(v: seq<Sentence>, k: nat, lead: string, j: nat): string
    requires k + j < |v|
  {
    var c := SentenceClause(v[k + j]);
    var c1 := if j == 0 then lead + c else c;
    if k + j + 1 == |v| then c1 + " )" else c1
  }

  lemma {:induction false} PartsClauseAt(v: seq<Sentence>, k: nat, lead: string, j: nat)
    requires k + j < |v|
    ensures 2 * j < |Parts(v, k, lead)| && Parts(v, k, lead)[2 * j] == ClausePart(v, k, lead, j)
    decreases j
  {
    PartsLength(v, k, lead);
    var c := SentenceClause(v[k]);
    if k + 1 == |v| {
      assert Parts(v, k, lead) == [lead + c + " )"];
    } else {
      var rest := Parts(v, k + 1, []);
      assert Parts(v, k, lead) == [lead + c, JoinText(v[k + 1])] + rest;
      if j > 0 {
        PartsClauseAt(v, k + 1, [], j - 1);
        assert Parts(v, k, lead)[2 * j] == rest[2 * (j - 1)];
        if j == 1 {
          var c1 := SentenceClause(v[k + 1]);
          assert [] + c1 == c1;
        }
      }
    }
  }

  /** The connector part `2 j + 1` of `Parts(v, k, lead)` is the word joining clause `k + j + 1`. */
  lemma {:induction false} PartsJoinAt(v: seq<Sentence>, k: nat, lead: string, j: nat)
    requires k + j + 1 < |v|
    ensures 2 * j + 1 < |Parts(v, k, lead)| && Parts(v, k, lead)[2 * j + 1] == JoinText(v[k + j + 1])
    decreases j
  {
    PartsLength(v, k, lead);
    var rest := Parts(v, k + 1, []);
    assert Parts(v, k, lead) == [lead + SentenceClause(v[k]), JoinText(v[k + 1])] + rest;
    if j > 0 {
      PartsJoinAt(v, k + 1, [], j - 1);
      assert Parts(v, k, lead)[2 * j + 1] == rest[2 * (j - 1) + 1];
    }
  }

  /** The sentences read at every other position, when every one of them reads. */
  lemma {:induction false} EveryOtherAll(rs: seq<Option<Sentence>>, i: nat)
    requires |rs| % 2 == 1 && i % 2 == 0 && i <= |rs| + 1
    requires forall p :: 0 <= p < |rs| && p % 2 == 0 ==> rs[p].Some?
    ensures |EveryOther(rs, i)| == (|rs| + 1 - i) / 2
    ensures forall j :: 0 <= j < |EveryOther(rs, i)| ==> EveryOther(rs, i)[j] == rs[i + 2 * j].value
    decreases |rs| - i
  {
    if i < |rs| {
      EveryOtherAll(rs, i + 2);
      var tail := EveryOther(rs, i + 2);
      assert EveryOther(rs, i) == [rs[i].value] + tail;
      forall j | 0 < j < |EveryOther(rs, i)| ensures EveryOther(rs, i)[j] == rs[i + 2 * j].value {
        assert EveryOther(rs, i)[j] == tail[j - 1];
        assert i + 2 + 2 * (j - 1) == i + 2 * j;
      }
    }
  }

  /** The connector a sentence is written with, `AND` when it has none. */
  lemma JoinConnector(s: Sentence)
    ensures ConnectorOf(JoinText(s)) == s.connector.GetOr(AND)
  {
  }

  /** What reading back the text of the kept sentences `v` gives: the same fields, operators and
    * values, fresh ids at the even part positions, no connector on the first sentence and the
    * written connector (`AND` when there was none) on the others. */
  function Reread(v: seq<Sentence>, now: nat): (r: seq<Sentence>)
    ensures |r| == |v|
    ensures forall j :: 0 <= j < |v| ==>
              r[j].field == v[j].field && r[j].operator == v[j].operator && r[j].value == v[j].value &&
              r[j].id == PartId(now, 2 * j) &&
              r[j].connector == (if j == 0 then None else Some(v[j].connector.GetOr(AND)))
  {
    seq(|v|, j requires 0 <= j < |v| =>
      Sentence(PartId(now, 2 * j), v[j].field, v[j].operator, v[j].value, if j == 0 then None else Some(v[j].connector.GetOr(AND))))
  }

  /** The connector the reading of clause part `2 j` takes. */
  lemma ConnectorAt(v: seq<Sentence>, parts: seq<string>, now: nat, j: nat)
    requires |v| >= 2 && parts == Parts(v, 0, "( ") && j < |v|
    ensures 2 * j < |parts| && PartConnector(parts, 2 * j) == Reread(v, now)[j].connector
  {
    PartsLength(v, 0, "( ");
    if j > 0 {
      PartsJoinAt(v, 0, "( ", j - 1);
      JoinConnector(v[j]);
    }
  }

  /** Each clause part of the split text reads as its sentence. */
  lemma ReadsAt(v: seq<Sentence>, parts: seq<string>, now: nat, j: nat)
    requires |v| >= 2 && AllPlain(v) && parts == Parts(v, 0, "( ") && j < |v|
    ensures 2 * j < |parts| && PartSentence(parts[2 * j], PartId(now, 2 * j), PartConnector(parts, 2 * j)) == Some(Reread(v, now)[j])
  {
    PartsClauseAt(v, 0, "( ", j);
    ConnectorAt(v, parts, now, j);
    var connector := PartConnector(parts, 2 * j);
    var id := PartId(now, 2 * j);
    assert Reread(v, now)[j] == Sentence(id, v[j].field, v[j].operator, v[j].value, connector);
    if j == 0 {
      ReadFirst(v[0], id, connector);
    } else if j + 1 == |v| {
      ReadLast(v[j], id, connector);
    } else {
      ReadMiddle(v[j], id, connector);
    }
  }

  /** Reading every other position of `rs` gives `w` when position `2 j` reads as `w[j]`. */
  lemma EveryOtherIs(rs: seq<Option<Sentence>>, w: seq<Sentence>)
    requires |w| >= 1 && |rs| == 2 * |w| - 1
    requires forall j :: 0 <= j < |w| ==> rs[2 * j] == Some(w[j])
    ensures EveryOther(rs, 0) == w
  {
    forall p | 0 <= p < |rs| && p % 2 == 0 ensures rs[p].Some? {
      assert rs[2 * (p / 2)] == Some(w[p / 2]);
    }
    EveryOtherAll(rs, 0);
    var r := EveryOther(rs, 0);
    forall j | 0 <= j < |r| ensures r[j] == w[j] {
      assert r[j] == rs[2 * j].value;
    }
  }

  /** The split text reads back as `Reread`. */
  lemma ReadParts(v: seq<Sentence>, now: nat)
    requires |v| >= 2 && AllPlain(v)
    ensures PartSentences(Parts(v, 0, "( "), now) == Reread(v, now)
  {
    var parts := Parts(v, 0, "( ");
    var rs := PartReads(parts, now);
    var w := Reread(v, now);
    PartsLength(v, 0, "( ");
    forall j | 0 <= j < |w| ensures rs[2 * j] == Some(w[j]) {
      ReadsAt(v, parts, now, j);
    }
    EveryOtherIs(rs, w);
  }

  /** ` a ` for a connector word `a` at position `i` is a connector of the expression. */
  lemma ConnectorWitness(t: string, i: nat, a: string)
    requires a == "AND" || a == "OR"
    requires i + |a| + 2 <= |t| && t[i] == ' ' && StartsAt(t, i + 1, a) && t[i + 1 + |a|] == ' '
    ensures HasConnector(t)
  {
    var w := t[i..i + |a| + 2];
    assert w == [t[i]] + t[i + 1..i + 1 + |a|] + [t[i + 1 + |a|]];
    if a == "AND" {
      assert w == " AND ";
      assert StartsAt(t, i, " AND ");
    } else {
      assert w == " OR ";
      assert StartsAt(t, i, " OR ");
    }
  }

  /** The generated text of two or more sentences takes the connector branch. */
  lemma GeneratedHasConnector(v: seq<Sentence>, t: string)
    requires |v| >= 2 && t == "( " + Tail(v, 0)
    ensures HasConnector(t)
  {
    var c, a, rest := SentenceClause(v[0]), JoinText(v[1]), Tail(v, 1);
    assert t[2..] == c + " " + a + " " + rest by {
      assert Tail(v, 0) == c + " " + a + " " + rest;
    }
    StepSlices(t, 2, c, a, rest);
    ConnectorWitness(t, 2 + |c|, a);
  }

  /** Generating the text of two or more plain sentences and parsing it gives back every kept
    * sentence in order, with its field, operator and value. */
  lemma RoundTrip(ss: seq<Sentence>, now: nat, blankId: string)
    requires |KeptSentences(ss)| >= 2 && AllPlain(KeptSentences(ss))
    ensures SentencesOf(ExpressionOf(ss), now, blankId) == Reread(KeptSentences(ss), now)
  {
    var v := KeptSentences(ss);
    var t := ExpressionOf(ss);
    GeneratedText(ss);
    GeneratedHasConnector(v, t);
    SplitGenerated(v, t);
    ReadParts(v, now);
    assert t != [] && |Reread(v, now)| >= 2;
  }

  // ---------------------------------------------------------------------------
  // One sentence

  /** Without white space in its pieces, the only spaces of `f op val` are the two separators. */
  lemma ClauseSpaces(f: string, op: string, val: string, j: nat)
    requires NoSpace(f) && NoSpace(op) && NoSpace(val)
    requires j < |f + " " + op + " " + val| && j != |f| && j != |f| + 1 + |op|
    ensures !IsSpace((f + " " + op + " " + val)[j])
  {
    var t := f + " " + op + " " + val;
    if j < |f| {
      assert t[j] == f[j];
    } else if |f| < j < |f| + 1 + |op| {
      assert t[j] == op[j - |f| - 1];
    } else if j > |f| + 1 + |op| {
      assert t[j] == val[j - |f| - |op| - 2];
    }
  }

  /** A clause whose operator is one or two characters other than `OR` holds neither ` AND ` nor
    * ` OR `. */
  lemma ClauseHasNoConnector(f: string, op: string, val: string)
    requires NoSpace(f) && NoSpace(op) && NoSpace(val) && 1 <= |op| <= 2 && op != "OR"
    ensures !HasConnector(f + " " + op + " " + val)
  {
    var t := f + " " + op + " " + val;
    forall i | 0 <= i <= |t| - 5 ensures !StartsAt(t, i, " AND ") {
      if i != |f| && i != |f| + 1 + |op| {
        ClauseSpaces(f, op, val, i);
      } else {
        ClauseSpaces(f, op, val, i + 4);
      }
    }
    forall i | 0 <= i <= |t| - 4 ensures !StartsAt(t, i, " OR ") {
      if i != |f| && i != |f| + 1 + |op| {
        ClauseSpaces(f, op, val, i);
      } else if i != |f| || |op| != 2 {
        ClauseSpaces(f, op, val, i + 3);
      } else {
        assert t[i + 1..i + 3] == op;
      }
    }
  }

  /** The text of a single kept sentence is its bare clause. */
  lemma SingleText(ss: seq<Sentence>)
    requires |KeptSentences(ss)| == 1
    ensures ExpressionOf(ss) == SentenceClause(KeptSentences(ss)[0])
  {
  }

  /** Text without a connector is read as a single clause. */
  lemma SingleRead(c: string, cap: seq<string>, now: nat, blankId: string)
    requires c != [] && !HasConnector(c) && ClauseCaptures(c) == Some(cap)
    ensures SentencesOf(c, now, blankId) == [Captured(cap, "sentence_" + NatToString(now), None)]
  {
  }

  /** The clause of a plain sentence: no connector, and its three groups are the sentence's own. */
  lemma PlainClauseCaptures(s: Sentence)
    requires Plain(s)
    ensures SentenceClause(s) != [] && !HasConnector(SentenceClause(s))
    ensures ClauseCaptures(SentenceClause(s)) == Some([s.field, s.operator, s.value])
    ensures Trim(s.field) == s.field && ValueText(s.value) == s.value
  {
    var f, op, val := s.field, s.operator, s.value;
    var c := SentenceClause(s);
    assert c == f + " " + op + " " + val by {
      PlainClause(s);
    }
    assert !HasConnector(c) by {
      ConditionEditor.OperatorNoSpace(op);
      ClauseHasNoConnector(f, op, val);
    }
    ClauseRoundTrip(f, op, val);
    BareValue(val);
  }

  /** The clause of one plain sentence reads as that sentence. */
  lemma ClauseRead(s: Sentence, now: nat, blankId: string)
    requires Plain(s)
    ensures SentencesOf(SentenceClause(s), now, blankId) ==
            [Sentence("sentence_" + NatToString(now), s.field, s.operator, s.value, None)]
  {
    var id := "sentence_" + NatToString(now);
    PlainClauseCaptures(s);
    SingleRead(SentenceClause(s), [s.field, s.operator, s.value], now, blankId);
    CapturedPlain(s.field, s.operator, s.value, s.field, s.value, id, None);
  }

  /** Generating the text of one plain sentence and parsing it gives that sentence back, with the
    * clock id and no connector. */
  lemma SingleRoundTrip(ss: seq<Sentence>, now: nat, blankId: string)
    requires |KeptSentences(ss)| == 1 && Plain(KeptSentences(ss)[0])
    ensures var s := KeptSentences(ss)[0];
            SentencesOf(ExpressionOf(ss), now, blankId) ==
            [Sentence("sentence_" + NatToString(now), s.field, s.operator, s.value, None)]
  {
    SingleText(ss);
    ClauseRead(KeptSentences(ss)[0], now, blankId);
  }

  /** The clause `f op v` for `op` one of `>=`, `<=`: no connector, and the groups `f`, the first
    * operator character and `= v`. */
  lemma LongClauseFacts(f: string, op: string, val: string)
    requires PlainField(f) && (op == ">=" || op == "<=")
    requires val != [] && NoSpace(val) && NoneOfChars(val, "'\"")
    ensures Clause(f, op, val) != [] && !HasConnector(Clause(f, op, val))
    ensures ClauseCaptures(Clause(f, op, val)) == Some([f, op[..1], "= " + val])
  {
    var c := Clause(f, op, val);
    BareValue(val);
    assert c == f + " " + op + " " + val;
    assert !HasConnector(c) by {
      ConditionEditor.OperatorNoSpace(op);
      ClauseHasNoConnector(f, op, val);
    }
    LongClauseCaptures(f, op, val);
  }

  lemma LongCaptured(f: string, op: string, val: string, id: string)
    requires PlainField(f) && (op == ">=" || op == "<=")
    requires val != [] && NoneOfChars(val, "'\"") && Quote(val) == val
    ensures Captured([f, op[..1], "= " + val], id, None) == Sentence(id, f, op[..1], "= " + val, None)
  {
    ConditionEditor.TrimOperator(op);
    NoSpaceTrim(f);
    EqualsValueText(val);
  }

  /** The clause `f op v` for `op` one of `>=`, `<=` reads with operator `>` or `<` and value `= v`. */
  lemma LongClauseRead(f: string, op: string, val: string, now: nat, blankId: string)
    requires PlainField(f) && (op == ">=" || op == "<=")
    requires val != [] && NoSpace(val) && NoneOfChars(val, "'\"")
    ensures SentencesOf(Clause(f, op, val), now, blankId) ==
            [Sentence("sentence_" + NatToString(now), f, op[..1], "= " + val, None)]
  {
    LongClauseFacts(f, op, val);
    SingleRead(Clause(f, op, val), [f, op[..1], "= " + val], now, blankId);
    BareValue(val);
    LongCaptured(f, op, val, "sentence_" + NatToString(now));
  }

  /** The round trip fails for `>=` and `<=`: the alternation tries `>` and `<` first, so a single
    * sentence `f >= v` reads back with operator `>` and value `= v`. */
  lemma LongOperatorMisread(ss: seq<Sentence>, now: nat, blankId: string)
    requires |KeptSentences(ss)| == 1
    requires var s := KeptSentences(ss)[0];
             PlainField(s.field) && (s.operator == ">=" || s.operator == "<=") &&
             s.value != [] && NoSpace(s.value) && NoneOfChars(s.value, "'\"")
    ensures var s := KeptSentences(ss)[0];
            SentencesOf(ExpressionOf(ss), now, blankId) ==
            [Sentence("sentence_" + NatToString(now), s.field, s.operator[..1], "= " + s.value, None)]
  {
    var s := KeptSentences(ss)[0];
    SingleText(ss);
    LongClauseRead(s.field, s.operator, s.value, now, blankId);
  }

  // ---------------------------------------------------------------------------
  // Generating again

  /** Two lists with the same clauses and the same joining words (after the first) chain alike. */
  lemma ChainStep(a: seq<Sentence>, b: seq<Sentence>, x: string, y: string)
    requires |a| == |b| > 1 && x == Chain(a[..|a| - 1]) && y == Chain(b[..|b| - 1]) && x == y
    requires SentenceClause(a[|a| - 1]) == SentenceClause(b[|b| - 1]) && JoinText(a[|a| - 1]) == JoinText(b[|b| - 1])
    ensures Chain(a) == Chain(b)
  {
  }

  lemma {:induction false} ChainCongruent(a: seq<Sentence>, b: seq<Sentence>)
    requires |a| == |b| >= 1
    requires forall j :: 0 <= j < |a| ==> SentenceClause(a[j]) == SentenceClause(b[j])
    requires forall j :: 1 <= j < |a| ==> JoinText(a[j]) == JoinText(b[j])
    ensures Chain(a) == Chain(b)
    decreases |a|
  {
    if |a| > 1 {
      var n := |a| - 1;
      var a', b' := a[..n], b[..n];
      forall j | 0 <= j < n ensures SentenceClause(a'[j]) == SentenceClause(b'[j]) {
        assert a'[j] == a[j] && b'[j] == b[j];
      }
      forall j | 1 <= j < n ensures JoinText(a'[j]) == JoinText(b'[j]) {
        assert a'[j] == a[j] && b'[j] == b[j];
      }
      ChainCongruent(a', b');
      ChainStep(a, b, Chain(a'), Chain(b'));
    }
  }

  /** Every sentence read back from plain sentences is kept when generating again. */
  lemma RereadKept(v: seq<Sentence>, now: nat)
    requires AllPlain(v)
    ensures KeptSentences(Reread(v, now)) == Reread(v, now)
  {
    var r := Reread(v, now);
    forall j | 0 <= j < |r| ensures Kept(r[j]) {
      assert Plain(v[j]);
    }
  }

  /** Lists whose kept sentences chain alike generate the same text. */
  lemma SameExpression(x: seq<Sentence>, y: seq<Sentence>)
    requires KeptSentences(x) != [] && |KeptSentences(x)| == |KeptSentences(y)|
    requires Chain(KeptSentences(x)) == Chain(KeptSentences(y))
    ensures ExpressionOf(x) == ExpressionOf(y)
  {
  }

  lemma RegenerateOne(ss: seq<Sentence>, now: nat, blankId: string)
    requires |KeptSentences(ss)| == 1 && Plain(KeptSentences(ss)[0])
    ensures ExpressionOf(SentencesOf(ExpressionOf(ss), now, blankId)) == ExpressionOf(ss)
  {
    var s := KeptSentences(ss)[0];
    var w := [Sentence("sentence_" + NatToString(now), s.field, s.operator, s.value, None)];
    SingleRoundTrip(ss, now, blankId);
    assert KeptSentences(w) == w by {
      assert Kept(w[0]);
    }
    assert SentenceClause(w[0]) == SentenceClause(s);
    SameExpression(w, ss);
  }

  /** The sentences read back chain as the ones written. */
  lemma RereadChain(v: seq<Sentence>, now: nat)
    requires v != [] && AllPlain(v)
    ensures Chain(Reread(v, now)) == Chain(v)
  {
    var r := Reread(v, now);
    forall j | 0 <= j < |v| ensures SentenceClause(r[j]) == SentenceClause(v[j]) {
      assert r[j].field == v[j].field && r[j].operator == v[j].operator && r[j].value == v[j].value;
    }
    forall j | 1 <= j < |v| ensures JoinText(r[j]) == JoinText(v[j]) {
      assert r[j].connector == Some(v[j].connector.GetOr(AND));
    }
    ChainCongruent(r, v);
  }

  lemma RegenerateMany(ss: seq<Sentence>, now: nat, blankId: string)
    requires |KeptSentences(ss)| >= 2 && AllPlain(KeptSentences(ss))
    ensures ExpressionOf(SentencesOf(ExpressionOf(ss), now, blankId)) == ExpressionOf(ss)
  {
    var v := KeptSentences(ss);
    var r := Reread(v, now);
    assert SentencesOf(ExpressionOf(ss), now, blankId) == r by {
      RoundTrip(ss, now, blankId);
    }
    assert KeptSentences(r) == r && Chain(r) == Chain(v) by {
      RereadKept(v, now);
      RereadChain(v, now);
    }
    SameExpression(r, ss);
  }

  /** Generating from the sentences read back gives the very text they were read from: the parse
    * loses nothing the generator writes. */
  lemma RegenerateStable(ss: seq<Sentence>, now: nat, blankId: string)
    requires KeptSentences(ss) != [] && AllPlain(KeptSentences(ss))
    ensures ExpressionOf(SentencesOf(ExpressionOf(ss), now, blankId)) == ExpressionOf(ss)
  {
    if |KeptSentences(ss)| == 1 {
      RegenerateOne(ss, now, blankId);
    } else {
      RegenerateMany(ss, now, blankId);
    }
  }
}
