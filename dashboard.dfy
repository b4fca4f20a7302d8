/** The dashboard of conditions: the lenient parser that extracts a headline `field op value` from an
  * expression, the search and filter predicate, the filter options, the three statistics and the
  * allowed-value badges. The list view uses the same parser and filter (its copies are character for
  * character the same). */
module ConditionDashboard {
  import opened Wrappers
  import opened Text
  import opened Regex
  import opened Types
  import opened ClauseSyntax

  /** `/([^=!<>]+)\s*(==|!=|>|<|>=|<=)\s*'([^']+)'/`: a field, an operator and a single-quoted value. */
  const SimpleRe: Pattern :=
    [Plus(NoneOf("=!<>"), false, true), Star(Space), Alt(Operators, true), Star(Space),
     Lit("'"), Plus(NoneOf("'"), false, true), Lit("'")]

  /** Two parenthesised simple clauses joined by `&&`. */
  const ComplexRe: Pattern :=
    [Lit("("), Star(Space)] + SimpleRe +
    [Star(Space), Lit(")"), Star(Space), Lit("&&"), Star(Space), Lit("("), Star(Space)] + SimpleRe +
    [Star(Space), Lit(")")]

  /** `/applies_to_part\s*==\s*'([^']+)'/`. */
  const PartRe: Pattern :=
    [Lit("applies_to_part"), Star(Space), Lit("=="), Star(Space), Lit("'"), Plus(NoneOf("'"), false, true), Lit("'")]

  /** What `parseExpression` returns. */
  datatype Parsed = Parsed(field: string, operator: string, value: string)

  /** The groups of `t.match(re)`, each of a text its group can capture. */
  function Groups(re: Pattern, t: string): (r: Option<seq<string>>)
    ensures r.Some? ==> AllFit(CapNodes(re), r.value)
    ensures r.None? <==> Find(re, t).None?
  {
    match Find(re, t)
    case None => None
    case Some(m) =>
      SearchFits(re, t, 0);
      Some(m.caps)
  }

  lemma CapNodesConcat(a: Pattern, b: Pattern)
    ensures CapNodes(a + b) == CapNodes(a) + CapNodes(b)
    decreases |a|
  {
    if a == [] {
      assert a + b == b;
    } else {
      assert (a + b)[0] == a[0] && (a + b)[1..] == a[1..] + b;
      CapNodesConcat(a[1..], b);
    }
  }

  lemma SimpleGroups()
    ensures CapNodes(SimpleRe) == [SimpleRe[0], SimpleRe[2], SimpleRe[5]]
  {
    var re := SimpleRe;
    assert re[6..][1..] == [];
    assert CapNodes(re[6..]) == [];
    assert re[5..][1..] == re[6..];
    assert CapNodes(re[5..]) == [re[5]];
    assert re[4..][1..] == re[5..];
    assert re[3..][1..] == re[4..];
    assert CapNodes(re[3..]) == [re[5]];
    assert re[2..][1..] == re[3..];
    assert CapNodes(re[2..]) == [re[2], re[5]];
    assert re[1..][1..] == re[2..];
    assert re[1..] == re[1..];
  }

  lemma PartGroups()
    ensures CapNodes(PartRe) == [PartRe[5]]
  {
    var re := PartRe;
    assert re[6..][1..] == [];
    assert CapNodes(re[6..]) == [];
    assert re[5..][1..] == re[6..];
    assert CapNodes(re[5..]) == [re[5]];
    assert re[4..][1..] == re[5..];
    assert CapNodes(re[4..]) == [re[5]];
    assert re[3..][1..] == re[4..];
    assert CapNodes(re[3..]) == [re[5]];
    assert re[2..][1..] == re[3..];
    assert CapNodes(re[2..]) == [re[5]];
    assert re[1..][1..] == re[2..];
    assert CapNodes(re[1..]) == [re[5]];
  }

  /** A pattern without `+` runs or alternations captures nothing. */
  lemma {:induction false} Uncaptured(re: Pattern)
    requires forall i :: 0 <= i < |re| ==> !re[i].Plus? && !re[i].Alt?
    ensures CapNodes(re) == []
  {
    if re != [] {
      Uncaptured(re[1..]);
    }
  }

  lemma ComplexGroups()
    ensures |CapNodes(ComplexRe)| == 6
  {
    var lead: Pattern := [Lit("("), Star(Space)];
    var mid: Pattern := [Star(Space), Lit(")"), Star(Space), Lit("&&"), Star(Space), Lit("("), Star(Space)];
    var tail: Pattern := [Star(Space), Lit(")")];
    Uncaptured(lead);
    Uncaptured(mid);
    Uncaptured(tail);
    SimpleGroups();
    CapNodesConcat(lead, SimpleRe);
    CapNodesConcat(lead + SimpleRe, mid);
    CapNodesConcat(lead + SimpleRe + mid, SimpleRe);
    CapNodesConcat(lead + SimpleRe + mid + SimpleRe, tail);
  }

  /** The value of the `applies_to_part` fallback: `match[1].split('/').pop() || match[1]`. */
  function PartValue(id: string): string
  {
    var last := LastSegment(id, '/');
    if last != [] then last else id
  }

  /** `parseExpression`: the simple pattern, then the two-clause pattern, then the `applies_to_part`
    * fallback, then `Unknown == Unknown`. */
  function ParseExpression(expression: string): Parsed
  {
    SimpleGroups();
    ComplexGroups();
    PartGroups();
    match Groups(SimpleRe, expression)
    case Some(c) => Parsed(Trim(c[0]), c[1], c[2])
    case None =>
      match Groups(ComplexRe, expression)
      case Some(c) =>
        Parsed(Trim(c[0]) + " AND " + Trim(c[3]), c[1] + " AND " + c[4], c[2] + " AND " + c[5])
      case None =>
        if Contains(expression, "applies_to_part") then
          Parsed("applies_to_part", "==",
                 match Groups(PartRe, expression) case Some(c) => PartValue(c[0]) case None => "unknown")
        else Parsed("Unknown", "==", "Unknown")
  }

  /** From an opening quote: the value group takes everything up to the next quote, which closes it. */
  lemma QuotedGroup(t: string, r: nat, e: nat, c: seq<string>)
    requires r + 1 < e < |t| && t[r] == '\'' && t[e] == '\''
    requires forall x :: r < x < e ==> t[x] != '\''
    ensures Match(SimpleRe[4..], t, r, c) == Some(Res(e + 1, c + [t[r + 1..e]]))
  {
    var T4 := SimpleRe[4..];
    var T5 := T4[1..];
    assert T4[0] == Lit("'") && T5[0] == Plus(NoneOf("'"), false, true) && T5[1..] == [Lit("'")];
    assert [Lit("'")][1..] == [];
    assert t[r..r + 1] == "'" && t[e..e + 1] == "'";
    RunEndIs(NoneOf("'"), t, r + 1, e);
    MatchAccepts(T5[1..], t, e, []);
    MatchGreedy(T5, t, r + 1, e, c);
  }

  /** White space before the opening quote is taken whole by `\s*`. */
  lemma SpacesThenQuote(t: string, q: nat, r: nat, c: seq<string>)
    requires q <= r < |t| && t[r] == '\'' && forall x :: q <= x < r ==> IsSpace(t[x])
    requires Accepts(SimpleRe[4..], t, r)
    ensures Match(SimpleRe[3..], t, q, c) == Match(SimpleRe[4..], t, r, c)
  {
    var T3 := SimpleRe[3..];
    assert T3[0] == Star(Space) && T3[1..] == SimpleRe[4..];
    RunEndIs(Space, t, q, r);
    MatchGreedy(T3, t, q, r, c);
  }

  /** Right before an `=` no quoted value can start. */
  lemma NoValueAtEquals(t: string, j: nat)
    requires j < |t| && t[j] == '='
    ensures !Accepts(SimpleRe[3..], t, j)
  {
    var T3 := SimpleRe[3..];
    assert T3[0] == Star(Space) && T3[1..] == SimpleRe[4..];
    assert SimpleRe[4..][0] == Lit("'");
    RunEndIs(Space, t, j, j);
    AcceptsRep(T3, t, j);
    assert t[j..j + 1] != "'";
  }

  /** The position of an operator in the alternation. */
  lemma OperatorIndex(op: string) returns (a: nat)
    requires op in Operators
    ensures a < |Operators| && Operators[a] == op
  {
    a :| 0 <= a < |Operators| && Operators[a] == op;
  }

  /** A one-character alternative that starts where a later one does is a prefix of it ending
    * right before an `=`. */
  lemma ShadowingAlternative(t: string, p: nat, a: nat, b: nat)
    requires b < a < |Operators| && StartsAt(t, p, Operators[a]) && StartsAt(t, p, Operators[b])
    ensures |Operators[b]| == 1 && p + 1 < |t| && t[p + 1] == '='
  {
    var x, y := Operators[a], Operators[b];
    assert t[p] == x[0] == y[0] by {
      assert t[p..p + |x|][0] == x[0];
      assert t[p..p + |y|][0] == y[0];
    }
    assert |x| == 2 && x[1] == '=';
    assert t[p + 1] == t[p..p + |x|][1];
  }

  /** The operator group takes the operator the text has, longer ones included: an earlier
    * one-character alternative leaves an `=` where the quote should be. */
  lemma OperatorGroup(t: string, p: nat, op: string, c: seq<string>)
    requires op in Operators && StartsAt(t, p, op)
    requires Accepts(SimpleRe[3..], t, p + |op|)
    ensures Match(SimpleRe[2..], t, p, c) == Match(SimpleRe[3..], t, p + |op|, c + [op])
  {
    var T2 := SimpleRe[2..];
    assert T2[0] == Alt(Operators, true) && T2[1..] == SimpleRe[3..];
    var a := OperatorIndex(op);
    forall b | 0 <= b < a && StartsAt(t, p, Operators[b])
      ensures !Accepts(SimpleRe[3..], t, p + |Operators[b]|)
    {
      ShadowingAlternative(t, p, a, b);
      NoValueAtEquals(t, p + 1);
    }
    MatchAlt(T2, t, p, a, c);
  }

  /** The field class stops exactly at the first operator character. */
  lemma FieldRun(t: string, n: nat)
    requires n < |t| && IsOperatorChar(t[n]) && forall x :: 0 <= x < n ==> !IsOperatorChar(t[x])
    ensures RunEnd(NoneOf("=!<>"), t, 0) == n
  {
    forall x | 0 <= x < n ensures InClass(NoneOf("=!<>"), t[x]) {
      assert !IsOperatorChar(t[x]);
    }
    RunEndIs(NoneOf("=!<>"), t, 0, n);
  }

  /** The greedy field group takes the whole run before the first operator character. */
  lemma HeadField(t: string, n: nat)
    requires 0 < n < |t| && IsOperatorChar(t[n]) && forall x :: 0 <= x < n ==> !IsOperatorChar(t[x])
    requires Accepts(SimpleRe[2..], t, n)
    ensures Match(SimpleRe, t, 0, []) == Match(SimpleRe[2..], t, n, [t[..n]])
  {
    var T1 := SimpleRe[1..];
    assert SimpleRe[0] == Plus(NoneOf("=!<>"), false, true);
    assert T1[0] == Star(Space) && T1[1..] == SimpleRe[2..];
    FieldRun(t, n);
    RunEndIs(Space, t, n, n);
    MatchGreedy(T1, t, n, n, []);
    assert Accepts(T1, t, n);
    MatchGreedy(T1, t, n, n, [t[..n]]);
    assert Match(T1, t, n, [t[..n]]) == Match(SimpleRe[2..], t, n, [t[..n]]);
    MatchGreedy(SimpleRe, t, 0, n, []);
    assert Keep(SimpleRe[0], [], t[0..n]) == [t[..n]];
  }

  /** After the field: an operator, blanks and a quoted value. */
  lemma SimpleTail(t: string, n: nat, op: string, r: nat, e: nat, F: string)
    requires n + |op| <= r && r + 1 < e < |t| && op in Operators
    requires StartsAt(t, n, op) && forall x :: n + |op| <= x < r ==> IsSpace(t[x])
    requires t[r] == '\'' && t[e] == '\'' && forall x :: r < x < e ==> t[x] != '\''
    ensures Match(SimpleRe[2..], t, n, [F]) == Some(Res(e + 1, [F, op, t[r + 1..e]]))
  {
    var V := t[r + 1..e];
    QuotedGroup(t, r, e, [F, op]);
    assert [F, op] + [V] == [F, op, V];
    MatchAccepts(SimpleRe[4..], t, r, [F, op]);
    SpacesThenQuote(t, n + |op|, r, [F, op]);
    MatchAccepts(SimpleRe[3..], t, n + |op|, [F, op]);
    OperatorGroup(t, n, op, [F]);
    assert [F] + [op] == [F, op];
  }

  /** A field run, an operator, blanks and a quoted value, in that order from position 0. */
  lemma SimpleMatch(t: string, n: nat, op: string, r: nat, e: nat)
    requires 0 < n && n + |op| <= r && r + 1 < e < |t| && op in Operators
    requires forall x :: 0 <= x < n ==> !IsOperatorChar(t[x])
    requires StartsAt(t, n, op) && forall x :: n + |op| <= x < r ==> IsSpace(t[x])
    requires t[r] == '\'' && t[e] == '\'' && forall x :: r < x < e ==> t[x] != '\''
    ensures Find(SimpleRe, t) == Some(Res(e + 1, [t[..n], op, t[r + 1..e]]))
  {
    SimpleTail(t, n, op, r, e, t[..n]);
    MatchAccepts(SimpleRe[2..], t, n, [t[..n]]);
    assert IsOperatorChar(t[n]) by {
      assert t[n] == t[n..n + |op|][0] == op[0];
    }
    HeadField(t, n);
    SearchFirst(SimpleRe, t, 0, 0);
  }

  /** The text `F op S 'V' rest` matches the simple pattern from its start with groups `F`, `op`, `V`. */
  lemma SimpleLayout(F: string, op: string, S: string, V: string, rest: string)
    requires F != [] && NoOperatorChar(F) && op in Operators && AllSpace(S) && V != [] && '\'' !in V
    ensures Find(SimpleRe, F + op + S + "'" + V + "'" + rest).Some?
    ensures Find(SimpleRe, F + op + S + "'" + V + "'" + rest).value.caps == [F, op, V]
  {
    var t := F + op + S + "'" + V + "'" + rest;
    LayoutFront(F, op, S, V, rest);
    LayoutBack(F, op, S, V, rest);
    SimpleMatch(t, |F|, op, |F| + |op| + |S|, |F| + |op| + |S| + 1 + |V|);
  }

  /** The field, the operator and the blanks of `F op S 'V' rest`. */
  lemma LayoutFront(F: string, op: string, S: string, V: string, rest: string)
    requires NoOperatorChar(F) && AllSpace(S)
    ensures forall x :: 0 <= x < |F| ==> !IsOperatorChar((F + op + S + "'" + V + "'" + rest)[x])
    ensures (F + op + S + "'" + V + "'" + rest)[..|F|] == F
    ensures StartsAt(F + op + S + "'" + V + "'" + rest, |F|, op)
    ensures forall x :: |F| + |op| <= x < |F| + |op| + |S| ==> IsSpace((F + op + S + "'" + V + "'" + rest)[x])
  {
    var A := F + op;
    var B := A + S;
    var t := F + op + S + "'" + V + "'" + rest;
    assert t == B + ("'" + V + "'" + rest);
    assert forall x :: 0 <= x < |B| ==> t[x] == B[x];
    assert forall x :: 0 <= x < |A| ==> B[x] == A[x];
    assert t[..|F|] == F by {
      assert forall x :: 0 <= x < |F| ==> A[x] == F[x];
    }
    assert t[|F|..|F| + |op|] == op by {
      assert forall x :: |F| <= x < |F| + |op| ==> A[x] == op[x - |F|];
    }
    assert forall x :: |A| <= x < |B| ==> t[x] == S[x - |A|];
  }

  /** The quoted value of `F op S 'V' rest`. */
  lemma LayoutBack(F: string, op: string, S: string, V: string, rest: string)
    requires '\'' !in V
    ensures (F + op + S + "'" + V + "'" + rest)[|F| + |op| + |S|] == '\''
    ensures (F + op + S + "'" + V + "'" + rest)[|F| + |op| + |S| + 1 + |V|] == '\''
    ensures (F + op + S + "'" + V + "'" + rest)[|F| + |op| + |S| + 1..|F| + |op| + |S| + 1 + |V|] == V
    ensures forall x :: |F| + |op| + |S| < x < |F| + |op| + |S| + 1 + |V| ==>
              (F + op + S + "'" + V + "'" + rest)[x] != '\''
  {
    var B := F + op + S;
    var t := F + op + S + "'" + V + "'" + rest;
    var w := "'" + V + "'" + rest;
    assert t == B + w;
    assert forall x :: |B| <= x < |t| ==> t[x] == w[x - |B|];
    assert w[0] == '\'' && w[1 + |V|] == '\'';
    assert w[1..1 + |V|] == V;
    assert t[|B| + 1..|B| + 1 + |V|] == w[1..1 + |V|];
    assert forall x :: 1 <= x < 1 + |V| ==> w[x] == V[x - 1];
  }

  /** Whenever the simple pattern matches, the headline is its three groups with the field trimmed:
    * the field group is a non-empty run without `= ! < >`, the operator one of the alternation, the
    * value non-empty and free of quotes. */
  lemma SimpleShape(e: string)
    requires Find(SimpleRe, e).Some?
    ensures |Find(SimpleRe, e).value.caps| == 3
    ensures ParseExpression(e) ==
      Parsed(Trim(Find(SimpleRe, e).value.caps[0]), Find(SimpleRe, e).value.caps[1], Find(SimpleRe, e).value.caps[2])
    ensures Find(SimpleRe, e).value.caps[0] != [] && NoOperatorChar(Find(SimpleRe, e).value.caps[0])
    ensures Find(SimpleRe, e).value.caps[1] in Operators
    ensures Find(SimpleRe, e).value.caps[2] != [] && '\'' !in Find(SimpleRe, e).value.caps[2]
  {
    var c := Groups(SimpleRe, e).value;
    SimpleGroups();
    assert Fits(SimpleRe[0], c[0]) && Fits(SimpleRe[2], c[1]) && Fits(SimpleRe[5], c[2]);
    forall x | 0 <= x < |c[0]| ensures !IsOperatorChar(c[0][x]) {
      assert InClass(NoneOf("=!<>"), c[0][x]);
    }
    assert '\'' !in c[2] by {
      forall x | 0 <= x < |c[2]| ensures c[2][x] != '\'' {
        assert InClass(NoneOf("'"), c[2][x]);
      }
    }
  }

  /** Where the simple pattern matches at the very start, the headline is its three groups, the
    * field trimmed: `F op S 'V' rest` reads as field `Trim(F)`, operator `op`, value `V`, whatever
    * follows, and every operator of the alternation comes through as written. */
  lemma SimpleParse(F: string, op: string, S: string, V: string, rest: string)
    requires F != [] && NoOperatorChar(F) && op in Operators && AllSpace(S) && V != [] && '\'' !in V
    ensures ParseExpression(F + op + S + "'" + V + "'" + rest) == Parsed(Trim(F), op, V)
  {
    SimpleLayout(F, op, S, V, rest);
    SimpleShape(F + op + S + "'" + V + "'" + rest);
  }

  /** Every match of the two-clause pattern contains a match of the simple pattern, right after its
    * opening parenthesis and blanks. */
  lemma ComplexHasSimple(e: string, s: nat)
    requires s <= |e| && Accepts(ComplexRe, e, s)
    ensures exists s' :: s < s' <= |e| && Accepts(SimpleRe, e, s')
  {
    var lead: Pattern := [Lit("("), Star(Space)];
    var tail: Pattern := [Star(Space), Lit(")"), Star(Space), Lit("&&"), Star(Space), Lit("("), Star(Space)] + SimpleRe +
      [Star(Space), Lit(")")];
    assert ComplexRe == lead + (SimpleRe + tail);
    assert ComplexRe[0] == Lit("(") && ComplexRe[1..][0] == Star(Space) && ComplexRe[1..][1..] == SimpleRe + tail;
    assert StartsAt(e, s, "(") && Accepts(ComplexRe[1..], e, s + 1);
    AcceptsRep(ComplexRe[1..], e, s + 1);
    var m :| s + 1 <= m <= RunEnd(Space, e, s + 1) && Accepts(SimpleRe + tail, e, m);
    AcceptsPrefix(SimpleRe, tail, e, m);
  }

  /** The two-clause branch is unreachable: wherever its pattern matches, the simple one does too. */
  lemma ComplexUnreachable(e: string)
    ensures Find(ComplexRe, e).Some? ==> Find(SimpleRe, e).Some?
  {
    SearchNone(ComplexRe, e, 0);
    SearchNone(SimpleRe, e, 0);
    if Find(ComplexRe, e).Some? {
      var s :| 0 <= s <= |e| && Accepts(ComplexRe, e, s);
      ComplexHasSimple(e, s);
    }
  }

  /** A run of class characters lasts at least as far as the class holds. */
  lemma RunEndAtLeast(k: Class, t: string, i: nat, m: nat)
    requires i <= m <= |t| && forall x :: i <= x < m ==> InClass(k, t[x])
    ensures m <= RunEnd(k, t, i)
  {
  }

  /** A match of the `applies_to_part` pattern at `s`: the name and its blanks, then `==` and the
    * quoted value the simple pattern also ends with. */
  lemma PartPieces(e: string, s: nat) returns (m: nat)
    requires s <= |e| && Accepts(PartRe, e, s)
    ensures s < m && m + 2 <= |e| && StartsAt(e, m, "==") && Accepts(SimpleRe[3..], e, m + 2)
    ensures forall x :: s <= x < m ==> InClass(NoneOf("=!<>"), e[x])
  {
    PartNodes();
    AcceptsLit(PartRe, e, s);
    AcceptsRep(PartRe[1..], e, s + 15);
    m :| s + 15 <= m <= RunEnd(Space, e, s + 15) && Accepts(PartRe[2..], e, m);
    AcceptsLit(PartRe[2..], e, m);
    NameAndBlanks(e, s, m);
  }

  /** The nodes of the `applies_to_part` pattern, which ends like the simple one. */
  lemma PartNodes()
    ensures PartRe[0] == Lit("applies_to_part") && |PartRe[0].s| == 15
    ensures PartRe[1..][0] == Star(Space) && PartRe[1..][1..] == PartRe[2..]
    ensures PartRe[2..][0] == Lit("==") && |PartRe[2..][0].s| == 2 && PartRe[2..][1..] == SimpleRe[3..]
  {
  }

  /** `applies_to_part` and the blanks after it hold no operator character. */
  lemma NameAndBlanks(e: string, s: nat, m: nat)
    requires StartsAt(e, s, "applies_to_part") && s + 15 <= m <= |e|
    requires forall x :: s + 15 <= x < m ==> IsSpace(e[x])
    ensures forall x :: s <= x < m ==> InClass(NoneOf("=!<>"), e[x])
  {
    var name := "applies_to_part";
    assert forall i :: 0 <= i < |name| ==> name[i] !in "=!<>";
    forall x | s <= x < m ensures InClass(NoneOf("=!<>"), e[x]) {
      if x < s + |name| {
        assert e[x] == e[s..s + |name|][x - s];
      }
    }
  }

  /** A non-empty run without operator characters, then `==` and what the simple pattern expects
    * after its operator, is a match of the simple pattern. */
  lemma SimpleFromEquals(e: string, s: nat, m: nat)
    requires s < m && m + 2 <= |e| && StartsAt(e, m, "==") && Accepts(SimpleRe[3..], e, m + 2)
    requires forall x :: s <= x < m ==> InClass(NoneOf("=!<>"), e[x])
    ensures Accepts(SimpleRe, e, s)
  {
    var S1, S2 := SimpleRe[1..], SimpleRe[2..];
    assert S2[0] == Alt(Operators, true) && S2[1..] == SimpleRe[3..] && Operators[0] == "==";
    AcceptsAlt(S2, e, m);
    assert S1[0] == Star(Space) && S1[1..] == S2;
    AcceptsRep(S1, e, m);
    RunEndAtLeast(NoneOf("=!<>"), e, s, m);
    assert SimpleRe[0] == Plus(NoneOf("=!<>"), false, true) && SimpleRe[1..] == S1;
    AcceptsRep(SimpleRe, e, s);
  }

  /** Whenever the `applies_to_part` pattern matches, the simple one does too. */
  lemma PartImpliesSimple(e: string)
    ensures Find(PartRe, e).Some? ==> Find(SimpleRe, e).Some?
  {
    SearchNone(PartRe, e, 0);
    SearchNone(SimpleRe, e, 0);
    if Find(PartRe, e).Some? {
      var s :| 0 <= s <= |e| && Accepts(PartRe, e, s);
      var m := PartPieces(e, s);
      SimpleFromEquals(e, s, m);
    }
  }

  /** Where the simple pattern finds nothing, the headline is `applies_to_part == unknown` when the
    * text mentions `applies_to_part` (its own pattern, run only then, never matches) and
    * `Unknown == Unknown` otherwise. */
  lemma FallbackParse(e: string)
    requires Find(SimpleRe, e).None?
    ensures Contains(e, "applies_to_part") ==> ParseExpression(e) == Parsed("applies_to_part", "==", "unknown")
    ensures !Contains(e, "applies_to_part") ==> ParseExpression(e) == Parsed("Unknown", "==", "Unknown")
  {
    ComplexUnreachable(e);
    PartImpliesSimple(e);
  }

  /** The headline never needs the card's `'=='` or `'Unknown'` fallbacks for its operator and value:
    * the operator is one of the alternation and the value is non-empty. */
  lemma HeadlineComplete(e: string)
    ensures ParseExpression(e).operator in Operators && ParseExpression(e).value != []
  {
    if Find(SimpleRe, e).Some? {
      SimpleShape(e);
    } else {
      FallbackParse(e);
    }
  }

  /** What a card shows as `field op 'value'`, each part with its fallback (`|| 'Unknown'`, `|| '=='`). */
  function CardHeadline(p: Parsed): (r: (string, string, string))
    ensures r.0 != [] && r.1 != [] && |r.2| >= 3
    ensures (r.0 == "Unknown") == (p.field == [] || p.field == "Unknown")
  {
    (if p.field != [] then p.field else "Unknown",
     if p.operator != [] then p.operator else "==",
     "'" + (if p.value != [] then p.value else "Unknown") + "'")
  }

  // ---- search and filters ----

  /** `parsedConditions`: each condition with its headline. */
  function Headline(c: Condition): Parsed
  {
    ParseExpression(c.expression)
  }

  /** `matchesSearch`: the lower-cased query occurs in the lower-cased name, field or value. */
  predicate MatchesSearch(c: Condition, query: string)
  {
    Contains(ToLower(c.name), ToLower(query)) || Contains(ToLower(Headline(c).field), ToLower(query)) ||
    Contains(ToLower(Headline(c).value), ToLower(query))
  }

  /** `matchesIfField`. */
  predicate MatchesIfField(c: Condition, ifField: string)
  {
    ifField == "all" || Headline(c).field == ifField
  }

  /** `condition.effects.some(e => e.fields.includes(target))`. */
  predicate HasTarget(c: Condition, target: string)
  {
    exists j :: 0 <= j < |c.effects| && target in c.effects[j].fields
  }

  /** `matchesTargetField`. */
  predicate MatchesTarget(c: Condition, target: string)
  {
    target == "all" || HasTarget(c, target)
  }

  predicate Shown(c: Condition, query: string, ifField: string, target: string)
  {
    MatchesSearch(c, query) && MatchesIfField(c, ifField) && MatchesTarget(c, target)
  }

  /** `filter(keep)`. */
  function Select(cs: seq<Condition>, keep: Condition -> bool): (r: seq<Condition>)
    ensures |r| <= |cs|
  {
    if cs == [] then [] else (if keep(cs[0]) then [cs[0]] else []) + Select(cs[1..], keep)
  }

  /** `filteredConditions`. */
  function Filtered(cs: seq<Condition>, query: string, ifField: string, target: string): seq<Condition>
  {
    Select(cs, c => Shown(c, query, ifField, target))
  }

  lemma {:induction false} SelectMembers(cs: seq<Condition>, keep: Condition -> bool, c: Condition)
    ensures c in Select(cs, keep) <==> c in cs && keep(c)
  {
    if cs != [] {
      SelectMembers(cs[1..], keep, c);
      assert c in cs <==> c == cs[0] || c in cs[1..];
    }
  }

  /** A condition is listed iff it is one of the conditions and passes all three tests. */
  lemma FilteredMembers(cs: seq<Condition>, query: string, ifField: string, target: string, c: Condition)
    ensures c in Filtered(cs, query, ifField, target) <==> c in cs && Shown(c, query, ifField, target)
  {
    SelectMembers(cs, c => Shown(c, query, ifField, target), c);
  }

  lemma {:induction false} SelectConcat(a: seq<Condition>, b: seq<Condition>, keep: Condition -> bool)
    ensures Select(a + b, keep) == Select(a, keep) + Select(b, keep)
  {
    if a == [] {
      assert a + b == b;
    } else {
      var h := if keep(a[0]) then [a[0]] else [];
      assert (a + b)[0] == a[0] && (a + b)[1..] == a[1..] + b;
      assert Select(a + b, keep) == h + Select(a[1..] + b, keep);
      SelectConcat(a[1..], b, keep);
      assert h + (Select(a[1..], keep) + Select(b, keep)) == (h + Select(a[1..], keep)) + Select(b, keep);
    }
  }

  /** The filter keeps the order of the list: filtering a concatenation filters each part. */
  lemma FilteredConcat(a: seq<Condition>, b: seq<Condition>, query: string, ifField: string, target: string)
    ensures Filtered(a + b, query, ifField, target) == Filtered(a, query, ifField, target) + Filtered(b, query, ifField, target)
  {
    SelectConcat(a, b, c => Shown(c, query, ifField, target));
  }

  lemma {:induction false} SelectAll(cs: seq<Condition>, keep: Condition -> bool)
    requires forall i :: 0 <= i < |cs| ==> keep(cs[i])
    ensures Select(cs, keep) == cs
  {
    if cs != [] {
      assert keep(cs[0]);
      SelectAll(cs[1..], keep);
    }
  }

  /** The empty string occurs in every text. */
  lemma ContainsEmpty(s: string)
    ensures Contains(s, "")
  {
    assert StartsAt(s, 0, "");
  }

  /** With an empty query and both filters at `all`, every condition is listed. */
  lemma NoFilterShowsAll(cs: seq<Condition>)
    ensures Filtered(cs, "", "all", "all") == cs
  {
    forall i | 0 <= i < |cs| ensures Shown(cs[i], "", "all", "all") {
      ContainsEmpty(ToLower(cs[i].name));
    }
    SelectAll(cs, c => Shown(c, "", "all", "all"));
  }

  /** Lower-casing twice is lower-casing once. */
  lemma ToLowerIdempotent(s: string)
    ensures ToLower(ToLower(s)) == ToLower(s)
  {
    var l := ToLower(s);
    assert forall i :: 0 <= i < |l| ==> LowerChar(l[i]) == l[i];
  }

  /** The search ignores the case of the query. */
  lemma SearchIgnoresCase(c: Condition, query: string)
    ensures MatchesSearch(c, ToLower(query)) == MatchesSearch(c, query)
  {
    ToLowerIdempotent(query);
  }

  // ---- filter options: `Array.from(new Set(xs)).sort()` ----

  function Elems(s: seq<string>): set<string>
  {
    set y | y in s
  }

  lemma ElemsConcat(a: seq<string>, b: seq<string>)
    ensures Elems(a + b) == Elems(a) + Elems(b)
  {
  }

  /** Increasing in the order `sort()` uses, hence free of repeats. */
  predicate StrictlySorted(s: seq<string>)
  {
    forall i, j :: 0 <= i < j < |s| ==> Less(s[i], s[j])
  }

  /** A strictly sorted list stays so with an element in front below all of it. */
  lemma ConsSorted(h: string, s: seq<string>)
    requires StrictlySorted(s) && forall y :: y in s ==> Less(h, y)
    ensures StrictlySorted([h] + s)
  {
    var r := [h] + s;
    forall i, j | 0 <= i < j < |r| ensures Less(r[i], r[j]) {
      assert r[j] == s[j - 1];
      if i > 0 {
        assert r[i] == s[i - 1];
      }
    }
  }

  /** The head of a strictly sorted list is below everything after it. */
  lemma HeadBelow(s: seq<string>, y: string)
    requires StrictlySorted(s) && s != [] && y in s[1..]
    ensures Less(s[0], y)
  {
    var k :| 0 <= k < |s[1..]| && s[1..][k] == y;
    assert s[k + 1] == y;
  }

  /** Puts `x` at its place in a strictly sorted list, unless it is already there. */
  function Insert(s: seq<string>, x: string): (r: seq<string>)
    requires StrictlySorted(s)
    ensures StrictlySorted(r) && Elems(r) == Elems(s) + {x}
  {
    if s == [] then [x]
    else if x == s[0] then s
    else if Less(x, s[0]) then
      assert forall y :: y in s ==> Less(x, y) by {
        forall y | y in s ensures Less(x, y) {
          if y != s[0] {
            LessTransitive(x, s[0], y);
          }
        }
      }
      ConsSorted(x, s);
      [x] + s
    else
      var r' := Insert(s[1..], x);
      LessTotal(x, s[0]);
      assert forall y :: y in r' ==> Less(s[0], y) by {
        assert Elems(r') == Elems(s[1..]) + {x};
        forall y | y in r' ensures Less(s[0], y) {
          assert y in Elems(r');
          if y != x {
            assert y in Elems(s[1..]);
            HeadBelow(s, y);
          }
        }
      }
      ConsSorted(s[0], r');
      assert Elems(s) == {s[0]} + Elems(s[1..]) by {
        assert s == [s[0]] + s[1..];
      }
      assert Elems([s[0]] + r') == {s[0]} + Elems(r');
      [s[0]] + r'
  }

  /** The distinct elements of `xs` in increasing order. */
  function SortedSet(xs: seq<string>): (r: seq<string>)
    ensures StrictlySorted(r) && Elems(r) == Elems(xs)
  {
    if xs == [] then []
    else
      assert Elems(xs) == Elems(xs[1..]) + {xs[0]} by {
        assert xs == [xs[0]] + xs[1..];
      }
      Insert(SortedSet(xs[1..]), xs[0])
  }

  /** A strictly sorted list has no repeats, so it has as many elements as its set. */
  lemma {:induction false} SortedCard(s: seq<string>)
    requires StrictlySorted(s)
    ensures |Elems(s)| == |s|
  {
    if s != [] {
      assert StrictlySorted(s[1..]);
      SortedCard(s[1..]);
      assert s[0] !in s[1..] by {
        if s[0] in s[1..] {
          HeadBelow(s, s[0]);
          LessIrreflexive(s[0]);
        }
      }
      assert Elems(s) == {s[0]} + Elems(s[1..]) by {
        assert s == [s[0]] + s[1..];
      }
    }
  }

  /** The non-empty headline fields, in list order (`map(c => c.parsed?.field).filter(Boolean)`). */
  function HeadlineFields(cs: seq<Condition>): (r: seq<string>)
  {
    if cs == [] then []
    else (if Headline(cs[0]).field != [] then [Headline(cs[0]).field] else []) + HeadlineFields(cs[1..])
  }

  /** The target fields of the effects, in order (`flatMap(c => c.effects.flatMap(e => e.fields))`). */
  function EffectFields(es: seq<Effect>): seq<string>
  {
    if es == [] then [] else es[0].fields + EffectFields(es[1..])
  }

  function TargetFields(cs: seq<Condition>): seq<string>
  {
    if cs == [] then [] else EffectFields(cs[0].effects) + TargetFields(cs[1..])
  }

  /** `ifFieldOptions`. */
  function IfFieldOptions(cs: seq<Condition>): seq<string>
  {
    SortedSet(HeadlineFields(cs))
  }

  /** `targetFieldOptions`. */
  function TargetFieldOptions(cs: seq<Condition>): seq<string>
  {
    SortedSet(TargetFields(cs))
  }

  lemma {:induction false} HeadlineFieldsMembers(cs: seq<Condition>, f: string)
    ensures f in HeadlineFields(cs) <==> f != [] && exists i :: 0 <= i < |cs| && Headline(cs[i]).field == f
  {
    if cs != [] {
      HeadlineFieldsMembers(cs[1..], f);
      if f != [] && Headline(cs[0]).field != f && exists i :: 0 <= i < |cs| && Headline(cs[i]).field == f {
        var i :| 0 <= i < |cs| && Headline(cs[i]).field == f;
        assert Headline(cs[1..][i - 1]).field == f;
      }
      if exists i :: 0 <= i < |cs[1..]| && Headline(cs[1..][i]).field == f {
        var i :| 0 <= i < |cs[1..]| && Headline(cs[1..][i]).field == f;
        assert Headline(cs[i + 1]).field == f;
      }
    }
  }

  lemma {:induction false} EffectFieldsMembers(es: seq<Effect>, f: string)
    ensures f in EffectFields(es) <==> exists j :: 0 <= j < |es| && f in es[j].fields
  {
    if es != [] {
      EffectFieldsMembers(es[1..], f);
      if f !in es[0].fields && exists j :: 0 <= j < |es| && f in es[j].fields {
        var j :| 0 <= j < |es| && f in es[j].fields;
        assert f in es[1..][j - 1].fields;
      }
      if exists j :: 0 <= j < |es[1..]| && f in es[1..][j].fields {
        var j :| 0 <= j < |es[1..]| && f in es[1..][j].fields;
        assert f in es[j + 1].fields;
      }
    }
  }

  lemma {:induction false} TargetFieldsMembers(cs: seq<Condition>, f: string)
    ensures f in TargetFields(cs) <==> exists i :: 0 <= i < |cs| && HasTarget(cs[i], f)
  {
    if cs != [] {
      TargetFieldsMembers(cs[1..], f);
      EffectFieldsMembers(cs[0].effects, f);
      if !HasTarget(cs[0], f) && exists i :: 0 <= i < |cs| && HasTarget(cs[i], f) {
        var i :| 0 <= i < |cs| && HasTarget(cs[i], f);
        assert HasTarget(cs[1..][i - 1], f);
      }
      if exists i :: 0 <= i < |cs[1..]| && HasTarget(cs[1..][i], f) {
        var i :| 0 <= i < |cs[1..]| && HasTarget(cs[1..][i], f);
        assert HasTarget(cs[i + 1], f);
      }
    }
  }

  /** The if-field options are sorted, without repeats, and are exactly the non-empty headline fields. */
  lemma IfFieldOptionsShape(cs: seq<Condition>, f: string)
    ensures StrictlySorted(IfFieldOptions(cs))
    ensures f in IfFieldOptions(cs) <==> f != [] && exists i :: 0 <= i < |cs| && Headline(cs[i]).field == f
  {
    HeadlineFieldsMembers(cs, f);
    assert f in IfFieldOptions(cs) <==> f in Elems(HeadlineFields(cs));
  }

  /** The target options are sorted, without repeats, and are exactly the fields some effect targets. */
  lemma TargetFieldOptionsShape(cs: seq<Condition>, f: string)
    ensures StrictlySorted(TargetFieldOptions(cs))
    ensures f in TargetFieldOptions(cs) <==> exists i :: 0 <= i < |cs| && HasTarget(cs[i], f)
  {
    TargetFieldsMembers(cs, f);
    assert f in TargetFieldOptions(cs) <==> f in Elems(TargetFields(cs));
  }

  /** Picking any offered target field, with no query and no if-field filter, lists something. */
  lemma TargetOptionSelects(cs: seq<Condition>, f: string)
    requires f in TargetFieldOptions(cs)
    ensures Filtered(cs, "", "all", f) != []
  {
    TargetFieldOptionsShape(cs, f);
    var i :| 0 <= i < |cs| && HasTarget(cs[i], f);
    ContainsEmpty(ToLower(cs[i].name));
    FilteredMembers(cs, "", "all", f, cs[i]);
  }

  /** Picking any offered if-field, with no query and no target filter, lists something. */
  lemma IfOptionSelects(cs: seq<Condition>, f: string)
    requires f in IfFieldOptions(cs)
    ensures Filtered(cs, "", f, "all") != []
  {
    IfFieldOptionsShape(cs, f);
    var i :| 0 <= i < |cs| && Headline(cs[i]).field == f;
    ContainsEmpty(ToLower(cs[i].name));
    FilteredMembers(cs, "", f, "all", cs[i]);
  }

  // ---- statistics ----

  /** "Active Effects": `reduce((acc, c) => acc + c.effects.length, 0)`. */
  function ActiveEffects(cs: seq<Condition>): nat
  {
    if cs == [] then 0 else |cs[0].effects| + ActiveEffects(cs[1..])
  }

  /** "Unique Fields": the size of the set of target fields. */
  function UniqueFields(cs: seq<Condition>): nat
  {
    |Elems(TargetFields(cs))|
  }

  /** The three figures above the list. */
  datatype Stats = Stats(total: nat, effects: nat, uniqueFields: nat)

  /** The figures are taken over the listed conditions, not over all of them. */
  function DashboardStats(cs: seq<Condition>, query: string, ifField: string, target: string): Stats
  {
    var shown := Filtered(cs, query, ifField, target);
    Stats(|shown|, ActiveEffects(shown), UniqueFields(shown))
  }

  /** On one list, the number of unique fields is the number of target options. */
  lemma UniqueFieldsAreOptions(cs: seq<Condition>)
    ensures UniqueFields(cs) == |TargetFieldOptions(cs)|
  {
    SortedCard(TargetFieldOptions(cs));
  }

  lemma {:induction false} ActiveEffectsConcat(a: seq<Condition>, b: seq<Condition>)
    ensures ActiveEffects(a + b) == ActiveEffects(a) + ActiveEffects(b)
  {
    if a == [] {
      assert a + b == b;
    } else {
      assert (a + b)[0] == a[0] && (a + b)[1..] == a[1..] + b;
      ActiveEffectsConcat(a[1..], b);
    }
  }

  lemma {:induction false} SelectEffects(cs: seq<Condition>, keep: Condition -> bool)
    ensures ActiveEffects(Select(cs, keep)) <= ActiveEffects(cs)
    ensures Elems(TargetFields(Select(cs, keep))) <= Elems(TargetFields(cs))
  {
    if cs != [] {
      var h := if keep(cs[0]) then [cs[0]] else [];
      var rest := Select(cs[1..], keep);
      assert Select(cs, keep) == h + rest;
      SelectEffects(cs[1..], keep);
      ActiveEffectsConcat(h, rest);
      TargetFieldsConcat(h, rest);
      if h != [] {
        assert h[1..] == [];
        assert TargetFields(h) == EffectFields(cs[0].effects) + [];
      }
      assert TargetFields(cs) == EffectFields(cs[0].effects) + TargetFields(cs[1..]);
      ElemsConcat(TargetFields(h), TargetFields(rest));
      ElemsConcat(EffectFields(cs[0].effects), TargetFields(cs[1..]));
    }
  }

  lemma {:induction false} TargetFieldsConcat(a: seq<Condition>, b: seq<Condition>)
    ensures TargetFields(a + b) == TargetFields(a) + TargetFields(b)
  {
    if a == [] {
      assert a + b == b;
    } else {
      assert (a + b)[0] == a[0] && (a + b)[1..] == a[1..] + b;
      TargetFieldsConcat(a[1..], b);
    }
  }

  lemma SubsetCard(a: set<string>, b: set<string>)
    requires a <= b
    ensures |a| <= |b|
    decreases a
  {
    if a != {} {
      var x :| x in a;
      SubsetCard(a - {x}, b - {x});
      assert |a - {x}| == |a| - 1 && |b - {x}| == |b| - 1;
    }
  }

  /** Filtering never raises a figure: at most the conditions, effects and fields of the whole list. */
  lemma StatsBounds(cs: seq<Condition>, query: string, ifField: string, target: string)
    ensures DashboardStats(cs, query, ifField, target).total <= |cs|
    ensures DashboardStats(cs, query, ifField, target).effects <= ActiveEffects(cs)
    ensures DashboardStats(cs, query, ifField, target).uniqueFields <= |TargetFieldOptions(cs)|
  {
    SelectEffects(cs, c => Shown(c, query, ifField, target));
    UniqueFieldsAreOptions(cs);
    SubsetCard(Elems(TargetFields(Filtered(cs, query, ifField, target))), Elems(TargetFields(cs)));
  }

  /** With no query and no filter, the figures are those of the whole list. */
  lemma UnfilteredStats(cs: seq<Condition>)
    ensures DashboardStats(cs, "", "all", "all") == Stats(|cs|, ActiveEffects(cs), |TargetFieldOptions(cs)|)
  {
    NoFilterShowsAll(cs);
    UniqueFieldsAreOptions(cs);
  }

  // ---- allowed values of an effect card ----

  /** The badges of the allowed values: the first four, then `+n more` for the `n` others. */
  function ValueBadges(values: seq<string>): (r: seq<string>)
    ensures |values| <= 4 ==> r == values
    ensures |values| > 4 ==> |r| == 5 && r[..4] == values[..4] && r[4] == "+" + NatToString(|values| - 4) + " more"
  {
    if |values| > 4 then values[..4] + ["+" + NatToString(|values| - 4) + " more"] else values
  }

  /** The count badge tells how many values are not shown: different lengths beyond four give
    * different count badges. */
  lemma ValueBadgesCount(a: seq<string>, b: seq<string>)
    requires |a| > 4 && |b| > 4 && ValueBadges(a)[4] == ValueBadges(b)[4]
    ensures |a| == |b|
  {
    var x, y := NatToString(|a| - 4), NatToString(|b| - 4);
    assert "+" + x + " more" == "+" + y + " more";
    assert x == ("+" + x + " more")[1..1 + |x|];
    assert |x| == |y|;
    assert y == ("+" + y + " more")[1..1 + |y|];
    NatToStringInjective(|a| - 4, |b| - 4);
  }
}

