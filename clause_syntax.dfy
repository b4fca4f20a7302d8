/**
 * The clause syntax shared by the graph editor and the sentence view: the
 * pattern `/(.+?)\s*(==|!=|>|<|>=|<=)\s*(.+)/` that both use to split a
 * clause into field, operator and value, and the quoting rule
 * `/[\s']/.test(v) ? "'" + v + "'" : v` that both generators apply.
 */
module ClauseSyntax {
  import opened Wrappers
  import opened Text
  import opened Regex

  /** The operator alternation, in the order the pattern tries it. */
  const Operators: seq<string> := ["==", "!=", ">", "<", ">=", "<="]

  /** The four operators that the alternation order lets through unchanged. */
  predicate PrimaryOperator(op: string)
  {
    op == "==" || op == "!=" || op == ">" || op == "<"
  }

  /** `/(.+?)\s*(==|!=|>|<|>=|<=)\s*(.+)/`. */
  const ClauseRe: Pattern :=
    [Plus(NotNewline, true, true), Star(Space), Alt(Operators, true), Star(Space), Plus(NotNewline, false, true)]

  predicate IsOperatorChar(c: char)
  {
    c == '=' || c == '!' || c == '<' || c == '>'
  }

  predicate NoOperatorChar(s: string)
  {
    forall i :: 0 <= i < |s| ==> !IsOperatorChar(s[i])
  }

  predicate NoLineBreak(s: string)
  {
    forall i :: 0 <= i < |s| ==> !IsLineTerminator(s[i])
  }

  /** `/[\s']/.test(v)`. */
  predicate NeedsQuotes(v: string)
  {
    exists i :: 0 <= i < |v| && (IsSpace(v[i]) || v[i] == '\'')
  }

  function Quote(v: string): string
  {
    if NeedsQuotes(v) then "'" + v + "'" else v
  }

  /** The clause text `${field} ${operator} ${quotedValue}`. */
  function Clause(field: string, op: string, value: string): string
  {
    field + " " + op + " " + Quote(value)
  }

  /** A field the lazy field group cannot run past: no operator character, no white space. */
  predicate PlainField(f: string)
  {
    f != [] && NoSpace(f) && NoOperatorChar(f)
  }

  /** The text the final `(.+)` group takes: it must start after the optional spaces and stay on one line. */
  predicate PlainTail(u: string)
  {
    u != [] && !IsSpace(u[0]) && NoLineBreak(u)
  }

  /**
   * The three groups of the first match of `ClauseRe` in `t` (`expression.match(...)`).
   * The contract is a helper fact for the lemmas below; what a match yields is stated by
   * `ClauseRoundTrip`, `LongClauseCaptures` and `NoOperatorNoClause`.
   */
  function ClauseCaptures(t: string): (r: Option<seq<string>>)
    ensures r.Some? ==> |r.value| == 3
    ensures r.None? <==> Find(ClauseRe, t).None?
  {
    match Find(ClauseRe, t)
    case None => None
    case Some(m) =>
      SearchCapCount(ClauseRe, t, 0);
      ClauseCapCount();
      Some(m.caps)
  }

  /** Helper fact: the clause pattern has three capture groups. */
  lemma ClauseCapCount()
    ensures CapCount(ClauseRe) == 3
  {
    assert ClauseRe[4..][1..] == [];
    assert CapCount(ClauseRe[4..]) == 1;
    assert ClauseRe[3..][1..] == ClauseRe[4..];
    assert CapCount(ClauseRe[3..]) == 1;
    assert ClauseRe[2..][1..] == ClauseRe[3..];
    assert CapCount(ClauseRe[2..]) == 2;
    assert ClauseRe[1..][1..] == ClauseRe[2..];
    assert CapCount(ClauseRe[1..]) == 2;
  }

  lemma RunEndAtMost(k: Class, t: string, i: nat, j: nat)
    requires i <= j < |t| && !InClass(k, t[j])
    ensures RunEnd(k, t, i) <= j
  {
  }

  lemma RunEndIs(k: Class, t: string, i: nat, j: nat)
    requires i <= j <= |t|
    requires forall x :: i <= x < j ==> InClass(k, t[x])
    requires j == |t| || !InClass(k, t[j])
    ensures RunEnd(k, t, i) == j
    decreases j - i
  {
    if i < j {
      RunEndIs(k, t, i + 1, j);
    }
  }

  /** The operator group only ever starts on an operator character. */
  lemma OperatorStart(t: string, i: nat)
    requires i <= |t| && Accepts(ClauseRe[2..], t, i)
    ensures i < |t| && IsOperatorChar(t[i])
  {
    AcceptsAlt(ClauseRe[2..], t, i);
    assert ClauseRe[2..][0].alts == Operators;
    var a :| 0 <= a < |Operators| && StartsAt(t, i, Operators[a]) && Accepts(ClauseRe[3..], t, i + |Operators[a]|);
    assert IsOperatorChar(Operators[a][0]);
    assert t[i] == t[i..i + |Operators[a]|][0];
  }

  /** A match of the whole clause pattern at `s` reaches an operator character. */
  lemma ClauseNeedsOperator(t: string, s: nat)
    requires s <= |t| && Accepts(ClauseRe, t, s)
    ensures exists j :: s < j < |t| && IsOperatorChar(t[j])
  {
    AcceptsRep(ClauseRe, t, s);
    var m :| s + 1 <= m <= RunEnd(NotNewline, t, s) && Accepts(ClauseRe[1..], t, m);
    assert ClauseRe[1..][1..] == ClauseRe[2..];
    AcceptsRep(ClauseRe[1..], t, m);
    var m2 :| m <= m2 <= RunEnd(Space, t, m) && Accepts(ClauseRe[2..], t, m2);
    OperatorStart(t, m2);
  }

  /** A text without any of `= ! < >` has no clause at all. */
  lemma NoOperatorNoClause(t: string)
    requires NoOperatorChar(t)
    ensures Find(ClauseRe, t) == None
    ensures ClauseCaptures(t) == None
  {
    forall s | 0 <= s <= |t| ensures !Accepts(ClauseRe, t, s) {
      if Accepts(ClauseRe, t, s) {
        ClauseNeedsOperator(t, s);
      }
    }
    SearchNone(ClauseRe, t, 0);
  }

  /** Text the lazy field group takes whole: no operator character, no line break, and not
    * ending in white space (so the spaces before the operator are left to `\s*`). */
  predicate FieldText(F: string)
  {
    F != [] && NoOperatorChar(F) && NoLineBreak(F) && !IsSpace(F[|F| - 1])
  }

  /** The lazy field group cannot stop before the end of a field text. */
  lemma FieldStops(t: string, F: string)
    requires |F| < |t| && t[..|F|] == F && FieldText(F)
    ensures forall m :: 0 < m < |F| ==> !Accepts(ClauseRe[1..], t, m)
  {
    assert t[|F| - 1] == F[|F| - 1];
    assert forall x :: 0 <= x < |F| ==> t[x] == F[x];
    forall m | 0 < m < |F| ensures !Accepts(ClauseRe[1..], t, m) {
      RunEndAtMost(Space, t, m, |F| - 1);
      if Accepts(ClauseRe[1..], t, m) {
        assert ClauseRe[1..][1..] == ClauseRe[2..];
        AcceptsRep(ClauseRe[1..], t, m);
        var m2 :| m <= m2 <= RunEnd(Space, t, m) && Accepts(ClauseRe[2..], t, m2);
        OperatorStart(t, m2);
      }
    }
  }

  /** Leading white space followed by a plain field is a field text. */
  lemma LeadFieldText(lead: string, f: string)
    requires AllSpace(lead) && NoLineBreak(lead) && PlainField(f)
    ensures FieldText(lead + f)
  {
    var F := lead + f;
    assert F[|F| - 1] == f[|f| - 1];
    forall i | 0 <= i < |F| ensures !IsOperatorChar(F[i]) && !IsLineTerminator(F[i]) {
      if i >= |lead| {
        assert F[i] == f[i - |lead|];
      } else {
        assert F[i] == lead[i];
      }
    }
  }

  /** The position of a primary operator in the alternation, which no earlier alternative shadows. */
  lemma PrimaryIndex(op: string) returns (a: nat)
    requires PrimaryOperator(op)
    ensures a < 4 && Operators[a] == op
    ensures forall b :: 0 <= b < a ==> Operators[b][0] != op[0]
  {
    a := if op == "==" then 0 else if op == "!=" then 1 else if op == ">" then 2 else 3;
  }

  /** The greedy value group `(.+)` takes the rest of a text without line breaks. */
  lemma ValueGroup(t: string, p: nat, c: seq<string>)
    requires p < |t| && NoLineBreak(t[p..])
    ensures Match(ClauseRe[4..], t, p, c) == Some(Res(|t|, c + [t[p..]]))
  {
    var T4 := ClauseRe[4..];
    assert T4[1..] == [];
    assert T4[0] == Plus(NotNewline, false, true);
    assert forall x :: p <= x < |t| ==> t[x] == t[p..][x - p];
    RunEndIs(NotNewline, t, p, |t|);
    MatchGreedy(T4, t, p, |t|, c);
    assert t[p..|t|] == t[p..];
    assert Match([], t, |t|, c + [t[p..]]) == Some(Res(|t|, c + [t[p..]]));
  }

  /** After the operator: one space, then the value group takes the rest of the line. */
  lemma TailMatch(t: string, p: nat, c: seq<string>)
    requires p < |t| && t[p] == ' ' && PlainTail(t[p + 1..])
    ensures Match(ClauseRe[3..], t, p, c) == Some(Res(|t|, c + [t[p + 1..]]))
  {
    ValueGroup(t, p + 1, c);
    MatchAccepts(ClauseRe[4..], t, p + 1, c);
    var T3 := ClauseRe[3..];
    assert T3[1..] == ClauseRe[4..];
    assert t[p + 1] == t[p + 1..][0];
    RunEndIs(Space, t, p, p + 1);
    assert T3[0] == Star(Space);
    MatchGreedy(T3, t, p, p + 1, c);
  }

  /** After the operator, with no space: the value group starts right there. */
  lemma TailMatchTight(t: string, p: nat, c: seq<string>)
    requires p < |t| && PlainTail(t[p..])
    ensures Match(ClauseRe[3..], t, p, c) == Some(Res(|t|, c + [t[p..]]))
  {
    ValueGroup(t, p, c);
    MatchAccepts(ClauseRe[4..], t, p, c);
    var T3 := ClauseRe[3..];
    assert T3[1..] == ClauseRe[4..];
    assert t[p] == t[p..][0];
    RunEndIs(Space, t, p, p);
    assert T3[0] == Star(Space);
    MatchGreedy(T3, t, p, p, c);
  }

  /** From the space before a primary operator: the operator group takes it, the value group the tail. */
  lemma OperatorMatch(t: string, m: nat, op: string, c: seq<string>)
    requires PrimaryOperator(op) && m + 2 + |op| <= |t| && t[m] == ' ' && StartsAt(t, m + 1, op)
    requires t[m + 1 + |op|] == ' ' && PlainTail(t[m + 2 + |op|..])
    ensures Match(ClauseRe[1..], t, m, c) == Some(Res(|t|, c + [op, t[m + 2 + |op|..]]))
  {
    OperatorGroupMatch(t, m + 1, op, c);
    MatchAccepts(ClauseRe[2..], t, m + 1, c);
    assert t[m + 1] == t[m + 1..m + 1 + |op|][0];
    BlankBeforeOperator(t, m, c);
  }

  /** One blank before the operator: the `\s*` group takes it and the rest matches from there. */
  lemma BlankBeforeOperator(t: string, m: nat, c: seq<string>)
    requires m + 1 < |t| && t[m] == ' ' && !IsSpace(t[m + 1]) && Accepts(ClauseRe[2..], t, m + 1)
    ensures Match(ClauseRe[1..], t, m, c) == Match(ClauseRe[2..], t, m + 1, c)
  {
    var T1 := ClauseRe[1..];
    assert T1[1..] == ClauseRe[2..];
    assert T1[0] == Star(Space);
    RunEndIs(Space, t, m, m + 1);
    MatchGreedy(T1, t, m, m + 1, c);
  }

  /** From a primary operator: the operator group takes it, the value group the tail after the blank. */
  lemma OperatorGroupMatch(t: string, i: nat, op: string, c: seq<string>)
    requires PrimaryOperator(op) && i + 1 + |op| <= |t| && StartsAt(t, i, op)
    requires t[i + |op|] == ' ' && PlainTail(t[i + 1 + |op|..])
    ensures Match(ClauseRe[2..], t, i, c) == Some(Res(|t|, c + [op, t[i + 1 + |op|..]]))
  {
    var p := i + |op|;
    var u := t[p + 1..];
    var T3 := ClauseRe[3..];
    TailMatch(t, p, c + [op]);
    assert c + [op] + [u] == c + [op, u];
    MatchAccepts(T3, t, p, c + [op]);
    var T2 := ClauseRe[2..];
    assert T2[1..] == T3;
    assert T2[0] == Alt(Operators, true);
    var a := PrimaryIndex(op);
    OperatorAlternative(t, i, op, a);
    MatchAlt(T2, t, i, a, c);
  }

  /** No alternative before `op` fits where `op` starts. */
  lemma OperatorAlternative(t: string, i: nat, op: string, a: nat)
    requires PrimaryOperator(op) && StartsAt(t, i, op) && a < 4 && Operators[a] == op
    requires forall b :: 0 <= b < a ==> Operators[b][0] != op[0]
    ensures forall b :: 0 <= b < a ==> !StartsAt(t, i, Operators[b])
  {
    assert t[i] == t[i..i + |op|][0] == op[0];
    assert forall b :: 0 <= b < a ==> !StartsAt(t, i, Operators[b]);
  }

  /** The clause pattern on `field op tail`: the field group takes the field text, the operator
    * group takes `op`, the value group the whole tail. */
  lemma ClauseMatch(F: string, op: string, u: string)
    requires FieldText(F) && PrimaryOperator(op) && PlainTail(u)
    ensures ClauseCaptures(F + " " + op + " " + u) == Some([F, op, u])
  {
    var t := F + " " + op + " " + u;
    var m := |F|;
    assert t[..m] == F;
    assert t[m] == ' ' && t[m + 1..m + 1 + |op|] == op && t[m + 1 + |op|] == ' ' && t[m + 2 + |op|..] == u;
    OperatorMatch(t, m, op, [F]);
    assert [F] + [op, u] == [F, op, u];
    FieldGroup(t, F, [op, u]);
  }

  /** Once the rest of the pattern matches after a field text, the lazy field group takes exactly it. */
  lemma FieldGroup(t: string, F: string, rest: seq<string>)
    requires |F| < |t| && t[..|F|] == F && FieldText(F)
    requires Match(ClauseRe[1..], t, |F|, [F]) == Some(Res(|t|, [F] + rest))
    ensures ClauseCaptures(t) == Some([F] + rest)
  {
    var m := |F|;
    FieldStops(t, F);
    MatchAccepts(ClauseRe[1..], t, m, [F]);
    forall x | 0 <= x < m ensures InClass(NotNewline, t[x]) {
      assert t[x] == F[x];
    }
    assert ClauseRe[0] == Plus(NotNewline, true, true);
    MatchLazy(ClauseRe, t, 0, m, []);
    assert t[0..m] == F;
    assert Keep(ClauseRe[0], [], F) == [F];
    assert Match(ClauseRe, t, 0, []) == Some(Res(|t|, [F] + rest));
    SearchFirst(ClauseRe, t, 0, 0);
  }

  /** `>=` and `<=` lose to `>` and `<`, which come first in the alternation: the operator group
    * takes one character and the value group starts with the `=`. */
  lemma OperatorMatchLong(t: string, m: nat, op: string, c: seq<string>)
    requires (op == ">=" || op == "<=") && m + 4 <= |t| && t[m] == ' ' && StartsAt(t, m + 1, op)
    requires t[m + 3] == ' ' && PlainTail(t[m + 4..])
    ensures Match(ClauseRe[1..], t, m, c) == Some(Res(|t|, c + [op[..1], t[m + 2..]]))
  {
    LongAlternative(t, m + 1, op, c);
    MatchAccepts(ClauseRe[2..], t, m + 1, c);
    assert t[m + 1] == t[m + 1..m + 3][0];
    BlankBeforeOperator(t, m, c);
  }

  /** At `>=` or `<=` the alternation settles on `>` or `<`. */
  lemma LongAlternative(t: string, i: nat, op: string, c: seq<string>)
    requires (op == ">=" || op == "<=") && i + 3 <= |t| && StartsAt(t, i, op)
    requires t[i + 2] == ' ' && PlainTail(t[i + 3..])
    ensures Match(ClauseRe[2..], t, i, c) == Some(Res(|t|, c + [op[..1], t[i + 1..]]))
  {
    var short := op[..1];
    var a: nat := if op == ">=" then 2 else 3;
    assert Operators[a] == short;
    assert t[i..i + 2] == op;
    EqualsTail(t, i + 1);
    TailMatchTight(t, i + 1, c + [short]);
    assert c + [short] + [t[i + 1..]] == c + [short, t[i + 1..]];
    assert t[i] == op[0];
    assert StartsAt(t, i, short);
    assert forall b :: 0 <= b < a ==> !StartsAt(t, i, Operators[b]);
    AltStep(t, i, a, c, Res(|t|, c + [short, t[i + 1..]]));
  }

  /** The alternation settles on operator `a` when no earlier one starts there and the rest matches. */
  lemma AltStep(t: string, i: nat, a: nat, c: seq<string>, r: Res)
    requires a < |Operators| && i + |Operators[a]| <= |t| && StartsAt(t, i, Operators[a])
    requires forall b :: 0 <= b < a ==> !StartsAt(t, i, Operators[b])
    requires Match(ClauseRe[3..], t, i + |Operators[a]|, c + [Operators[a]]) == Some(r)
    ensures Match(ClauseRe[2..], t, i, c) == Some(r)
  {
    MatchAccepts(ClauseRe[3..], t, i + |Operators[a]|, c + [Operators[a]]);
    var T2 := ClauseRe[2..];
    assert T2[1..] == ClauseRe[3..];
    assert T2[0] == Alt(Operators, true);
    MatchAlt(T2, t, i, a, c);
  }

  /** The `= tail` left after a one-character operator is itself a plain tail. */
  lemma EqualsTail(t: string, p: nat)
    requires p + 2 <= |t| && t[p] == '=' && t[p + 1] == ' ' && PlainTail(t[p + 2..])
    ensures PlainTail(t[p..])
  {
    assert t[p..][0] == '=';
    forall x | 0 <= x < |t[p..]| ensures !IsLineTerminator(t[p..][x]) {
      if x >= 2 {
        assert t[p..][x] == t[p + 2..][x - 2];
      }
    }
  }

  /** A clause written with `>=` or `<=` comes back with `>` or `<` and a value starting with `=`. */
  lemma ClauseMatchLong(F: string, op: string, u: string)
    requires FieldText(F) && (op == ">=" || op == "<=") && PlainTail(u)
    ensures ClauseCaptures(F + " " + op + " " + u) == Some([F, op[..1], "= " + u])
  {
    var t := F + " " + op + " " + u;
    var m := |F|;
    assert t[..m] == F;
    assert t[m] == ' ' && t[m + 1..m + 3] == op && t[m + 3] == ' ' && t[m + 4..] == u;
    assert t[m + 2..] == "= " + u;
    OperatorMatchLong(t, m, op, [F]);
    assert [F] + [op[..1], "= " + u] == [F, op[..1], "= " + u];
    FieldGroup(t, F, [op[..1], "= " + u]);
  }

  /** `value.trim().replace(/['"]/g, '')`, the value clean-up of both parsers. */
  function ValueText(raw: string): (v: string)
    ensures NoneOfChars(v, "'\"")
  {
    RemoveChars(Trim(raw), "'\"")
  }

  /** A quoted or bare value written by `Quote` comes back unchanged through `ValueText`. */
  lemma QuoteValueText(v: string)
    requires v != [] && NoneOfChars(v, "'\"")
    ensures ValueText(Quote(v)) == v
  {
    if NeedsQuotes(v) {
      QuotedValueText(v);
    } else {
      TrimFrame([], v, []);
      assert [] + v + [] == v;
    }
  }

  lemma QuotedValueText(v: string)
    requires NoneOfChars(v, "'\"")
    ensures ValueText("'" + v + "'") == v
  {
    var q := "'" + v + "'";
    assert q[0] == '\'' && q[|q| - 1] == '\'';
    TrimFrame([], q, []);
    assert [] + q + [] == q;
    RemoveCharsConcat("'" + v, "'", "'\"");
    RemoveCharsConcat("'", v, "'\"");
    assert RemoveChars("'", "'\"") == [];
  }

  /** A written value neither starts nor ends with white space. */
  lemma QuoteEnds(v: string)
    requires v != []
    ensures Quote(v) != [] && !IsSpace(Quote(v)[0]) && !IsSpace(Quote(v)[|Quote(v)| - 1])
  {
    if !NeedsQuotes(v) {
      assert !IsSpace(v[0]) && !IsSpace(v[|v| - 1]);
    }
  }

  /** A value text behind a fixed, quote-free prefix cleans to the prefix and the cleaned text. */
  lemma PrefixValueText(p: string, u: string, v: string)
    requires p != [] && !IsSpace(p[0]) && NoneOfChars(p, "'\"")
    requires u != [] && !IsSpace(u[|u| - 1]) && RemoveChars(u, "'\"") == v
    ensures ValueText(p + u) == p + v
  {
    var w := p + u;
    assert w[0] == p[0] && w[|w| - 1] == u[|u| - 1];
    TrimEnds(w);
    RemoveCharsKeepsPrefix(p, u, "'\"");
  }

  /** After `>=` or `<=` the value group holds `= ` and the written value, which cleans to `= v`. */
  lemma EqualsValueText(v: string)
    requires v != [] && NoneOfChars(v, "'\"")
    ensures ValueText("= " + Quote(v)) == "= " + v
  {
    var u := Quote(v);
    QuoteEnds(v);
    TrimEnds(u);
    QuoteValueText(v);
    PrefixValueText("= ", u, v);
  }

  /** The text a generator writes for a value is one the value group takes whole. */
  lemma QuotePlainTail(v: string)
    requires v != [] && NoLineBreak(v)
    ensures PlainTail(Quote(v))
  {
    if !NeedsQuotes(v) {
      assert !IsSpace(v[0]);
    }
  }

  /** A clause written with `>=` or `<=` splits after the operator's first character. */
  lemma LongClauseCaptures(f: string, op: string, v: string)
    requires PlainField(f) && (op == ">=" || op == "<=")
    requires v != [] && NoLineBreak(v)
    ensures ClauseCaptures(Clause(f, op, v)) == Some([f, op[..1], "= " + Quote(v)])
  {
    QuotePlainTail(v);
    LeadFieldText([], f);
    assert [] + f == f;
    ClauseMatchLong(f, op, Quote(v));
  }

  /** Parsing a written clause gives back its field, operator and cleaned value. */
  lemma ClauseRoundTrip(f: string, op: string, v: string)
    requires PlainField(f) && PrimaryOperator(op)
    requires v != [] && NoLineBreak(v) && NoneOfChars(v, "'\"")
    ensures ClauseCaptures(Clause(f, op, v)) == Some([f, op, Quote(v)])
    ensures Trim(f) == f && ValueText(Quote(v)) == v
  {
    QuotePlainTail(v);
    assert [] + f == f;
    LeadFieldText([], f);
    ClauseMatch(f, op, Quote(v));
    TrimFrame([], f, []);
    assert [] + f + [] == f;
    QuoteValueText(v);
  }
}
