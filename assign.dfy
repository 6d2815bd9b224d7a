/** Variable declaration and assignment in the REPL (main/assign.py, and the
    copy of the same functions in main/javarepl.py).

    The environment is a stack of frames and a map of instance variables; a
    name is looked up in the top frame, then in the instance map.  Declaring
    puts an uninitialised variable into the top frame; assigning evaluates the
    right-hand side, checks the result's Python type against the variable's
    Java type and stores it, and a declaration whose initialiser fails that
    check is taken back.  Expression evaluation is Python's `eval`, given here
    as the parameter `ev`. */
module Assign {
  import opened Wrappers
  import opened PyText
  import opened Constants
  import opened Util

  /** The two copies: main/assign.py, and main/javarepl.py, which accepts a
      one-character str for `char` and stores strings inside double quotes. */
  datatype Draft = AssignModule | ReplModule

  /** A variable's type name and current value. */
  datatype Binding = Binding(dtype: string, value: PyVal)

  type Frame = map<string, Binding>

  /** The stack of frames (innermost last) and the instance variables. */
  datatype Env = Env(frames: seq<Frame>, instance: Frame)

  /** The frame `get_variable_frame` returns: the top of the stack or the
      instance variables. */
  datatype Place = TopFrame | InstanceVars

  /** Python's `eval` of an expression in an environment. */
  type Evaluator = (string, Env) -> Result<PyVal>

  // ---------------------------------------------------------------------------
  // tokenize_assignment_statement.

  const SPACED_EQ: Pattern := [Ws, Lit('='), Ws]
  const SPACED_EQEQ: Pattern := [Ws, Lit('='), Lit(' '), Lit(' '), Lit('='), Ws]
  const SPACED_LE: Pattern := [Ws, Lit('<'), Lit(' '), Lit('='), Ws]
  const SPACED_GE: Pattern := [Ws, Lit('>'), Lit(' '), Lit('='), Ws]
  const SPACED_NE: Pattern := [Ws, Lit('!'), Lit(' '), Lit('='), Ws]
  /** `[^=<>!]=[^=]`: an `=` that is not part of a comparison. */
  const LONE_EQ: Pattern := [NotIn(['=', '<', '>', '!']), Lit('='), NotIn(['='])]

  lemma PatternsSolid()
    ensures Solid(SPACED_EQ) && Solid(SPACED_EQEQ) && Solid(SPACED_LE) && Solid(SPACED_GE)
    ensures Solid(SPACED_NE) && Solid(LONE_EQ)
  {
    assert !SPACED_EQ[1].Ws? && !SPACED_EQEQ[1].Ws? && !SPACED_LE[1].Ws?;
    assert !SPACED_GE[1].Ws? && !SPACED_NE[1].Ws? && !LONE_EQ[1].Ws?;
  }

  /** The five patterns of the padding step. */
  predicate Padding(q: Pattern) {
    q == SPACED_EQ || q == SPACED_EQEQ || q == SPACED_LE || q == SPACED_GE || q == SPACED_NE
  }

  /** One `re.sub` of the padding step. */
  function Pad(q: Pattern, rep: string, s: string): string
    requires Padding(q)
  {
    PatternsSolid();
    Sub(q, rep, s)
  }

  /** Every `=` padded with single spaces, then the comparisons the padding
      tore apart joined again. */
  function Spaced(s: string): string {
    Pad(SPACED_NE, " != ", Pad(SPACED_GE, " >= ", Pad(SPACED_LE, " <= ",
      Pad(SPACED_EQEQ, " == ", Pad(SPACED_EQ, " = ", s)))))
  }

  /** `re.split("[^=<>!]=[^=]", s)`. */
  function SplitLoneEq(s: string): seq<string> {
    PatternsSolid();
    SplitRe(LONE_EQ, s)
  }

  /** `tokenize_assignment_statement`: at least one piece, and a statement
      without `=` is one piece, which the assignment code then refuses. */
  function TokenizeAssignment(s: string): (r: seq<string>)
    ensures |r| >= 1
    ensures '=' !in s ==> r == [s]
  {
    if '=' in s then SplitLoneEq(Spaced(s))
    else
      SpacedWithoutEq(s);
      ComparisonsNotSplit(s);
      SplitLoneEq(Spaced(s))
  }

  lemma NotEqAt(v: string)
    ensures MatchAt([NotIn(['='])], v) == if |v| >= 1 && v[0] != '=' then Some(1) else None
  {
    assert [NotIn(['='])][1..] == [];
  }

  lemma EqNotEqAt(u: string)
    ensures MatchAt([Lit('='), NotIn(['='])], u)
      == if |u| >= 2 && u[0] == '=' && u[1] != '=' then Some(2) else None
  {
    assert [Lit('='), NotIn(['='])][1..] == [NotIn(['='])];
    if u != [] {
      NotEqAt(u[1..]);
    }
  }

  /** Where the lone-`=` pattern matches: three characters, the middle one an
      `=` with no comparison character before it and no `=` after it. */
  lemma LoneEqAt(t: string)
    ensures MatchAt(LONE_EQ, t)
      == if |t| >= 3 && t[0] !in ['=', '<', '>', '!'] && t[1] == '=' && t[2] != '=' then Some(3) else None
  {
    assert LONE_EQ[0] == NotIn(['=', '<', '>', '!']) && LONE_EQ[1..] == [Lit('='), NotIn(['='])];
    if t != [] {
      EqNotEqAt(t[1..]);
    }
  }

  /** No text in which every `=` is part of `==`, `<=`, `>=` or `!=` is
      split. */
  lemma ComparisonsNotSplit(s: string)
    requires forall i :: 0 <= i < |s| - 2 && s[i + 1] == '=' ==> s[i] in ['=', '<', '>', '!'] || s[i + 2] == '='
    ensures SplitLoneEq(s) == [s]
  {
    PatternsSolid();
    forall i | 0 <= i < |s| ensures MatchAt(LONE_EQ, s[i..]).None? {
      LoneEqAt(s[i..]);
    }
    SplitNoMatch(LONE_EQ, s);
  }

  /** A target without `=` and a right-hand side without a lone `=` split at
      the single ` = ` between them. */
  lemma {:induction false} LoneEqSplit(a: string, b: string)
    requires '=' !in a
    requires forall i :: 0 <= i < |b| ==> MatchAt(LONE_EQ, b[i..]).None?
    ensures SplitLoneEq(a + " = " + b) == [a, b]
    decreases |a|
  {
    PatternsSolid();
    var s := a + " = " + b;
    if a == [] {
      assert s == " = " + b;
      LoneEqAt(s);
      assert s[3..] == b;
      SplitNoMatch(LONE_EQ, b);
    } else {
      assert s[0] == a[0] && s[1..] == a[1..] + " = " + b;
      LoneEqAt(s);
      LoneEqSplit(a[1..], b);
      assert [a[0]] + a[1..] == a;
    }
  }

  lemma SubWithoutEq(p: Pattern, rep: string, s: string)
    requires Solid(p) && Lit('=') in p && '=' !in s
    ensures Sub(p, rep, s) == s
  {
    forall i | 0 <= i < |s| ensures MatchAt(p, s[i..]).None? {
      MatchNeedsLit(p, s[i..], '=');
    }
    SubNoMatch(p, rep, s);
  }

  /** Text without `=` passes through the padding untouched. */
  lemma SpacedWithoutEq(s: string)
    requires '=' !in s
    ensures Spaced(s) == s
  {
    PatternsSolid();
    assert SPACED_EQ[1] == Lit('=') && SPACED_EQEQ[1] == Lit('=') && SPACED_LE[3] == Lit('=');
    assert SPACED_GE[3] == Lit('=') && SPACED_NE[3] == Lit('=');
    SubWithoutEq(SPACED_EQ, " = ", s);
    SubWithoutEq(SPACED_EQEQ, " == ", s);
    SubWithoutEq(SPACED_LE, " <= ", s);
    SubWithoutEq(SPACED_GE, " >= ", s);
    SubWithoutEq(SPACED_NE, " != ", s);
  }

  /** Text that may stand before ` = `: no `=`, and no whitespace or comparison
      character at its end. */
  predicate AssignTarget(a: string) {
    '=' !in a && (a == [] || (!IsSpace(a[|a| - 1]) && a[|a| - 1] !in ['<', '>', '!']))
  }

  /** Text that may follow ` = `: no `=`, and no whitespace at its start. */
  predicate AssignValue(b: string) {
    '=' !in b && (b == [] || !IsSpace(b[0]))
  }

  /** In `u + m1 + x + m2 + v` with `u`, `x` and `v` free of `=`, every `=`
      lies in `m1` or `m2`. */
  lemma EqInSeparators(u: string, m1: string, x: string, m2: string, v: string, p: nat)
    requires '=' !in u && '=' !in x && '=' !in v
    requires p < |u + m1 + x + m2 + v| && (u + m1 + x + m2 + v)[p] == '='
    ensures (|u| <= p < |u| + |m1| && m1[p - |u|] == '=')
         || (|u + m1 + x| <= p < |u + m1 + x + m2| && m2[p - |u + m1 + x|] == '=')
  {
  }

  /** A pattern `\s*` c1 c2 c3 ... matches at none of the first `k` positions
      when c1 c2 c3 stand nowhere before `k` and `s[k - 1]` ends any whitespace
      run. */
  lemma NoTripleBefore(q: Pattern, s: string, k: nat)
    requires |q| > 3 && q[0].Ws? && q[1].Lit? && q[2].Lit? && q[3].Lit?
    requires k <= |s| && (k == |s| || k == 0 || !IsSpace(s[k - 1]))
    requires forall j :: 0 <= j < k ==> !TripleAt(s, j, q[1].c, q[2].c, q[3].c)
    ensures NoMatchBefore(q, s, k)
  {
    forall i {:trigger MatchAt(q, s[i..])} | 0 <= i < k ensures MatchAt(q, s[i..]).None? {
      TripleAfterSpace(q, s, i);
      if k < |s| {
        SpaceRunStops(s, i, k - 1);
      }
    }
  }

  /** `\s*=\s*` matches nowhere inside text without `=` that ends in a
      non-space. */
  lemma NoEqPadBefore(u: string, v: string)
    requires '=' !in u && (u == [] || !IsSpace(u[|u| - 1]))
    ensures NoMatchBefore(SPACED_EQ, u + v, |u|)
  {
    var s := u + v;
    forall i {:trigger MatchAt(SPACED_EQ, s[i..])} | 0 <= i < |u| ensures MatchAt(SPACED_EQ, s[i..]).None? {
      LitsAfterSpace(SPACED_EQ, s[i..], 1);
      SpaceRunStops(s, i, |u| - 1);
      assert s[i + SpaceRun(s[i..])] == u[i + SpaceRun(s[i..])];
    }
  }

  /** Padding `=` keeps text without `=` that ends in a non-space. */
  lemma PadEqSkips(u: string, v: string)
    requires '=' !in u && (u == [] || !IsSpace(u[|u| - 1]))
    ensures Pad(SPACED_EQ, " = ", u + v) == u + Pad(SPACED_EQ, " = ", v)
  {
    NoEqPadBefore(u, v);
    PadSkips(SPACED_EQ, " = ", u, v);
  }

  // The heads and tails of the patterns and texts the padding lemmas step
  // through, each lemma stating only what one step needs.

  lemma EqTailPattern()
    ensures [Lit('='), Ws][0] == Lit('=') && [Lit('='), Ws][1..] == [Ws]
  {
  }

  lemma SpacedEqPattern()
    ensures SPACED_EQ[0] == Ws && SPACED_EQ[1..] == [Lit('='), Ws]
  {
  }

  lemma SpaceEqTailPattern()
    ensures [Lit(' '), Lit('='), Ws][0] == Lit(' ') && [Lit(' '), Lit('='), Ws][1..] == [Lit('='), Ws]
  {
  }

  lemma LtTailPattern()
    ensures [Lit('<'), Lit(' '), Lit('='), Ws][0] == Lit('<')
            && [Lit('<'), Lit(' '), Lit('='), Ws][1..] == [Lit(' '), Lit('='), Ws]
  {
  }

  lemma SpacedLePattern()
    ensures SPACED_LE[0] == Ws && SPACED_LE[1..] == [Lit('<'), Lit(' '), Lit('='), Ws]
  {
  }

  /** `[c] + r + w` starts with `c` and goes on with `r + w`. */
  lemma CharTail(c: char, r: string, w: string)
    ensures ([c] + r + w)[0] == c && ([c] + r + w)[1..] == r + w && ([c] + r + w)[0..] == [c] + r + w
  {
  }

  lemma SpaceText(w: string)
    ensures (" " + w)[0] == ' ' && (" " + w)[1..] == w
  {
    assert " " == [' '] + "";
    CharTail(' ', "", w);
  }

  lemma EqText(w: string)
    ensures ("=" + w)[0] == '=' && ("=" + w)[1..] == w
    ensures ("=" + w)[0..] == "=" + w && SpaceRun("=" + w) == 0
  {
    assert "=" == ['='] + "";
    CharTail('=', "", w);
    assert !IsSpace('=');
  }

  lemma EqSpaceText(w: string)
    ensures ("= " + w)[0] == '=' && ("= " + w)[1..] == " " + w
  {
    assert "= " == ['='] + " ";
    CharTail('=', " ", w);
  }

  lemma SpacedEqText(w: string)
    ensures (" = " + w)[0] == ' ' && (" = " + w)[1..] == "= " + w
    ensures SpaceRun(" = " + w) == 1
  {
    assert " = " == [' '] + "= ";
    CharTail(' ', "= ", w);
    EqSpaceText(w);
    assert IsSpace(' ') && !IsSpace('=');
  }

  lemma LtText(w: string)
    ensures ("< = " + w)[0] == '<' && ("< = " + w)[1..] == " = " + w
    ensures ("< = " + w)[0..] == "< = " + w && SpaceRun("< = " + w) == 0
  {
    assert "< = " == ['<'] + " = ";
    CharTail('<', " = ", w);
    assert !IsSpace('<');
  }

  /** `\s*` at the end of a pattern takes the one space before a non-space. */
  lemma TrailingWsAt(w: string)
    requires w == [] || !IsSpace(w[0])
    ensures MatchAt([Ws], w) == Some(0) && MatchAt([Ws], " " + w) == Some(1)
  {
    assert [Ws][1..] == [];
    assert SpaceRun(w) == 0 && w[0..] == w;
    WsStepAt([Ws], w, 0);
    assert SpaceRun(" " + w) == 1 && (" " + w)[1..] == w by {
      SpaceText(w);
      assert IsSpace(' ');
    }
    WsStepAt([Ws], " " + w, 0);
  }

  /** `=\s*` matches just the `=` before a non-space. */
  lemma EqTailBare(w: string)
    requires w == [] || !IsSpace(w[0])
    ensures MatchAt([Lit('='), Ws], "=" + w) == Some(1)
  {
    TrailingWsAt(w);
    EqTailPattern();
    EqText(w);
    LitStepAt([Lit('='), Ws], "=" + w, 0);
  }

  /** `=\s*` matches the `=` and the one space after it before a non-space. */
  lemma EqTailPadded(w: string)
    requires w == [] || !IsSpace(w[0])
    ensures MatchAt([Lit('='), Ws], "= " + w) == Some(2)
  {
    TrailingWsAt(w);
    EqTailPattern();
    EqSpaceText(w);
    LitStepAt([Lit('='), Ws], "= " + w, 1);
  }

  /** A bare `=` before a non-space is one match of `\s*=\s*`. */
  lemma BareEqMatch(w: string)
    requires w == [] || !IsSpace(w[0])
    ensures MatchAt(SPACED_EQ, "=" + w) == Some(1)
  {
    EqTailBare(w);
    SpacedEqPattern();
    EqText(w);
    WsStepAt(SPACED_EQ, "=" + w, 1);
  }

  /** ` = ` before a non-space is one match of `\s*=\s*`. */
  lemma PaddedEqMatch(w: string)
    requires w == [] || !IsSpace(w[0])
    ensures MatchAt(SPACED_EQ, " = " + w) == Some(3)
  {
    EqTailPadded(w);
    SpacedEqPattern();
    SpacedEqText(w);
    WsStepAt(SPACED_EQ, " = " + w, 2);
  }

  /** An `=` already padded, or bare, becomes ` = `. */
  lemma PadEqAt(w: string)
    requires w == [] || !IsSpace(w[0])
    ensures Pad(SPACED_EQ, " = ", " = " + w) == " = " + Pad(SPACED_EQ, " = ", w)
    ensures Pad(SPACED_EQ, " = ", "=" + w) == " = " + Pad(SPACED_EQ, " = ", w)
  {
    PatternsSolid();
    PaddedEqMatch(w);
    BareEqMatch(w);
    assert (" = " + w)[3..] == w && ("=" + w)[1..] == w;
  }

  /** A single ` = ` between a target and a value is left as it is by the
      padding. */
  lemma SpacedAssignment(a: string, b: string)
    requires AssignTarget(a) && AssignValue(b)
    ensures Spaced(a + " = " + b) == a + " = " + b
  {
    PatternsSolid();
    var s := a + " = " + b;
    assert s == a + (" = " + b);
    PadEqSkips(a, " = " + b);
    PadEqAt(b);
    assert Lit('=') in SPACED_EQ by { assert SPACED_EQ[1] == Lit('='); }
    SubWithoutEq(SPACED_EQ, " = ", b);
    assert Pad(SPACED_EQ, " = ", " = " + b) == " = " + b;
    SingleEqNoComparison(a, b, SPACED_EQEQ, " == ");
    SingleEqNoComparison(a, b, SPACED_LE, " <= ");
    SingleEqNoComparison(a, b, SPACED_GE, " >= ");
    SingleEqNoComparison(a, b, SPACED_NE, " != ");
  }

  /** No comparison pattern matches in `a = b`: its one `=` has a space after
      it and no comparison character two places before it. */
  lemma SingleEqNoComparison(a: string, b: string, q: Pattern, rep: string)
    requires AssignTarget(a) && AssignValue(b)
    requires q == SPACED_EQEQ || q == SPACED_LE || q == SPACED_GE || q == SPACED_NE
    ensures Pad(q, rep, a + " = " + b) == a + " = " + b
  {
    PatternsSolid();
    var s := a + " = " + b;
    assert s == a + " = " + [] + [] + b;
    assert |q| > 3 && q[0].Ws? && q[1].Lit? && q[2].Lit? && q[3].Lit?;
    assert q == SPACED_EQEQ || (q[2].c == ' ' && q[3].c == '=' && q[1].c in ['<', '>', '!']);
    forall j | 0 <= j < |s| ensures !TripleAt(s, j, q[1].c, q[2].c, q[3].c) {
      if q == SPACED_EQEQ && s[j] == '=' {
        EqInSeparators(a, " = ", [], [], b, j);
      } else if q != SPACED_EQEQ && j + 2 < |s| && s[j + 2] == '=' {
        EqInSeparators(a, " = ", [], [], b, j + 2);
      }
    }
    NoTripleBefore(q, s, |s|);
    SubNoMatch(q, rep, s);
  }

  /** `a = b` is split into the target `a` and the value `b`. */
  lemma TokenizeAssignmentSplits(a: string, b: string)
    requires AssignTarget(a) && AssignValue(b)
    ensures TokenizeAssignment(a + " = " + b) == [a, b]
  {
    PatternsSolid();
    SpacedAssignment(a, b);
    assert (a + " = " + b)[|a| + 1] == '=';
    assert LONE_EQ[1] == Lit('=');
    forall i | 0 <= i < |b| ensures MatchAt(LONE_EQ, b[i..]).None? {
      MatchNeedsLit(LONE_EQ, b[i..], '=');
    }
    LoneEqSplit(a, b);
  }

  /** Text that may stand between ` = ` and `<=`: not empty, no `=`, no
      whitespace at its ends. */
  predicate ComparedText(x: string) {
    x != [] && '=' !in x && Trimmed(x)
  }

  /** ` =\s*` matches ` = ` before a non-space. */
  lemma SpaceEqTail(y: string)
    requires y == [] || !IsSpace(y[0])
    ensures MatchAt([Lit(' '), Lit('='), Ws], " = " + y) == Some(3)
  {
    EqTailPadded(y);
    SpaceEqTailPattern();
    SpacedEqText(y);
    LitStepAt([Lit(' '), Lit('='), Ws], " = " + y, 2);
  }

  /** `< =\s*` matches `< = ` before a non-space. */
  lemma LtSpaceEqTail(y: string)
    requires y == [] || !IsSpace(y[0])
    ensures MatchAt([Lit('<'), Lit(' '), Lit('='), Ws], "< = " + y) == Some(4)
  {
    SpaceEqTail(y);
    LtTailPattern();
    LtText(y);
    LitStepAt([Lit('<'), Lit(' '), Lit('='), Ws], "< = " + y, 3);
  }

  /** `\s*< =\s*` matches the padded `<=` before a non-space. */
  lemma PaddedLeMatch(y: string)
    requires y == [] || !IsSpace(y[0])
    ensures MatchAt(SPACED_LE, "< = " + y) == Some(4)
  {
    LtSpaceEqTail(y);
    SpacedLePattern();
    LtText(y);
    WsStepAt(SPACED_LE, "< = " + y, 4);
  }

  /** The statement `a = x<=y` and its padded form, regrouped from the right. */
  lemma ComparisonNesting(a: string, x: string, y: string)
    ensures a + " = " + x + "<=" + y == a + (" = " + (x + ("<" + ("=" + y))))
    ensures a + " = " + x + "< = " + y == a + (" = " + (x + ("<" + (" = " + y))))
    ensures a + " = " + x + " <= " + y == a + " = " + (x + " <= " + y)
  {
    assert "<=" + y == "<" + ("=" + y);
    assert "< = " + y == "<" + (" = " + y);
  }

  /** The first padding of `a = x<=y` pads both `=`. */
  lemma PadComparisonEq(a: string, x: string, y: string)
    requires AssignTarget(a) && ComparedText(x) && AssignValue(y)
    ensures Pad(SPACED_EQ, " = ", a + " = " + x + "<=" + y) == a + " = " + x + "< = " + y
  {
    ComparisonNesting(a, x, y);
    var tail := "<" + ("=" + y);
    assert Pad(SPACED_EQ, " = ", "=" + y) == " = " + y by {
      PadEqAt(y);
      assert SPACED_EQ[1] == Lit('=');
      SubWithoutEq(SPACED_EQ, " = ", y);
    }
    assert Pad(SPACED_EQ, " = ", tail) == "<" + (" = " + y) by {
      PadEqSkips("<", "=" + y);
    }
    assert Pad(SPACED_EQ, " = ", x + tail) == x + ("<" + (" = " + y)) by {
      PadEqSkips(x, tail);
    }
    assert Pad(SPACED_EQ, " = ", " = " + (x + tail)) == " = " + (x + ("<" + (" = " + y))) by {
      assert (x + tail)[0] == x[0];
      PadEqAt(x + tail);
    }
    PadEqSkips(a, " = " + (x + tail));
  }

  /** `\s*=  =\s*` does not match in `a = x< = y`. */
  lemma PadComparisonEqEq(a: string, x: string, y: string)
    requires AssignTarget(a) && ComparedText(x) && AssignValue(y)
    ensures Pad(SPACED_EQEQ, " == ", a + " = " + x + "< = " + y) == a + " = " + x + "< = " + y
  {
    PatternsSolid();
    var s := a + " = " + x + "< = " + y;
    forall j | 0 <= j < |s| ensures !TripleAt(s, j, '=', ' ', ' ') {
      if j + 2 < |s| && s[j] == '=' {
        EqInSeparators(a, " = ", x, "< = ", y, j);
      }
    }
    assert SPACED_EQEQ[0].Ws? && SPACED_EQEQ[1] == Lit('=') && SPACED_EQEQ[2] == Lit(' ') && SPACED_EQEQ[3] == Lit(' ');
    NoTripleBefore(SPACED_EQEQ, s, |s|);
    SubNoMatch(SPACED_EQEQ, " == ", s);
  }

  /** The padded statement cut before its `< = `. */
  lemma ComparisonCut(a: string, x: string, y: string)
    ensures (a + " = " + x + "< = " + y)[..|a| + 3 + |x|] == a + " = " + x
    ensures (a + " = " + x + "< = " + y)[|a| + 3 + |x|..] == "< = " + y
    ensures a + " = " + x + " <= " + y == (a + " = " + x) + (" <= " + y)
  {
  }

  /** A padding pattern that matches nowhere in `u` keeps `u` and goes on with
      `v`. */
  lemma PadSkips(q: Pattern, rep: string, u: string, v: string)
    requires Padding(q) && NoMatchBefore(q, u + v, |u|)
    ensures Pad(q, rep, u + v) == u + Pad(q, rep, v)
  {
    PatternsSolid();
    SubSkips(q, rep, u + v, |u|);
    assert (u + v)[..|u|] == u && (u + v)[|u|..] == v;
  }

  /** `\s*< =\s*` matches nowhere in `a = x` before the padded `< = `. */
  lemma NoLeBefore(a: string, x: string, y: string)
    requires AssignTarget(a) && ComparedText(x) && AssignValue(y)
    ensures NoMatchBefore(SPACED_LE, (a + " = " + x) + ("< = " + y), |a + " = " + x|)
  {
    var s := a + " = " + x + "< = " + y;
    var l := |a| + 3 + |x|;
    forall j | 0 <= j < l ensures !TripleAt(s, j, '<', ' ', '=') {
      if j + 2 < |s| && s[j + 2] == '=' {
        EqInSeparators(a, " = ", x, "< = ", y, j + 2);
      }
    }
    assert SPACED_LE[0].Ws? && SPACED_LE[1] == Lit('<') && SPACED_LE[2] == Lit(' ') && SPACED_LE[3] == Lit('=');
    assert s[l - 1] == x[|x| - 1];
    NoTripleBefore(SPACED_LE, s, l);
    ComparisonCut(a, x, y);
    assert s == (a + " = " + x) + ("< = " + y);
  }

  /** The padded `< = ` before a value without `=` becomes ` <= `. */
  lemma PadLeAt(y: string)
    requires AssignValue(y)
    ensures Pad(SPACED_LE, " <= ", "< = " + y) == " <= " + y
  {
    PatternsSolid();
    PaddedLeMatch(y);
    assert ("< = " + y)[4..] == y;
    assert SPACED_LE[3] == Lit('=');
    SubWithoutEq(SPACED_LE, " <= ", y);
  }

  /** The padded statement as the text before its `< = ` and the rest, and
      the joined one likewise. */
  lemma ComparisonRegroup(a: string, x: string, y: string)
    ensures a + " = " + x + "< = " + y == (a + " = " + x) + ("< = " + y)
    ensures a + " = " + x + " <= " + y == (a + " = " + x) + (" <= " + y)
  {
  }

  /** `\s*< =\s*` joins the padded `<=` again and matches nowhere before it. */
  lemma PadComparisonLe(a: string, x: string, y: string)
    requires AssignTarget(a) && ComparedText(x) && AssignValue(y)
    ensures Pad(SPACED_LE, " <= ", a + " = " + x + "< = " + y) == a + " = " + x + " <= " + y
  {
    var u, v := a + " = " + x, "< = " + y;
    ComparisonRegroup(a, x, y);
    NoLeBefore(a, x, y);
    PadSkips(SPACED_LE, " <= ", u, v);
    PadLeAt(y);
  }

  /** `\s*> =\s*` and `\s*! =\s*` do not match in `a = x <= y`. */
  lemma PadComparisonOther(a: string, x: string, y: string, q: Pattern, rep: string)
    requires AssignTarget(a) && ComparedText(x) && AssignValue(y)
    requires q == SPACED_GE || q == SPACED_NE
    ensures Pad(q, rep, a + " = " + x + " <= " + y) == a + " = " + x + " <= " + y
  {
    PatternsSolid();
    var s := a + " = " + x + " <= " + y;
    assert |q| > 3 && q[0].Ws? && q[1].Lit? && q[2].Lit? && q[3].Lit?;
    assert q[1].c in ['>', '!'] && q[2].c == ' ' && q[3].c == '=';
    forall j | 0 <= j < |s| ensures !TripleAt(s, j, q[1].c, q[2].c, q[3].c) {
      if j + 2 < |s| && s[j + 2] == '=' {
        EqInSeparators(a, " = ", x, " <= ", y, j + 2);
      }
    }
    NoTripleBefore(q, s, |s|);
    SubNoMatch(q, rep, s);
  }

  /** The padding turns `a = x<=y` into `a = x <= y`. */
  lemma SpacedComparison(a: string, x: string, y: string)
    requires AssignTarget(a) && ComparedText(x) && AssignValue(y)
    ensures Spaced(a + " = " + x + "<=" + y) == a + " = " + x + " <= " + y
  {
    PadComparisonEq(a, x, y);
    PadComparisonEqEq(a, x, y);
    PadComparisonLe(a, x, y);
    PadComparisonOther(a, x, y, SPACED_GE, " >= ");
    PadComparisonOther(a, x, y, SPACED_NE, " != ");
  }

  /** No lone `=` in `x <= y`. */
  lemma ComparisonNotLone(x: string, y: string)
    requires ComparedText(x) && AssignValue(y)
    ensures forall i :: 0 <= i < |x + " <= " + y| ==> MatchAt(LONE_EQ, (x + " <= " + y)[i..]).None?
  {
    var b := x + " <= " + y;
    assert b == [] + [] + x + " <= " + y;
    forall i | 0 <= i < |b| ensures MatchAt(LONE_EQ, b[i..]).None? {
      LoneEqAt(b[i..]);
      if i + 1 < |b| && b[i + 1] == '=' {
        EqInSeparators([], [], x, " <= ", y, i + 1);
      }
    }
  }

  /** `a = x<=y` is split into the target `a` and the value `x <= y`: the `=`
      of the comparison is not taken for an assignment. */
  lemma TokenizeComparison(a: string, x: string, y: string)
    requires AssignTarget(a) && ComparedText(x) && AssignValue(y)
    ensures TokenizeAssignment(a + " = " + x + "<=" + y) == [a, x + " <= " + y]
  {
    var s := a + " = " + x + "<=" + y;
    assert '=' in s by {
      assert s[|a| + 1] == '=';
    }
    assert Spaced(s) == a + " = " + (x + " <= " + y) by {
      SpacedComparison(a, x, y);
      ComparisonNesting(a, x, y);
    }
    ComparisonNotLone(x, y);
    LoneEqSplit(a, x + " <= " + y);
  }

  // ---------------------------------------------------------------------------
  // split_declaration.

  /** `split_declaration`: the words of the declaration between single
      spaces, empty ones dropped; one word is a bare name, two are a type and
      a name, anything else is refused. */
  function SplitDeclaration(decl: string): (r: Result<(Option<string>, string)>)
    ensures r.Err? ==> r.error == InvalidDeclaration
    ensures r.Ok? <==> |NonEmpty(SplitChar(decl, ' '))| in {1, 2}
  {
    var ts := NonEmpty(SplitChar(decl, ' '));
    if |ts| == 1 then Ok((None, Strip(ts[0])))
    else if |ts| == 2 then Ok((Some(Strip(ts[0])), Strip(ts[1])))
    else Err(InvalidDeclaration)
  }

  lemma WordSplit(w: string)
    requires w != "" && NoSpace(w)
    ensures NonEmpty(SplitChar(w, ' ')) == [w] && Strip(w) == w
  {
    assert IsSpace(' ');
    SplitCharNone(w, ' ');
    StripOfWord(w);
  }

  /** A single word is an assignment to that name. */
  lemma SplitBareName(w: string)
    requires w != "" && NoSpace(w)
    ensures SplitDeclaration(w) == Ok((None, w))
  {
    WordSplit(w);
  }

  /** `type name` is a declaration of that name with that type. */
  lemma SplitTypedName(t: string, n: string)
    requires t != "" && NoSpace(t) && n != "" && NoSpace(n)
    ensures SplitDeclaration(t + " " + n) == Ok((Some(t), n))
  {
    assert IsSpace(' ');
    SplitCharFirst(t, n, ' ');
    WordSplit(t);
    WordSplit(n);
    NonEmptyAppend([t], SplitChar(n, ' '));
  }

  /** Three words are not a declaration. */
  lemma SplitThreeWords(a: string, b: string, c: string)
    requires a != "" && NoSpace(a) && b != "" && NoSpace(b) && c != "" && NoSpace(c)
    ensures SplitDeclaration(a + " " + b + " " + c) == Err(InvalidDeclaration)
  {
    assert IsSpace(' ');
    assert a + " " + b + " " + c == a + [' '] + (b + [' '] + c);
    SplitCharFirst(a, b + [' '] + c, ' ');
    SplitCharFirst(b, c, ' ');
    WordSplit(a);
    WordSplit(b);
    WordSplit(c);
    NonEmptyAppend([a], [b] + SplitChar(c, ' '));
    NonEmptyAppend([b], SplitChar(c, ' '));
  }

  // ---------------------------------------------------------------------------
  // get_current_frame, get_variable_frame, variable_lookup.

  /** The frame at the top of the stack. */
  function Innermost(e: Env): Frame
    requires e.frames != []
  {
    e.frames[|e.frames| - 1]
  }

  /** `get_current_frame`: the top frame; an empty stack fails the assertion
      "stack has length 0!". */
  function CurrentFrame(e: Env): (r: Result<Frame>)
    ensures r.Ok? <==> e.frames != []
    ensures r.Err? ==> r.error == EmptyStack
    ensures r.Ok? ==> r.value == Innermost(e)
  {
    if e.frames == [] then Err(EmptyStack) else Ok(Innermost(e))
  }

  function FrameAt(e: Env, p: Place): Frame
    requires p.TopFrame? ==> e.frames != []
  {
    if p.TopFrame? then Innermost(e) else e.instance
  }

  /** `get_variable_frame`: the top frame if it holds the name, else the
      instance variables if they do, else None.  Frames below the top are
      never consulted. */
  function VariableFrame(e: Env, name: string): (r: Result<Option<Place>>)
    ensures r.Err? <==> e.frames == []
    ensures r.Err? ==> r.error == EmptyStack
    ensures r.Ok? ==> (r.value.Some? <==> name in Innermost(e) || name in e.instance)
    ensures r.Ok? && r.value.Some? ==> name in FrameAt(e, r.value.value)
    ensures r.Ok? && r.value == Some(InstanceVars) ==> name !in Innermost(e)
  {
    var top :- CurrentFrame(e);
    if name in top then Ok(Some(TopFrame))
    else if name in e.instance then Ok(Some(InstanceVars))
    else Ok(None)
  }

  /** `variable_lookup` (main/javarepl.py, through the `get_variable_frame`
      defined last there): the binding, or JavaNameError. */
  function Lookup(e: Env, name: string): (r: Result<Binding>)
    ensures r.Err? <==> e.frames == [] || (name !in Innermost(e) && name !in e.instance)
  {
    var place :- VariableFrame(e, name);
    if place.None? then Err(JavaNameError) else Ok(FrameAt(e, place.value)[name])
  }

  /** The top frame shadows the instance variables; a name bound in neither
      is a JavaNameError, and an empty stack fails before any of that. */
  lemma LookupOrder(e: Env, name: string)
    ensures e.frames == [] ==> Lookup(e, name) == Err(EmptyStack)
    ensures e.frames != [] && name in Innermost(e) ==> Lookup(e, name) == Ok(Innermost(e)[name])
    ensures e.frames != [] && name !in Innermost(e) && name in e.instance
      ==> Lookup(e, name) == Ok(e.instance[name])
    ensures e.frames != [] && name !in Innermost(e) && name !in e.instance
      ==> Lookup(e, name) == Err(JavaNameError)
  {
  }

  /** Only the top frame of the stack is visible: frames pushed below it
      change no lookup. */
  lemma LookupIgnoresOuterFrames(outer: seq<Frame>, top: Frame, instance: Frame, name: string)
    ensures Lookup(Env(outer + [top], instance), name) == Lookup(Env([top], instance), name)
  {
    assert Innermost(Env(outer + [top], instance)) == top;
  }

  // ---------------------------------------------------------------------------
  // Frame updates.

  /** `frame[name] = binding` on the given frame. */
  function Put(e: Env, p: Place, name: string, b: Binding): (r: Env)
    requires p.TopFrame? ==> e.frames != []
    ensures |r.frames| == |e.frames|
  {
    if p.TopFrame? then e.(frames := e.frames[|e.frames| - 1 := Innermost(e)[name := b]])
    else e.(instance := e.instance[name := b])
  }

  /** `frame.pop(name)` on the given frame. */
  function Pop(e: Env, p: Place, name: string): (r: Env)
    requires p.TopFrame? ==> e.frames != []
    ensures |r.frames| == |e.frames|
  {
    if p.TopFrame? then e.(frames := e.frames[|e.frames| - 1 := Innermost(e) - {name}])
    else e.(instance := e.instance - {name})
  }

  /** After a put, the name looks up to the new binding wherever it was put,
      as long as the top frame does not shadow it, and no other name changes. */
  lemma {:induction false} PutLookup(e: Env, p: Place, name: string, b: Binding)
    requires e.frames != []
    requires p.InstanceVars? ==> name !in Innermost(e)
    ensures Lookup(Put(e, p, name, b), name) == Ok(b)
    ensures forall n :: n != name ==> Lookup(Put(e, p, name, b), n) == Lookup(e, n)
  {
    var e1 := Put(e, p, name, b);
    assert Innermost(e1) == if p.TopFrame? then Innermost(e)[name := b] else Innermost(e);
  }

  /** Popping a name that a put has just added restores the environment. */
  lemma PopUndoesPut(e: Env, p: Place, name: string, b: Binding)
    requires p.TopFrame? ==> e.frames != []
    requires name !in FrameAt(e, p)
    ensures Pop(Put(e, p, name, b), p, name) == e
  {
    if p.TopFrame? {
      assert Innermost(e)[name := b] - {name} == Innermost(e);
      assert e.frames[|e.frames| - 1 := Innermost(e)] == e.frames;
    } else {
      assert e.instance[name := b] - {name} == e.instance;
    }
  }

  // ---------------------------------------------------------------------------
  // declare_variable.

  /** `declare_variable`: the declaration must split, the stack must not be
      empty, the type must be one of TYPES and the name must not be visible;
      then an uninitialised variable goes into the top frame, or into the
      instance variables when the declaration is global. */
  function Declared(e: Env, stmt: string, isGlobal: bool): (r: Result<Env>)
    ensures r.Ok? ==> |r.value.frames| == |e.frames|
  {
    var d :- SplitDeclaration(stmt);
    var _ :- CurrentFrame(e);
    if d.0.None? || d.0.value !in TYPES then Err(InvalidDeclaration)
    else
      // The stack is known to be non-empty, so the lookup cannot fail here.
      if VariableFrame(e, d.1).value.Some? then Err(InvalidDeclaration)
      else Ok(Put(e, if isGlobal then InstanceVars else TopFrame, d.1, Binding(d.0.value, NoneVal)))
  }

  /** A declaration succeeds exactly when the type is known and the name is
      free; the new environment binds the name to an uninitialised variable of
      that type and changes no other lookup. */
  lemma DeclaredFacts(e: Env, stmt: string, isGlobal: bool, t: string, name: string)
    requires e.frames != []
    requires SplitDeclaration(stmt) == Ok((Some(t), name))
    ensures Declared(e, stmt, isGlobal).Ok? <==> t in TYPES && name !in Innermost(e) && name !in e.instance
    ensures Declared(e, stmt, isGlobal).Err? ==> Declared(e, stmt, isGlobal).error == InvalidDeclaration
    ensures Declared(e, stmt, isGlobal).Ok? ==>
      Lookup(Declared(e, stmt, isGlobal).value, name) == Ok(Binding(t, NoneVal))
      && forall n :: n != name ==> Lookup(Declared(e, stmt, isGlobal).value, n) == Lookup(e, n)
  {
    if t in TYPES && name !in Innermost(e) && name !in e.instance {
      PutLookup(e, if isGlobal then InstanceVars else TopFrame, name, Binding(t, NoneVal));
    }
  }

  /** The declared environment is the old one with the new binding put in
      the chosen frame. */
  lemma DeclaredIsPut(e: Env, stmt: string, isGlobal: bool, t: string, name: string)
    requires e.frames != [] && name !in Innermost(e) && name !in e.instance && t in TYPES
    requires SplitDeclaration(stmt) == Ok((Some(t), name))
    ensures Declared(e, stmt, isGlobal) == Ok(Put(e, if isGlobal then InstanceVars else TopFrame, name, Binding(t, NoneVal)))
  {
  }

  /** A bare name, or a declaration on an empty stack, is refused. */
  lemma DeclaredRefusals(e: Env, stmt: string, isGlobal: bool)
    ensures SplitDeclaration(stmt).Ok? && SplitDeclaration(stmt).value.0.None?
      ==> Declared(e, stmt, isGlobal) == Err(if e.frames == [] then EmptyStack else InvalidDeclaration)
    ensures SplitDeclaration(stmt).Ok? && e.frames == [] ==> Declared(e, stmt, isGlobal) == Err(EmptyStack)
  {
  }

  // ---------------------------------------------------------------------------
  // verify_result_datatype.

  /** Whether a variable of type `dtype` takes the evaluated `v`: a bool only
      for boolean, an int only for the integer types, a float only for float
      and double, None always.  A str is refused by `char` unless it is one
      character long, and otherwise main/assign.py takes it only for String
      while main/javarepl.py takes it for char and String. */
  predicate Accepts(d: Draft, v: PyVal, dtype: string) {
    match v
    case NoneVal => true
    case BoolVal(_) => dtype == BOOLEAN
    case IntVal(_) => dtype in INT_TYPES
    case FloatVal(_) => dtype in FLOAT_TYPES
    case StrVal(s) =>
      if dtype == CHAR && |s| != 1 then false
      else if d == AssignModule then dtype == STRING
      else dtype in STRING_TYPES
  }

  /** Each kind of value is taken by exactly one class of types, and only
      known types take anything but None. */
  lemma AcceptsByClass(d: Draft, v: PyVal, dtype: string)
    ensures v.BoolVal? ==> (Accepts(d, v, dtype) <==> dtype == BOOLEAN)
    ensures v.IntVal? ==> (Accepts(d, v, dtype) <==> dtype in INT_TYPES)
    ensures v.FloatVal? ==> (Accepts(d, v, dtype) <==> dtype in FLOAT_TYPES)
    ensures v.StrVal? ==> (Accepts(d, v, dtype) ==> dtype in STRING_TYPES)
    ensures Accepts(d, v, dtype) && !v.NoneVal? ==> dtype in TYPES
  {
    TypeClasses();
  }

  /** As written in main/assign.py, a `char` variable never takes a str: the
      one-character case falls through to the String test. */
  lemma CharNeverTakesStr(s: string)
    ensures !Accepts(AssignModule, StrVal(s), CHAR)
  {
  }

  /** As corrected in main/javarepl.py, a `char` variable takes exactly the
      one-character strs, and String takes every str in both copies. */
  lemma CharTakesOneCharStr(d: Draft, s: string)
    ensures Accepts(ReplModule, StrVal(s), CHAR) <==> |s| == 1
    ensures Accepts(d, StrVal(s), STRING)
  {
  }

  /** The two copies differ only on strs for `char`. */
  lemma DraftsDifferOnlyForChar(v: PyVal, dtype: string)
    ensures Accepts(AssignModule, v, dtype) != Accepts(ReplModule, v, dtype)
      <==> v.StrVal? && |v.s| == 1 && dtype == CHAR
  {
  }

  /** `verify_result_datatype`: the frame is looked up first (an empty stack
      fails there); an accepted result changes nothing; a refused one raises
      InvalidDatatype, after taking a just-declared variable out of its frame
      (`None.pop` when the name is nowhere). */
  function Checked(e: Env, d: Draft, result: PyVal, name: string, justDeclared: bool, dtype: string)
    : (r: (Env, Outcome))
    ensures r.1.Pass? <==> e.frames != [] && Accepts(d, result, dtype)
    ensures r.1.Fail? && e.frames != [] ==> r.1.error in {InvalidDatatype, NoFrame}
    ensures r.1.Pass? || !justDeclared ==> r.0 == e
  {
    match VariableFrame(e, name)
    case Err(err) => (e, Fail(err))
    case Ok(place) =>
      if Accepts(d, result, dtype) then (e, Pass)
      else if !justDeclared then (e, Fail(InvalidDatatype))
      else if place.None? then (e, Fail(NoFrame))
      else (Pop(e, place.value, name), Fail(InvalidDatatype))
  }

  /** A refused result for a just-declared variable takes exactly that
      variable out of the frame it was found in, and nothing else. */
  lemma CheckedRollsBack(e: Env, d: Draft, result: PyVal, name: string, dtype: string)
    requires e.frames != [] && !Accepts(d, result, dtype)
    requires name in Innermost(e) || name in e.instance
    ensures var r := Checked(e, d, result, name, true, dtype);
      && r.1 == Fail(InvalidDatatype)
      && |r.0.frames| == |e.frames| && r.0.frames[..|e.frames| - 1] == e.frames[..|e.frames| - 1]
      && (name in Innermost(e) ==> Innermost(r.0) == Innermost(e) - {name} && r.0.instance == e.instance)
      && (name !in Innermost(e) ==> Innermost(r.0) == Innermost(e) && r.0.instance == e.instance - {name})
  {
  }

  // ---------------------------------------------------------------------------
  // update_variable and assign_variable.

  /** What `set_value` receives: main/javarepl.py wraps a str in double
      quotes, main/assign.py stores the result as it is. */
  function Stored(d: Draft, v: PyVal): (r: PyVal)
    ensures r.StrVal? <==> v.StrVal?
    ensures d == AssignModule || !v.StrVal? ==> r == v
    ensures d == ReplModule && v.StrVal? ==> |r.s| == |v.s| + 2 && r.s[1..|r.s| - 1] == v.s
  {
    if d == ReplModule && v.StrVal? then StrVal("\"" + v.s + "\"") else v
  }

  /** `update_variable` once the statement has been split into the target
      name and the expression: the name must be visible, the expression is
      evaluated, the result checked against the variable's type and then
      stored in the frame the name was found in. */
  function UpdateNamed(e: Env, name: string, text: string, justDeclared: bool, ev: Evaluator, d: Draft)
    : (r: (Env, Outcome))
    ensures |r.0.frames| == |e.frames|
  {
    match VariableFrame(e, name)
    case Err(err) => (e, Fail(err))
    case Ok(None) => (e, Fail(InvalidAssignment))
    case Ok(Some(place)) =>
      match ev(text, e)
      case Err(err) => (e, Fail(err))
      case Ok(result) =>
        var dtype := FrameAt(e, place)[name].dtype;
        var checked := Checked(e, d, result, name, justDeclared, dtype);
        if checked.1.Fail? then checked
        else (Put(e, place, name, Binding(dtype, Stored(d, result))), Pass)
  }

  /** `update_variable`: the statement must split into exactly two tokens. */
  function Updated(e: Env, stmt: string, justDeclared: bool, ev: Evaluator, d: Draft): (r: (Env, Outcome))
    ensures |TokenizeAssignment(stmt)| != 2 ==> r == (e, Fail(InvalidAssignment))
    ensures |r.0.frames| == |e.frames|
  {
    var ts := TokenizeAssignment(stmt);
    if |ts| != 2 then (e, Fail(InvalidAssignment))
    else UpdateNamed(e, Strip(ts[0]), Strip(ts[1]), justDeclared, ev, d)
  }

  /** `assign_variable`: the left-hand side is split into an optional type
      and a name; with a type the variable is declared in the top frame
      first and the update then runs as just declared. */
  function Assigned(e: Env, stmt: string, ev: Evaluator, d: Draft): (r: (Env, Outcome))
    ensures |TokenizeAssignment(stmt)| != 2 ==> r == (e, Fail(InvalidAssignment))
    ensures |r.0.frames| == |e.frames|
  {
    var ts := TokenizeAssignment(stmt);
    if |ts| != 2 then (e, Fail(InvalidAssignment))
    else
      var decl := Strip(ts[0]);
      match SplitDeclaration(decl)
      case Err(err) => (e, Fail(err))
      case Ok(split) =>
        var assignment := split.1 + " = " + Strip(ts[1]);
        if split.0.Some? then
          match Declared(e, decl, false)
          case Err(err) => (e, Fail(err))
          case Ok(e1) => Updated(e1, assignment, true, ev, d)
        else Updated(e, assignment, false, ev, d)
  }

  /** An update of a visible name whose value is taken stores the value
      (quoted in main/javarepl.py) under the variable's own type and changes
      no other lookup; one whose value is refused raises InvalidDatatype and,
      unless the variable was just declared, changes nothing. */
  lemma {:induction false} UpdateNamedFacts(e: Env, name: string, text: string, justDeclared: bool, ev: Evaluator, d: Draft)
    requires e.frames != [] && (name in Innermost(e) || name in e.instance)
    requires ev(text, e).Ok?
    ensures var dtype := Lookup(e, name).value.dtype;
      var v := ev(text, e).value;
      var r := UpdateNamed(e, name, text, justDeclared, ev, d);
      && (r.1.Pass? <==> Accepts(d, v, dtype))
      && (r.1.Pass? ==> Lookup(r.0, name) == Ok(Binding(dtype, Stored(d, v))))
      && (r.1.Pass? ==> forall n :: n != name ==> Lookup(r.0, n) == Lookup(e, n))
      && (r.1.Fail? ==> r.1.error == InvalidDatatype)
      && (r.1.Fail? && !justDeclared ==> r.0 == e)
  {
    var place := VariableFrame(e, name).value.value;
    var dtype := FrameAt(e, place)[name].dtype;
    var v := ev(text, e).value;
    if Accepts(d, v, dtype) {
      PutLookup(e, place, name, Binding(dtype, Stored(d, v)));
    }
  }

  /** An update of a name that is not visible raises InvalidAssignment and
      changes nothing, before the expression is evaluated. */
  lemma UpdateUnboundName(e: Env, name: string, text: string, justDeclared: bool, ev: Evaluator, d: Draft)
    requires e.frames != [] && name !in Innermost(e) && name !in e.instance
    ensures UpdateNamed(e, name, text, justDeclared, ev, d) == (e, Fail(InvalidAssignment))
  {
  }

  /** Declaring a fresh variable and then refusing its initial value leaves
      the environment exactly as it was before the declaration. */
  lemma RefusedInitialiserRestores(e: Env, t: string, name: string, text: string, ev: Evaluator, d: Draft)
    requires e.frames != [] && name !in Innermost(e) && name !in e.instance
    requires ev(text, Put(e, TopFrame, name, Binding(t, NoneVal))).Ok?
    requires !Accepts(d, ev(text, Put(e, TopFrame, name, Binding(t, NoneVal))).value, t)
    ensures UpdateNamed(Put(e, TopFrame, name, Binding(t, NoneVal)), name, text, true, ev, d)
      == (e, Fail(InvalidDatatype))
  {
    var e1 := Put(e, TopFrame, name, Binding(t, NoneVal));
    assert Innermost(e1) == Innermost(e)[name := Binding(t, NoneVal)];
    PopUndoesPut(e, TopFrame, name, Binding(t, NoneVal));
  }

  /** With a typed left-hand side, `assign_variable` is the declaration
      followed by the update of `name = rhs` as just declared. */
  lemma AssignedDeclares(e: Env, stmt: string, ev: Evaluator, d: Draft, t: string, name: string, e1: Env)
    requires |TokenizeAssignment(stmt)| == 2
    requires SplitDeclaration(Strip(TokenizeAssignment(stmt)[0])) == Ok((Some(t), name))
    requires Declared(e, Strip(TokenizeAssignment(stmt)[0]), false) == Ok(e1)
    ensures Assigned(e, stmt, ev, d) == Updated(e1, name + " = " + Strip(TokenizeAssignment(stmt)[1]), true, ev, d)
  {
  }

  /** An update statement that splits into a name and an expression updates
      that name with that expression. */
  lemma UpdatedSplits(e: Env, stmt: string, justDeclared: bool, ev: Evaluator, d: Draft, name: string, text: string)
    requires |TokenizeAssignment(stmt)| == 2
    requires Strip(TokenizeAssignment(stmt)[0]) == name && Strip(TokenizeAssignment(stmt)[1]) == text
    ensures Updated(e, stmt, justDeclared, ev, d) == UpdateNamed(e, name, text, justDeclared, ev, d)
  {
  }

  /** Declaring a fresh variable and then taking its initial value binds
      the name in the top frame, which gains only that name. */
  lemma TakenInitialiserBinds(e: Env, t: string, name: string, text: string, ev: Evaluator, d: Draft)
    requires e.frames != [] && name !in Innermost(e) && name !in e.instance
    requires ev(text, Put(e, TopFrame, name, Binding(t, NoneVal))).Ok?
    requires Accepts(d, ev(text, Put(e, TopFrame, name, Binding(t, NoneVal))).value, t)
    ensures var r := UpdateNamed(Put(e, TopFrame, name, Binding(t, NoneVal)), name, text, true, ev, d);
      && r.1 == Pass
      && Lookup(r.0, name) == Ok(Binding(t, Stored(d, ev(text, Put(e, TopFrame, name, Binding(t, NoneVal))).value)))
      && Innermost(r.0).Keys == Innermost(e).Keys + {name}
      && r.0.instance == e.instance
  {
    var e1 := Put(e, TopFrame, name, Binding(t, NoneVal));
    assert Innermost(e1) == Innermost(e)[name := Binding(t, NoneVal)];
    UpdateNamedFacts(e1, name, text, true, ev, d);
    var v := ev(text, e1).value;
    assert Innermost(Put(e1, TopFrame, name, Binding(t, Stored(d, v)))) == Innermost(e1)[name := Binding(t, Stored(d, v))];
  }

  /** `stmt` is `t name = ...` and the update `assign_variable` rebuilds
      from it splits again into `name` and the expression `text`. */
  predicate DeclaresWith(stmt: string, t: string, name: string, text: string) {
    var ts := TokenizeAssignment(stmt);
    && |ts| == 2
    && SplitDeclaration(Strip(ts[0])) == Ok((Some(t), name))
    && var us := TokenizeAssignment(name + " = " + Strip(ts[1]));
    && |us| == 2 && Strip(us[0]) == name && Strip(us[1]) == text
  }

  /** The declaration half of `t n = e`: the target `t n` declares `n` with
      type `t`, and the value is `e`. */
  lemma TypedStatementSplits(t: string, n: string, e: string)
    requires t != "" && NoSpace(t) && '=' !in t
    requires n != "" && NoSpace(n) && AssignTarget(n)
    requires '=' !in e && Trimmed(e)
    ensures TokenizeAssignment(t + " " + n + " = " + e) == [t + " " + n, e]
    ensures SplitDeclaration(Strip(t + " " + n)) == Ok((Some(t), n)) && Strip(e) == e
  {
    var a := t + " " + n;
    assert AssignTarget(a) && Trimmed(a) by {
      assert a[|a| - 1] == n[|n| - 1] && a[0] == t[0];
      assert a == t + " " + n + [] + [];
      forall i | 0 <= i < |a| ensures a[i] != '=' {
        if a[i] == '=' {
          EqInSeparators(t, " ", n, [], [], i);
        }
      }
    }
    TokenizeAssignmentSplits(a, e);
    StripTrimmed(a);
    SplitTypedName(t, n);
    StripTrimmed(e);
  }

  /** The update half of `t n = e`: `n = e` splits into `n` and `e`. */
  lemma NamedUpdateSplits(n: string, e: string)
    requires n != "" && NoSpace(n) && AssignTarget(n)
    requires '=' !in e && Trimmed(e)
    ensures TokenizeAssignment(n + " = " + e) == [n, e] && Strip(n) == n && Strip(e) == e
  {
    TokenizeAssignmentSplits(n, e);
    StripOfWord(n);
    StripTrimmed(e);
  }

  /** `t n = e`, with single words `t` and `n` and an initialiser `e` without
      `=`, declares `n` with type `t` and initialises it with `e`. */
  lemma TypedInitialiser(t: string, n: string, e: string)
    requires t != "" && NoSpace(t) && '=' !in t
    requires n != "" && NoSpace(n) && AssignTarget(n)
    requires '=' !in e && Trimmed(e)
    ensures DeclaresWith(t + " " + n + " = " + e, t, n, e)
  {
    TypedStatementSplits(t, n, e);
    NamedUpdateSplits(n, e);
  }

  /** `int x = 5` declares an `int` named `x` with the initialiser `5`. */
  lemma TypedInitialiserExample()
    ensures DeclaresWith("int x = 5", "int", "x", "5")
  {
    assert "int x = 5" == "int" + " " + "x" + " = " + "5";
    assert "int" != "" && NoSpace("int") && '=' !in "int" by {
      assert !IsSpace('i') && !IsSpace('n') && !IsSpace('t');
    }
    assert NoSpace("x") && AssignTarget("x") && Trimmed("5") && '=' !in "5" by {
      assert !IsSpace('x') && !IsSpace('5');
    }
    TypedInitialiser("int", "x", "5");
  }

  /** `a = b<=c` assigns the comparison `b <= c` to `a`. */
  lemma ComparisonExample()
    ensures TokenizeAssignment("a = b<=c") == ["a", "b <= c"]
  {
    assert "a = b<=c" == "a" + " = " + "b" + "<=" + "c";
    assert "b <= c" == "b" + " <= " + "c";
    assert AssignTarget("a") && ComparedText("b") && AssignValue("c") by {
      assert !IsSpace('a') && !IsSpace('b') && !IsSpace('c');
    }
    TokenizeComparison("a", "b", "c");
  }

  /** Such a statement, for a fresh name of a known type, is the declaration
      followed by the update of the new variable. */
  lemma AssignedAsUpdate(e: Env, stmt: string, ev: Evaluator, d: Draft, t: string, name: string, text: string)
    requires e.frames != [] && name !in Innermost(e) && name !in e.instance && t in TYPES
    requires DeclaresWith(stmt, t, name, text)
    ensures Assigned(e, stmt, ev, d) == UpdateNamed(Put(e, TopFrame, name, Binding(t, NoneVal)), name, text, true, ev, d)
  {
    var ts := TokenizeAssignment(stmt);
    var e1 := Put(e, TopFrame, name, Binding(t, NoneVal));
    DeclaredIsPut(e, Strip(ts[0]), false, t, name);
    AssignedDeclares(e, stmt, ev, d, t, name, e1);
    UpdatedSplits(e1, name + " = " + Strip(ts[1]), true, ev, d, name, text);
  }

  /** `type name = expr` whose value the type refuses leaves no binding: the
      environment after the statement is the one before it. */
  lemma FailedInitialiserLeavesNoBinding(e: Env, stmt: string, ev: Evaluator, d: Draft, t: string, name: string, text: string)
    requires e.frames != [] && name !in Innermost(e) && name !in e.instance && t in TYPES
    requires DeclaresWith(stmt, t, name, text)
    requires ev(text, Put(e, TopFrame, name, Binding(t, NoneVal))).Ok?
    requires !Accepts(d, ev(text, Put(e, TopFrame, name, Binding(t, NoneVal))).value, t)
    ensures Assigned(e, stmt, ev, d) == (e, Fail(InvalidDatatype))
  {
    AssignedAsUpdate(e, stmt, ev, d, t, name, text);
    RefusedInitialiserRestores(e, t, name, text, ev, d);
  }

  /** `type name = expr` whose value the type takes binds the name in the top
      frame to that value under that type, and the top frame gains only that
      name. */
  lemma DeclaredInitialiserBinds(e: Env, stmt: string, ev: Evaluator, d: Draft, t: string, name: string, text: string)
    requires e.frames != [] && name !in Innermost(e) && name !in e.instance && t in TYPES
    requires DeclaresWith(stmt, t, name, text)
    requires ev(text, Put(e, TopFrame, name, Binding(t, NoneVal))).Ok?
    requires Accepts(d, ev(text, Put(e, TopFrame, name, Binding(t, NoneVal))).value, t)
    ensures var r := Assigned(e, stmt, ev, d);
      && r.1 == Pass
      && Lookup(r.0, name) == Ok(Binding(t, Stored(d, ev(text, Put(e, TopFrame, name, Binding(t, NoneVal))).value)))
      && Innermost(r.0).Keys == Innermost(e).Keys + {name}
  {
    AssignedAsUpdate(e, stmt, ev, d, t, name, text);
    TakenInitialiserBinds(e, t, name, text, ev, d);
  }

  // ---------------------------------------------------------------------------
  // The REPL's environment: the global `stack` and `instance_variables`,
  // which the functions above update in place.

  class Environment {
    var stack: seq<Frame>
    var instanceVars: Frame

    function State(): Env
      reads this
    {
      Env(stack, instanceVars)
    }

    /** `stack = [{}]`, `instance_variables = {}`. */
    constructor ()
      ensures State() == Env([map[]], map[])
    {
      stack, instanceVars := [map[]], map[];
    }

    /** `declare_variable`, inserting into the live frame. */
    method DeclareVariable(stmt: string, isGlobal: bool) returns (o: Outcome)
      modifies this
      ensures Declared(old(State()), stmt, isGlobal).Ok? ==>
        o == Pass && State() == Declared(old(State()), stmt, isGlobal).value
      ensures Declared(old(State()), stmt, isGlobal).Err? ==>
        o == Fail(Declared(old(State()), stmt, isGlobal).error) && State() == old(State())
    {
      var split := SplitDeclaration(stmt);
      if split.Err? {
        return Fail(split.error);
      }
      var dtype, name := split.value.0, split.value.1;
      var localVariables := CurrentFrame(State());
      if localVariables.Err? {
        return Fail(localVariables.error);
      }
      if dtype.None? || dtype.value !in TYPES {
        return Fail(InvalidDeclaration);
      }
      if VariableFrame(State(), name).value.Some? {
        return Fail(InvalidDeclaration);
      }
      var variable := Binding(dtype.value, NoneVal);
      if isGlobal {
        instanceVars := instanceVars[name := variable];
      } else {
        stack := stack[|stack| - 1 := localVariables.value[name := variable]];
      }
      o := Pass;
    }

    /** `verify_result_datatype`, popping a just-declared variable from the
      live frame when its value is refused. */
    method VerifyResultDatatype(d: Draft, result: PyVal, name: string, justDeclared: bool, dtype: string)
      returns (o: Outcome)
      modifies this
      ensures (State(), o) == Checked(old(State()), d, result, name, justDeclared, dtype)
    {
      var variableFrame := VariableFrame(State(), name);
      if variableFrame.Err? {
        return Fail(variableFrame.error);
      }
      if Accepts(d, result, dtype) {
        return Pass;
      }
      if justDeclared {
        match variableFrame.value
        case None =>
          return Fail(NoFrame);
        case Some(TopFrame) =>
          stack := stack[|stack| - 1 := stack[|stack| - 1] - {name}];
        case Some(InstanceVars) =>
          instanceVars := instanceVars - {name};
      }
      o := Fail(InvalidDatatype);
    }

    /** `update_variable` from the lookup of the target on. */
    method UpdateNamedVariable(name: string, text: string, justDeclared: bool, ev: Evaluator, d: Draft)
      returns (o: Outcome)
      modifies this
      ensures (State(), o) == UpdateNamed(old(State()), name, text, justDeclared, ev, d)
    {
      var variableFrame := VariableFrame(State(), name);
      if variableFrame.Err? {
        return Fail(variableFrame.error);
      }
      if variableFrame.value.None? {
        return Fail(InvalidAssignment);
      }
      var place := variableFrame.value.value;
      var result := ev(text, State());
      if result.Err? {
        return Fail(result.error);
      }
      var dtype := FrameAt(State(), place)[name].dtype;
      o := VerifyResultDatatype(d, result.value, name, justDeclared, dtype);
      if o.Fail? {
        return;
      }
      var stored := Binding(dtype, Stored(d, result.value));
      if place.TopFrame? {
        stack := stack[|stack| - 1 := stack[|stack| - 1][name := stored]];
      } else {
        instanceVars := instanceVars[name := stored];
      }
    }

    /** `update_variable`. */
    method UpdateVariable(stmt: string, justDeclared: bool, ev: Evaluator, d: Draft) returns (o: Outcome)
      modifies this
      ensures (State(), o) == Updated(old(State()), stmt, justDeclared, ev, d)
    {
      var tokens := TokenizeAssignment(stmt);
      if |tokens| != 2 {
        return Fail(InvalidAssignment);
      }
      o := UpdateNamedVariable(Strip(tokens[0]), Strip(tokens[1]), justDeclared, ev, d);
    }

    /** `assign_variable`. */
    method AssignVariable(stmt: string, ev: Evaluator, d: Draft) returns (o: Outcome)
      modifies this
      ensures (State(), o) == Assigned(old(State()), stmt, ev, d)
    {
      var tokens := TokenizeAssignment(stmt);
      if |tokens| != 2 {
        return Fail(InvalidAssignment);
      }
      var declaration := Strip(tokens[0]);
      var split := SplitDeclaration(declaration);
      if split.Err? {
        return Fail(split.error);
      }
      var assignment := split.value.1 + " = " + Strip(tokens[1]);
      if split.value.0.Some? {
        o := DeclareVariable(declaration, false);
        if o.Fail? {
          return;
        }
      }
      o := UpdateVariable(assignment, split.value.0.Some?, ev, d);
    }
  }
}
