/** If-else blocks in the REPL (the copy in main/javarepl.py:276-365 of
    interpreter/conditionals.py): a syntax scan over the block with two cursors,
    then a regex split into alternating conditions and bodies, and the
    selection of the body of the first condition that evaluates to True.
    Expression evaluation is a parameter. */
module Conditionals {
  import opened Wrappers
  import opened PyText
  import opened Util

  /** A condition's evaluation by Python's `eval`, in the caller's
      environment. */
  type Condition = string -> Result<PyVal>

  // ---------------------------------------------------------------------------
  // verify_if_else_syntax.

  /** `\)\s*\{`, `\s*\{`, `\s*\(\s*` and `\s*\)\s*`. */
  const CLOSE_OPEN: Pattern := [Lit(')'), Ws, Lit('{')]
  const OPEN_BRACE: Pattern := [Ws, Lit('{')]
  const OPEN_PAREN: Pattern := [Ws, Lit('('), Ws]
  const CLOSE_PAREN: Pattern := [Ws, Lit(')'), Ws]

  lemma NormalisersSolid()
    ensures Solid(CLOSE_OPEN) && Solid(OPEN_BRACE) && Solid(OPEN_PAREN) && Solid(CLOSE_PAREN)
  {
    assert !CLOSE_OPEN[0].Ws? && !OPEN_BRACE[1].Ws? && !OPEN_PAREN[1].Ws? && !CLOSE_PAREN[1].Ws?;
  }

  /** The block stripped and every parenthesis and brace surrounded by single
      spaces, in the order the four substitutions run. */
  function Normalised(block: string): string {
    NormalisersSolid();
    Sub(CLOSE_PAREN, " ) ", Sub(OPEN_PAREN, " ( ", Sub(OPEN_BRACE, " { ", Sub(CLOSE_OPEN, ") { ", Strip(block)))))
  }

  /** `sub` occurs in `s` at index `i`. */
  predicate At(s: string, sub: string, i: nat) {
    i <= |s| && StartsWith(s[i..], sub)
  }

  /** Every `} else if (` from index `from` on has a `) {` somewhere after it. */
  ghost predicate HeadersClosed(n: string, from: nat) {
    forall o: nat :: from <= o && At(n, "} else if (", o) ==> Find(n, ") {", o) != -1
  }

  /** The header loop, entered with cursor `curr`: the next `) {` must lie
      beyond the cursor; then the cursor moves to the next `} else if (`, and
      the loop ends when there is none.  The result is the position of the
      last `) {` reached. */
  function HeaderScan(n: string, curr: nat): (r: Result<nat>)
    ensures r.Err? ==> r.error == InvalidIfElseBlock(HeaderNotClosed)
    ensures r.Ok? ==> curr < r.value <= |n| && At(n, ") {", r.value)
    ensures r.Ok? ==> Find(n, "} else if (", r.value) == -1
    decreases |n| + 1 - curr
  {
    var p := Find(n, ") {", curr);
    if curr >= p || p == -1 then Err(InvalidIfElseBlock(HeaderNotClosed))
    else
      var q := Find(n, "} else if (", p);
      if q == -1 then Ok(p)
      else HeaderScan(n, q)
  }

  /** A `) {` and a `} else if (` never start at the same index. */
  lemma HeadersDiffer(n: string, i: nat)
    requires At(n, "} else if (", i)
    ensures !At(n, ") {", i)
  {
    assert n[i..][0] == '}';
  }

  /** The header loop succeeds exactly when there is a `) {` beyond the
      cursor and every `} else if (` from the cursor on is followed by one. */
  lemma {:induction false} HeaderScanOk(n: string, curr: nat)
    ensures HeaderScan(n, curr).Ok? <==> Find(n, ") {", curr) > curr && HeadersClosed(n, curr)
    decreases |n| + 1 - curr
  {
    var p := Find(n, ") {", curr);
    if p != -1 && p > curr {
      var q := Find(n, "} else if (", p);
      if q == -1 {
        forall o: nat | curr <= o && At(n, "} else if (", o) ensures Find(n, ") {", o) != -1 {
          assert o < p;
        }
      } else {
        HeaderScanOk(n, q);
        HeadersDiffer(n, q);
        if HeadersClosed(n, q) {
          forall o: nat | curr <= o && At(n, "} else if (", o) ensures Find(n, ") {", o) != -1 {
            if o < p {
              assert At(n, ") {", p);
            } else {
              assert q <= o;
            }
          }
        }
      }
    }
  }

  /** `verify_if_else_syntax` on the normalised block. */
  function SyntaxOf(n: string): (r: Result<bool>)
  {
    if |n| == 0 then Err(AssertionError("len(block) is NOT > 0, it is 0"))
    else if Find(n, "if (", 0) != 0 then Err(InvalidIfElseBlock(NotIf))
    else if Find(n, "else if {", 0) != -1 then Err(InvalidIfElseBlock(ElseIfWithoutCondition))
    else
      var last :- HeaderScan(n, 0);
      var e := Find(n, "} else {", last);
      if e == -1 then
        if Find(n, "}", last) == -1 then Err(InvalidIfElseBlock(BranchNotTerminated))
        else Ok(false)
      else
        var c := Find(n, "}", e + 1);
        if e >= c then Err(InvalidIfElseBlock(ElseNotTerminated))
        else Ok(true)
  }

  /** `verify_if_else_syntax`: whether the block has an else clause, or why
      it is refused. */
  function IfElseSyntax(block: string): Result<bool> {
    SyntaxOf(Normalised(block))
  }

  /** A block that passes starts with `if (`, has no condition-less
      `else if {`, has a `) {` and closes every `} else if (` header. */
  lemma SyntaxAccepts(n: string)
    requires SyntaxOf(n).Ok?
    ensures StartsWith(n, "if (") && !Contains(n, "else if {")
    ensures Contains(n, ") {") && HeadersClosed(n, 0)
  {
    HeaderScanOk(n, 0);
  }

  /** The refusals, in the order the scan meets them. */
  lemma SyntaxRefuses(n: string)
    ensures n == [] ==> SyntaxOf(n).Err? && SyntaxOf(n).error.AssertionError?
    ensures n != [] && !StartsWith(n, "if (") ==> SyntaxOf(n) == Err(InvalidIfElseBlock(NotIf))
    ensures n != [] && StartsWith(n, "if (") && Contains(n, "else if {")
      ==> SyntaxOf(n) == Err(InvalidIfElseBlock(ElseIfWithoutCondition))
    ensures n != [] && StartsWith(n, "if (") && !Contains(n, "else if {") && !HeadersClosed(n, 0)
      ==> SyntaxOf(n) == Err(InvalidIfElseBlock(HeaderNotClosed))
  {
    if n != [] && StartsWith(n, "if (") {
      assert At(n, "if (", 0);
      HeaderScanOk(n, 0);
    }
  }

  /** True means a `} else {` with a `}` after it; a block without any
      `} else {` that passes has no else clause, and then a `}` follows the
      last header. */
  lemma SyntaxElse(n: string)
    ensures SyntaxOf(n) == Ok(true) ==>
      exists e: nat :: At(n, "} else {", e) && Find(n, "}", e + 1) != -1
    ensures SyntaxOf(n).Ok? && !Contains(n, "} else {") ==> SyntaxOf(n) == Ok(false)
    ensures SyntaxOf(n) == Ok(false) ==> Contains(n, "}")
  {
    if SyntaxOf(n).Ok? {
      var last := HeaderScan(n, 0).value;
      var e := Find(n, "} else {", last);
      if e != -1 {
        assert At(n, "} else {", e);
      } else {
        var c := Find(n, "}", last);
        assert At(n, "}", c);
      }
    }
  }

  /** `verify_if_else_syntax` as written: two cursors advanced by `find`. */
  method VerifyIfElseSyntax(block: string) returns (r: Result<bool>)
    ensures r == IfElseSyntax(block)
  {
    var hasElse := true;
    var n := Normalised(block);
    if |n| == 0 {
      return Err(AssertionError("len(block) is NOT > 0, it is 0"));
    }
    var lastPosition := Find(n, "if (", 0);
    if lastPosition != 0 {
      return Err(InvalidIfElseBlock(NotIf));
    }
    if Find(n, "else if {", 0) != -1 {
      return Err(InvalidIfElseBlock(ElseIfWithoutCondition));
    }
    var currPosition := 0;
    while currPosition != -1
      invariant -1 <= currPosition <= |n|
      invariant currPosition != -1 ==> HeaderScan(n, 0) == HeaderScan(n, currPosition)
      invariant currPosition == -1 ==> 0 <= lastPosition && HeaderScan(n, 0) == Ok(lastPosition)
      decreases if currPosition == -1 then 0 else |n| + 2 - currPosition
    {
      lastPosition, currPosition := currPosition, Find(n, ") {", currPosition);
      if lastPosition >= currPosition || currPosition == -1 {
        return Err(InvalidIfElseBlock(HeaderNotClosed));
      }
      lastPosition, currPosition := currPosition, Find(n, "} else if (", currPosition);
    }
    currPosition := Find(n, "} else {", lastPosition);
    if currPosition == -1 {
      currPosition := Find(n, "}", lastPosition);
      if currPosition == -1 {
        return Err(InvalidIfElseBlock(BranchNotTerminated));
      }
      hasElse := false;
    } else {
      lastPosition, currPosition := currPosition, Find(n, "}", currPosition + 1);
      if lastPosition >= currPosition {
        return Err(InvalidIfElseBlock(ElseNotTerminated));
      }
    }
    r := Ok(hasElse);
  }

  // ---------------------------------------------------------------------------
  // handle_conditional_statements.

  /** `\s*\}\s*else if\s*\(`, `\s*if\s*\(`, `\s*\}\s*else\s*\{`, `\s*\)\s*\{`
      and `\}`: the five splits that cut a block into conditions and bodies. */
  const ELSE_IF: Pattern := [Ws, Lit('}'), Ws, Lit('e'), Lit('l'), Lit('s'), Lit('e'), Lit(' '), Lit('i'), Lit('f'), Ws, Lit('(')]
  const IF: Pattern := [Ws, Lit('i'), Lit('f'), Ws, Lit('(')]
  const ELSE: Pattern := [Ws, Lit('}'), Ws, Lit('e'), Lit('l'), Lit('s'), Lit('e'), Ws, Lit('{')]
  const THEN: Pattern := [Ws, Lit(')'), Ws, Lit('{')]
  const CLOSE: Pattern := [Lit('}')]

  lemma SplittersSolid()
    ensures Solid(ELSE_IF) && Solid(IF) && Solid(ELSE) && Solid(THEN) && Solid(CLOSE)
  {
    assert !ELSE_IF[1].Ws? && !IF[1].Ws? && !ELSE[1].Ws? && !THEN[1].Ws? && !CLOSE[0].Ws?;
  }

  /** Every token split by `p`, the pieces in order. */
  function SplitEach(p: Pattern, ts: seq<string>): seq<string>
    requires Solid(p)
  {
    if ts == [] then [] else SplitRe(p, ts[0]) + SplitEach(p, ts[1..])
  }

  /** The list of split lists that `map` builds. */
  function Splits(p: Pattern, ts: seq<string>): (lst: seq<Nested<string>>)
    requires Solid(p)
    ensures |lst| == |ts|
  {
    seq(|ts|, i requires 0 <= i < |ts| => List(Leaves(SplitRe(p, ts[i]))))
  }

  /** `flatten_list` of the mapped splits is SplitEach: the pieces of every
      token, tokens in order. */
  lemma {:induction false} FlattenedSplits(p: Pattern, ts: seq<string>)
    requires Solid(p)
    ensures Flatten(Splits(p, ts)) == SplitEach(p, ts)
  {
    if ts != [] {
      FlattenedSplits(p, ts[1..]);
      FlattenLeaves(SplitRe(p, ts[0]));
      assert Splits(p, ts)[1..] == Splits(p, ts[1..]);
    }
  }

  /** One stage of the tokenizer: split every token, flatten, and drop the
      empty strings. */
  function Stage(p: Pattern, ts: seq<string>): seq<string>
    requires Solid(p)
  {
    NonEmpty(SplitEach(p, ts))
  }

  /** `tokens.insert(-1, "True")`: "True" goes just before the last token, or
      becomes the only token of an empty list; nothing else moves. */
  function InsertTrue(ts: seq<string>): (r: seq<string>)
    ensures |r| == |ts| + 1
    ensures ts == [] ==> r == ["True"]
    ensures ts != [] ==> r[|ts| - 1] == "True" && r[|ts|] == ts[|ts| - 1]
    ensures forall i :: 0 <= i < |ts| - 1 ==> r[i] == ts[i]
  {
    if ts == [] then ["True"] else ts[..|ts| - 1] + ["True", ts[|ts| - 1]]
  }

  /** The tokens of a block: conditions and bodies alternating, with "True"
      as the else clause's condition. */
  function BranchTokens(block: string, hasElse: bool): seq<string> {
    SplittersSolid();
    var afterElseIf := Stage(ELSE_IF, [block]);
    var afterIf := Stage(IF, afterElseIf);
    var afterElse := Stage(ELSE, afterIf);
    var withTrue := if hasElse then InsertTrue(afterElse) else afterElse;
    var afterThen := Stage(THEN, withTrue);
    Stage(CLOSE, afterThen)
  }

  /** The tokens at even indices (the conditions). */
  function Evens(ts: seq<string>): (r: seq<string>)
    ensures |r| == (|ts| + 1) / 2
  {
    seq((|ts| + 1) / 2, i requires 0 <= i < (|ts| + 1) / 2 => ts[2 * i])
  }

  /** The tokens at odd indices (the bodies). */
  function Odds(ts: seq<string>): (r: seq<string>)
    ensures |r| == |ts| / 2
  {
    seq(|ts| / 2, i requires 0 <= i < |ts| / 2 => ts[2 * i + 1])
  }

  /** The two lists share out the tokens: every token is in exactly one of
      them at half its index, and they have the same length exactly when the
      number of tokens is even. */
  lemma EvensOdds(ts: seq<string>)
    ensures forall i :: 0 <= i < |ts| && i % 2 == 0 ==> Evens(ts)[i / 2] == ts[i]
    ensures forall i :: 0 <= i < |ts| && i % 2 == 1 ==> Odds(ts)[i / 2] == ts[i]
    ensures |Evens(ts)| == |Odds(ts)| <==> |ts| % 2 == 0
  {
    forall i | 0 <= i < |ts| && i % 2 == 0 ensures Evens(ts)[i / 2] == ts[i] {
      assert 2 * (i / 2) == i;
    }
    forall i | 0 <= i < |ts| && i % 2 == 1 ensures Odds(ts)[i / 2] == ts[i] {
      assert 2 * (i / 2) + 1 == i;
    }
  }

  /** The loop that deals the tokens out by the parity of their index. */
  method SplitBranches(ts: seq<string>) returns (conds: seq<string>, stmts: seq<string>)
    ensures conds == Evens(ts) && stmts == Odds(ts)
  {
    conds, stmts := [], [];
    for index := 0 to |ts|
      invariant |conds| == (index + 1) / 2 && |stmts| == index / 2
      invariant forall i :: 0 <= i < |conds| ==> conds[i] == ts[2 * i]
      invariant forall i :: 0 <= i < |stmts| ==> stmts[i] == ts[2 * i + 1]
    {
      if index % 2 == 0 {
        assert 2 * |conds| == index;
        conds := conds + [ts[index]];
      } else {
        assert 2 * |stmts| + 1 == index;
        stmts := stmts + [ts[index]];
      }
    }
  }

  /** The conditions from index `from` on are evaluated in order: the body of
      the first that is True is chosen, a condition that is not a boolean
      stops the search, and no body is chosen when all are False. */
  function FirstTrue(conds: seq<string>, stmts: seq<string>, ev: Condition, from: nat): Result<Option<string>>
    requires |conds| == |stmts| && from <= |conds|
    decreases |conds| - from
  {
    if from == |conds| then Ok(None)
    else
      var v :- ev(conds[from]);
      if !v.BoolVal? then Err(InvalidIfElseBlock(NotABoolean))
      else if v.b then Ok(Some(stmts[from]))
      else FirstTrue(conds, stmts, ev, from + 1)
  }

  /** The conditions from `from` up to `to` all evaluate to False. */
  ghost predicate AllFalse(conds: seq<string>, ev: Condition, from: nat, to: nat)
    requires from <= to <= |conds|
  {
    forall j :: from <= j < to ==> ev(conds[j]) == Ok(BoolVal(false))
  }

  /** Conditions that are False are passed over. */
  lemma {:induction false} FalsePassedOver(conds: seq<string>, stmts: seq<string>, ev: Condition, from: nat, k: nat)
    requires |conds| == |stmts| && from <= k <= |conds| && AllFalse(conds, ev, from, k)
    ensures FirstTrue(conds, stmts, ev, from) == FirstTrue(conds, stmts, ev, k)
    decreases k - from
  {
    if from < k {
      FalsePassedOver(conds, stmts, ev, from + 1, k);
    }
  }

  /** No body is chosen exactly when every condition is False. */
  lemma {:induction false} FirstTrueNone(conds: seq<string>, stmts: seq<string>, ev: Condition, from: nat)
    requires |conds| == |stmts| && from <= |conds|
    ensures FirstTrue(conds, stmts, ev, from) == Ok(None) <==> AllFalse(conds, ev, from, |conds|)
    decreases |conds| - from
  {
    if from < |conds| {
      FirstTrueNone(conds, stmts, ev, from + 1);
    }
  }

  /** A chosen body belongs to a True condition preceded only by False
      ones. */
  lemma {:induction false} FirstTrueSome(conds: seq<string>, stmts: seq<string>, ev: Condition, from: nat)
    requires |conds| == |stmts| && from <= |conds|
    requires FirstTrue(conds, stmts, ev, from).Ok? && FirstTrue(conds, stmts, ev, from).value.Some?
    ensures exists k ::
      from <= k < |conds| && AllFalse(conds, ev, from, k) && ev(conds[k]) == Ok(BoolVal(true))
      && FirstTrue(conds, stmts, ev, from).value.value == stmts[k]
    decreases |conds| - from
  {
    var r := FirstTrue(conds, stmts, ev, from);
    if ev(conds[from]) == Ok(BoolVal(true)) {
      assert AllFalse(conds, ev, from, from);
    } else {
      assert r == FirstTrue(conds, stmts, ev, from + 1);
      FirstTrueSome(conds, stmts, ev, from + 1);
      var k :| from + 1 <= k < |conds| && AllFalse(conds, ev, from + 1, k) && ev(conds[k]) == Ok(BoolVal(true))
        && r.value.value == stmts[k];
      assert AllFalse(conds, ev, from, k);
    }
  }

  /** The condition loop, leaving as soon as a condition is True. */
  method SelectBranch(conds: seq<string>, stmts: seq<string>, ev: Condition) returns (r: Result<Option<string>>)
    requires |conds| == |stmts|
    ensures r == FirstTrue(conds, stmts, ev, 0)
  {
    for index := 0 to |conds|
      invariant FirstTrue(conds, stmts, ev, 0) == FirstTrue(conds, stmts, ev, index)
    {
      var curr := ev(conds[index]);
      if curr.Err? {
        return Err(curr.error);
      }
      if !curr.value.BoolVal? {
        return Err(InvalidIfElseBlock(NotABoolean));
      }
      if curr.value.b {
        return Ok(Some(stmts[index]));
      }
    }
    return Ok(None);
  }

  /** The length assertion, then the condition loop, over a block's tokens. */
  function ChooseBody(ts: seq<string>, ev: Condition): Result<Option<string>> {
    if |Evens(ts)| != |Odds(ts)| then Err(AssertionError("conditions_list and statements_list are of different lengths"))
    else FirstTrue(Evens(ts), Odds(ts), ev, 0)
  }

  /** `handle_conditional_statements`: the body to run, None when no branch
      is taken, or the error that refused the block. */
  function HandleConditional(block: string, ev: Condition): Result<Option<string>> {
    var hasElse :- IfElseSyntax(block);
    ChooseBody(BranchTokens(block, hasElse), ev)
  }

  /** A piece of a `}` split has no `}`. */
  lemma {:induction false} ClosedPiecesSplit(ts: seq<string>)
    ensures Solid(CLOSE) && forall x :: x in SplitEach(CLOSE, ts) ==> '}' !in x
  {
    SplittersSolid();
    if ts != [] {
      ClosedPiecesSplit(ts[1..]);
      SplitCharPieces(ts[0], '}');
      assert SplitRe(CLOSE, ts[0]) == SplitChar(ts[0], '}');
    }
  }

  /** Every token of a block is non-empty and free of braces `}`. */
  lemma BranchTokensClean(block: string, hasElse: bool)
    ensures forall x :: x in BranchTokens(block, hasElse) ==> x != "" && '}' !in x
  {
    SplittersSolid();
    var afterElse := Stage(ELSE, Stage(IF, Stage(ELSE_IF, [block])));
    var afterThen := Stage(THEN, if hasElse then InsertTrue(afterElse) else afterElse);
    assert BranchTokens(block, hasElse) == Stage(CLOSE, afterThen);
    NonEmptyFacts(SplitEach(CLOSE, afterThen));
    ClosedPiecesSplit(afterThen);
    NonEmptyKeeps(SplitEach(CLOSE, afterThen));
  }

  /** Every body is one of the tokens. */
  lemma OddsAreTokens(ts: seq<string>)
    ensures forall x :: x in Odds(ts) ==> x in ts
  {
    forall x | x in Odds(ts) ensures x in ts {
      var k :| 0 <= k < |Odds(ts)| && Odds(ts)[k] == x;
      assert ts[2 * k + 1] == x;
    }
  }

  /** An odd number of tokens is refused by the length assertion; otherwise
      no body is chosen exactly when every condition is False, and a chosen
      body is the one after the first True condition, all before it False. */
  lemma ChooseBodyFacts(ts: seq<string>, ev: Condition)
    ensures ChooseBody(ts, ev).Ok? ==> |ts| % 2 == 0
    ensures ChooseBody(ts, ev) == Ok(None) <==> |ts| % 2 == 0 && AllFalse(Evens(ts), ev, 0, |Evens(ts)|)
    ensures ChooseBody(ts, ev).Ok? && ChooseBody(ts, ev).value.Some? ==>
      exists k :: 0 <= k < |Odds(ts)| && AllFalse(Evens(ts), ev, 0, k) && ev(Evens(ts)[k]) == Ok(BoolVal(true))
        && ChooseBody(ts, ev).value.value == Odds(ts)[k]
  {
    if |ts| % 2 == 0 {
      FirstTrueNone(Evens(ts), Odds(ts), ev, 0);
      if ChooseBody(ts, ev).Ok? && ChooseBody(ts, ev).value.Some? {
        FirstTrueSome(Evens(ts), Odds(ts), ev, 0);
      }
    }
  }

  /** What `handle_conditional_statements` hands back: a refused block's
      error, or the choice among the block's tokens, where a chosen body is
      non-empty text without `}`. */
  lemma HandleConditionalFacts(block: string, ev: Condition)
    ensures IfElseSyntax(block).Err? ==> HandleConditional(block, ev) == Err(IfElseSyntax(block).error)
    ensures IfElseSyntax(block).Ok? ==> HandleConditional(block, ev) == ChooseBody(BranchTokens(block, IfElseSyntax(block).value), ev)
    ensures HandleConditional(block, ev).Ok? && HandleConditional(block, ev).value.Some? ==>
      HandleConditional(block, ev).value.value != "" && '}' !in HandleConditional(block, ev).value.value
  {
    if IfElseSyntax(block).Ok? {
      var ts := BranchTokens(block, IfElseSyntax(block).value);
      var r := ChooseBody(ts, ev);
      if r.Ok? && r.value.Some? {
        ChooseBodyFacts(ts, ev);
        var k :| 0 <= k < |Odds(ts)| && r.value.value == Odds(ts)[k];
        assert r.value.value in Odds(ts);
        OddsAreTokens(ts);
        BranchTokensClean(block, IfElseSyntax(block).value);
      }
    }
  }

  /** `handle_conditional_statements` as written: the syntax check, the
      tokenizer, the dealing loop, the length assertion and the condition
      loop. */
  method HandleConditionalStatements(block: string, ev: Condition) returns (r: Result<Option<string>>)
    ensures r == HandleConditional(block, ev)
  {
    var hasElse :- VerifyIfElseSyntax(block);
    var tokens := BranchTokens(block, hasElse);
    var conds, stmts := SplitBranches(tokens);
    if |conds| != |stmts| {
      return Err(AssertionError("conditions_list and statements_list are of different lengths"));
    }
    r := SelectBranch(conds, stmts, ev);
  }
}
