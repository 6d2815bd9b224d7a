/** The Python `str` builtins and the fixed `re` patterns the interpreter relies on,
    defined on `seq<char>` so that every other module can state its behaviour in
    the same terms the Python code does. */
module PyText {
  import opened Wrappers

  /** `str.isspace()` for one character: the ASCII separators, the C0 information
      separators, NEL, NO-BREAK SPACE and the Unicode space separators. */
  predicate IsSpace(c: char) {
    c == ' ' || ('\t' <= c <= '\r') || ('\U{1C}' <= c <= '\U{1F}')
    || c == '\U{85}' || c == '\U{A0}' || c == '\U{1680}'
    || ('\U{2000}' <= c <= '\U{200A}') || c == '\U{2028}' || c == '\U{2029}'
    || c == '\U{202F}' || c == '\U{205F}' || c == '\U{3000}'
  }

  predicate NoSpace(s: string) {
    forall i :: 0 <= i < |s| ==> !IsSpace(s[i])
  }

  /** Length of the whitespace run that starts `s`. */
  function SpaceRun(s: string): (n: nat)
    ensures n <= |s|
    ensures forall i :: 0 <= i < n ==> IsSpace(s[i])
    ensures n < |s| ==> !IsSpace(s[n])
  {
    if s == [] || !IsSpace(s[0]) then 0 else 1 + SpaceRun(s[1..])
  }

  /** Length of the non-whitespace run that starts `s`. */
  function WordRun(s: string): (n: nat)
    ensures n <= |s|
    ensures forall i :: 0 <= i < n ==> !IsSpace(s[i])
    ensures n < |s| ==> IsSpace(s[n])
  {
    if s == [] || IsSpace(s[0]) then 0 else 1 + WordRun(s[1..])
  }

  /** `s.split()`: the maximal runs of non-whitespace characters, in order. */
  function Words(s: string): (ws: seq<string>)
    ensures forall i :: 0 <= i < |ws| ==> ws[i] != [] && NoSpace(ws[i])
    decreases |s|
  {
    if s == [] then []
    else if IsSpace(s[0]) then Words(s[1..])
    else
      var n := WordRun(s);
      [s[..n]] + Words(s[n..])
  }

  /** Concatenation of a list of strings, the reference for `Words`. */
  function Concat(ws: seq<string>): string {
    if ws == [] then [] else ws[0] + Concat(ws[1..])
  }

  /** `s.strip()`: drop the leading and trailing whitespace. */
  function Strip(s: string): (r: string)
    ensures r == [] || (!IsSpace(r[0]) && !IsSpace(r[|r| - 1]))
    ensures exists i, j ::
              (0 <= i <= j <= |s| && r == s[i..j]
               && (forall k :: 0 <= k < i ==> IsSpace(s[k]))
               && (forall k :: j <= k < |s| ==> IsSpace(s[k])))
  {
    var i := SpaceRun(s);
    var j := |s| - TrailingSpace(s[i..]);
    assert s[i..][..j - i] == s[i..j];
    s[i..j]
  }

  /** Length of the whitespace run that ends `s`. */
  function TrailingSpace(s: string): (n: nat)
    ensures n <= |s|
    ensures forall k :: |s| - n <= k < |s| ==> IsSpace(s[k])
    ensures n < |s| ==> !IsSpace(s[|s| - n - 1])
  {
    if s == [] || !IsSpace(s[|s| - 1]) then 0 else 1 + TrailingSpace(s[..|s| - 1])
  }

  /** `sep.join(ws)`. */
  function Join(ws: seq<string>, sep: string): string {
    if ws == [] then []
    else if |ws| == 1 then ws[0]
    else ws[0] + sep + Join(ws[1..], sep)
  }

  /** `s.startswith(p)`. */
  predicate StartsWith(s: string, p: string) {
    |p| <= |s| && s[..|p|] == p
  }

  /** `s.find(sub, start)`: the first index at or after `start` where `sub` occurs,
      or -1. */
  function Find(s: string, sub: string, start: nat): (r: int)
    ensures r == -1 || (start <= r <= |s| && StartsWith(s[r..], sub))
    ensures r == -1 ==> forall j :: start <= j <= |s| ==> !StartsWith(s[j..], sub)
    ensures r != -1 ==> forall j :: start <= j < r ==> !StartsWith(s[j..], sub)
    decreases |s| - start
  {
    if start + |sub| > |s| then -1
    else if StartsWith(s[start..], sub) then start
    else Find(s, sub, start + 1)
  }

  /** `sub in s`. */
  predicate Contains(s: string, sub: string) {
    Find(s, sub, 0) != -1
  }

  /** ASCII `c.lower()`. */
  function LowerChar(c: char): char {
    if 'A' <= c <= 'Z' then (c as int + 32) as char else c
  }

  /** `s.lower()` on ASCII letters; every other character is kept. */
  function Lower(s: string): (r: string)
    ensures |r| == |s|
    ensures forall i :: 0 <= i < |s| ==> r[i] == LowerChar(s[i])
  {
    if s == [] then [] else [LowerChar(s[0])] + Lower(s[1..])
  }

  /** `s.replace(c, rep)` for a one-character `c`. */
  function Replace(s: string, c: char, rep: string): string {
    if s == [] then []
    else (if s[0] == c then rep else [s[0]]) + Replace(s[1..], c, rep)
  }

  lemma {:induction false} ReplaceConcat(a: string, b: string, c: char, rep: string)
    ensures Replace(a + b, c, rep) == Replace(a, c, rep) + Replace(b, c, rep)
  {
    if a == [] {
      assert a + b == b;
    } else {
      assert (a + b)[0] == a[0] && (a + b)[1..] == a[1..] + b;
      ReplaceConcat(a[1..], b, c, rep);
      var h := if a[0] == c then rep else [a[0]];
      calc {
        Replace(a + b, c, rep);
        h + Replace(a[1..] + b, c, rep);
        h + (Replace(a[1..], c, rep) + Replace(b, c, rep));
        (h + Replace(a[1..], c, rep)) + Replace(b, c, rep);
        Replace(a, c, rep) + Replace(b, c, rep);
      }
    }
  }

  // ---------------------------------------------------------------------------
  // The regular expressions of the core are made of literal characters, negated
  // character classes and `\s*`.  Every `\s*` in them is followed by a literal
  // that is not whitespace, or ends the pattern, so the greedy match below, which
  // never backtracks into a `\s*`, finds what Python's `re` finds.

  datatype Atom = Ws | Lit(c: char) | NotIn(cs: seq<char>)
  type Pattern = seq<Atom>

  /** A pattern with at least one atom that consumes a character, so it never
      matches the empty string. */
  predicate Solid(p: Pattern) {
    p != [] && (p[0].Ws? ==> Solid(p[1..]))
  }

  /** Every `\s*` is followed by a non-space literal or ends the pattern. */
  predicate Deterministic(p: Pattern) {
    forall i :: 0 <= i < |p| && p[i].Ws? ==>
      i + 1 == |p| || (p[i + 1].Lit? && !IsSpace(p[i + 1].c))
  }

  /** Reference matcher: `p` matches exactly `s`, with any split of whitespace
      runs among the `\s*` atoms. */
  predicate MatchesExactly(p: Pattern, s: string)
    decreases |p|, |s|
  {
    if p == [] then s == []
    else match p[0]
      case Ws => MatchesExactly(p[1..], s) || (s != [] && IsSpace(s[0]) && MatchesExactly(p, s[1..]))
      case Lit(c) => s != [] && s[0] == c && MatchesExactly(p[1..], s[1..])
      case NotIn(cs) => s != [] && s[0] !in cs && MatchesExactly(p[1..], s[1..])
  }

  /** `re.match(p, s)`: the length of the greedy match of `p` at the start of `s`.
      `MatchAtSound` relates it to the reference matcher. */
  function MatchAt(p: Pattern, s: string): (r: Option<nat>)
    ensures r.Some? ==> r.value <= |s|
    ensures r.Some? && Solid(p) ==> r.value > 0
    decreases |p|
  {
    if p == [] then Some(0)
    else match p[0]
      case Ws =>
        var k := SpaceRun(s);
        var m := MatchAt(p[1..], s[k..]);
        if m.None? then None
        else Some(k + m.value)
      case Lit(c) =>
        if s != [] && s[0] == c then
          var m := MatchAt(p[1..], s[1..]);
          if m.None? then None else Some(1 + m.value)
        else None
      case NotIn(cs) =>
        if s != [] && s[0] !in cs then
          var m := MatchAt(p[1..], s[1..]);
          if m.None? then None else Some(1 + m.value)
        else None
  }

  /** What `MatchAt` finds is a match in the sense of the reference matcher. */
  lemma {:induction false} MatchAtSound(p: Pattern, s: string)
    ensures MatchAt(p, s).Some? ==> MatchesExactly(p, s[..MatchAt(p, s).value])
    decreases |p|
  {
    if p != [] && MatchAt(p, s).Some? {
      var n := MatchAt(p, s).value;
      match p[0]
      case Ws =>
        var k := SpaceRun(s);
        var m := MatchAt(p[1..], s[k..]).value;
        MatchAtSound(p[1..], s[k..]);
        assert s[..n][k..] == s[k..][..m];
        WsPrefix(p, s[..n], k);
      case Lit(c) =>
        MatchAtSound(p[1..], s[1..]);
        assert s[..n][1..] == s[1..][..n - 1];
      case NotIn(cs) =>
        MatchAtSound(p[1..], s[1..]);
        assert s[..n][1..] == s[1..][..n - 1];
    }
  }

  /** A leading whitespace run of `k` characters can be given to a `\s*` atom. */
  lemma {:induction false} WsPrefix(p: Pattern, s: string, k: nat)
    requires p != [] && p[0].Ws? && k <= |s|
    requires forall i :: 0 <= i < k ==> IsSpace(s[i])
    requires MatchesExactly(p[1..], s[k..])
    ensures MatchesExactly(p, s)
    decreases k
  {
    if k > 0 {
      assert s[1..][k - 1..] == s[k..];
      WsPrefix(p, s[1..], k - 1);
    }
  }

  /** `re.sub(p, rep, s)`: every leftmost, non-overlapping match replaced. */
  function Sub(p: Pattern, rep: string, s: string): string
    requires Solid(p)
    decreases |s|
  {
    if s == [] then []
    else match MatchAt(p, s)
      case Some(n) => rep + Sub(p, rep, s[n..])
      case None => [s[0]] + Sub(p, rep, s[1..])
  }

  /** `re.split(p, s)`: the pieces between the leftmost, non-overlapping matches. */
  function SplitRe(p: Pattern, s: string): (r: seq<string>)
    requires Solid(p)
    ensures |r| >= 1
    decreases |s|
  {
    if s == [] then [[]]
    else match MatchAt(p, s)
      case Some(n) => [[]] + SplitRe(p, s[n..])
      case None =>
        var rest := SplitRe(p, s[1..]);
        [[s[0]] + rest[0]] + rest[1..]
  }

  /** `s.split(c)` for a one-character separator. */
  function SplitChar(s: string, c: char): (r: seq<string>)
    ensures |r| >= 1
  {
    assert !([Lit(c)][0].Ws?);
    SplitRe([Lit(c)], s)
  }

  /** A piece produced by `s.split(c)` never contains `c`. */
  lemma {:induction false} SplitCharPieces(s: string, c: char)
    ensures forall i :: 0 <= i < |SplitChar(s, c)| ==> c !in SplitChar(s, c)[i]
    decreases |s|
  {
    assert !([Lit(c)][0].Ws?);
    if s != [] {
      SplitCharPieces(s[1..], c);
      var rest := SplitChar(s[1..], c);
      if s[0] == c {
        assert MatchAt([Lit(c)], s) == Some(1);
        assert SplitChar(s, c) == [[]] + rest;
      } else {
        assert MatchAt([Lit(c)], s) == None;
        assert SplitChar(s, c) == [[s[0]] + rest[0]] + rest[1..];
      }
    }
  }

  /** `c.join(s.split(c)) == s`: splitting on one character loses nothing. */
  lemma {:induction false} SplitCharJoin(s: string, c: char)
    ensures Join(SplitChar(s, c), [c]) == s
    decreases |s|
  {
    assert !([Lit(c)][0].Ws?);
    if s != [] {
      SplitCharJoin(s[1..], c);
      var rest := SplitChar(s[1..], c);
      if s[0] == c {
        assert MatchAt([Lit(c)], s) == Some(1);
        assert SplitChar(s, c) == [[]] + rest;
      } else {
        assert MatchAt([Lit(c)], s) == None;
        assert SplitChar(s, c) == [[s[0]] + rest[0]] + rest[1..];
        if |rest| == 1 {
          assert Join(rest, [c]) == rest[0];
        } else {
          assert Join(rest, [c]) == rest[0] + [c] + Join(rest[1..], [c]);
        }
      }
    }
  }

  /** `s.split()` keeps every non-whitespace character, in order. */
  lemma {:induction false} WordsKeepText(s: string)
    ensures Concat(Words(s)) == NonSpace(s)
    decreases |s|
  {
    if s != [] {
      if IsSpace(s[0]) {
        WordsKeepText(s[1..]);
      } else {
        var n := WordRun(s);
        WordsKeepText(s[n..]);
        NonSpaceOfWord(s[..n]);
        assert s == s[..n] + s[n..];
        NonSpaceConcat(s[..n], s[n..]);
      }
    }
  }

  /** The non-whitespace characters of `s`, in order. */
  function NonSpace(s: string): string {
    if s == [] then [] else (if IsSpace(s[0]) then [] else [s[0]]) + NonSpace(s[1..])
  }

  lemma {:induction false} NonSpaceConcat(a: string, b: string)
    ensures NonSpace(a + b) == NonSpace(a) + NonSpace(b)
  {
    if a == [] {
      assert a + b == b;
    } else {
      assert (a + b)[0] == a[0] && (a + b)[1..] == a[1..] + b;
      NonSpaceConcat(a[1..], b);
      var h := if IsSpace(a[0]) then [] else [a[0]];
      calc {
        NonSpace(a + b);
        h + NonSpace(a[1..] + b);
        h + (NonSpace(a[1..]) + NonSpace(b));
        (h + NonSpace(a[1..])) + NonSpace(b);
        NonSpace(a) + NonSpace(b);
      }
    }
  }

  lemma {:induction false} NonSpaceOfWord(w: string)
    requires NoSpace(w)
    ensures NonSpace(w) == w
  {
    if w != [] { NonSpaceOfWord(w[1..]); }
  }

  /** A non-empty string without whitespace splits into itself. */
  lemma WordsOfWord(w: string)
    requires w != [] && NoSpace(w)
    ensures Words(w) == [w]
  {
    assert WordRun(w) == |w|;
    assert w[..|w|] == w && w[|w|..] == [];
    assert Words(w) == [w[..|w|]] + Words(w[|w|..]);
  }

  /** Two words joined by one space split back into the two words. */
  lemma WordsOfPair(a: string, b: string)
    requires a != [] && NoSpace(a) && b != [] && NoSpace(b)
    ensures Words(a + " " + b) == [a, b]
  {
    var s := a + " " + b;
    assert s[|a|] == ' ';
    var n := WordRun(s);
    assert forall i :: 0 <= i < |a| ==> s[i] == a[i];
    assert n == |a|;
    assert s[..n] == a && s[n..] == " " + b && (" " + b)[1..] == b;
    WordsOfWord(b);
  }

  lemma NoSpaceConcat3(x: string, y: string, z: string)
    requires NoSpace(x) && NoSpace(y) && NoSpace(z)
    ensures NoSpace(x + y + z)
  {
    var s := x + y + z;
    forall i | 0 <= i < |s| ensures !IsSpace(s[i]) {
      if i < |x| { assert s[i] == x[i]; }
      else if i < |x| + |y| { assert s[i] == y[i - |x|]; }
      else { assert s[i] == z[i - |x| - |y|]; }
    }
  }

  /** A string without whitespace is its own `strip()`. */
  lemma StripOfWord(w: string)
    requires NoSpace(w)
    ensures Strip(w) == w
  {
    if w != [] {
      assert SpaceRun(w) == 0;
      assert w[0..] == w;
      assert TrailingSpace(w) == 0;
    }
  }

  /** A string in which `p` matches nowhere is not split. */
  lemma {:induction false} SplitNoMatch(p: Pattern, s: string)
    requires Solid(p)
    requires forall i :: 0 <= i < |s| ==> MatchAt(p, s[i..]).None?
    ensures SplitRe(p, s) == [s]
    decreases |s|
  {
    if s != [] {
      assert MatchAt(p, s[0..]).None? && s[0..] == s;
      forall i | 0 <= i < |s[1..]| ensures MatchAt(p, s[1..][i..]).None? {
        assert s[1..][i..] == s[i + 1..];
      }
      SplitNoMatch(p, s[1..]);
      assert [s[0]] + s[1..] == s;
    }
  }

  /** A pattern that needs the character `c` does not match text without it. */
  lemma {:induction false} MatchNeedsLit(p: Pattern, s: string, c: char)
    requires Lit(c) in p && c !in s
    ensures MatchAt(p, s).None?
    decreases |p|
  {
    if p[0] != Lit(c) {
      assert Lit(c) in p[1..] by { var i :| 0 <= i < |p| && p[i] == Lit(c); assert p[1..][i - 1] == p[i]; }
      match p[0]
      case Ws =>
        var k := SpaceRun(s);
        assert c !in s[k..];
        MatchNeedsLit(p[1..], s[k..], c);
      case Lit(_) =>
        if s != [] { MatchNeedsLit(p[1..], s[1..], c); }
      case NotIn(_) =>
        if s != [] { MatchNeedsLit(p[1..], s[1..], c); }
    }
  }

  /** A substitution that matches nowhere leaves the text as it is. */
  lemma {:induction false} SubNoMatch(p: Pattern, rep: string, s: string)
    requires Solid(p)
    requires forall i :: 0 <= i < |s| ==> MatchAt(p, s[i..]).None?
    ensures Sub(p, rep, s) == s
    decreases |s|
  {
    if s != [] {
      assert MatchAt(p, s[0..]).None? && s[0..] == s;
      forall i | 0 <= i < |s[1..]| ensures MatchAt(p, s[1..][i..]).None? {
        assert s[1..][i..] == s[i + 1..];
      }
      SubNoMatch(p, rep, s[1..]);
      assert [s[0]] + s[1..] == s;
    }
  }

  /** A one-character split of a string without that character is the string. */
  lemma SplitCharNone(s: string, c: char)
    requires c !in s
    ensures SplitChar(s, c) == [s]
  {
    assert !([Lit(c)][0].Ws?);
    forall i | 0 <= i < |s| ensures MatchAt([Lit(c)], s[i..]).None? {
      assert s[i..][0] == s[i];
    }
    SplitNoMatch([Lit(c)], s);
  }

  /** The first piece of a one-character split ends at the first separator. */
  lemma {:induction false} SplitCharFirst(a: string, b: string, c: char)
    requires c !in a
    ensures SplitChar(a + [c] + b, c) == [a] + SplitChar(b, c)
    decreases |a|
  {
    assert !([Lit(c)][0].Ws?);
    var s := a + [c] + b;
    if a == [] {
      assert s == [c] + b && s[0] == c;
      assert MatchAt([Lit(c)], s) == Some(1) by {
        assert MatchAt([Lit(c)][1..], s[1..]) == Some(0);
      }
      assert s[1..] == b;
    } else {
      assert s[0] == a[0] && s[1..] == a[1..] + [c] + b;
      assert MatchAt([Lit(c)], s) == None;
      SplitCharFirst(a[1..], b, c);
      assert [a[0]] + a[1..] == a;
    }
  }

  /** `p` matches at none of the first `k` positions of `s`. */
  predicate NoMatchBefore(p: Pattern, s: string, k: nat)
    requires k <= |s|
  {
    forall i {:trigger MatchAt(p, s[i..])} :: 0 <= i < k ==> MatchAt(p, s[i..]).None?
  }

  /** One step of `Sub` at a position where the pattern does not match. */
  lemma SubStep(p: Pattern, rep: string, s: string)
    requires Solid(p) && s != [] && MatchAt(p, s).None?
    ensures Sub(p, rep, s) == [s[0]] + Sub(p, rep, s[1..])
  {
  }

  /** A substitution whose pattern matches at none of the first `k` positions keeps
      those `k` characters and goes on with the rest. */
  lemma {:induction false} SubSkips(p: Pattern, rep: string, s: string, k: nat)
    requires Solid(p) && k <= |s| && NoMatchBefore(p, s, k)
    ensures Sub(p, rep, s) == s[..k] + Sub(p, rep, s[k..])
    decreases k
  {
    if k == 0 {
      assert s[..0] == [] && s[0..] == s;
    } else {
      NoMatchShift(p, s, k);
      SubStep(p, rep, s);
      SubSkips(p, rep, s[1..], k - 1);
      SliceShift(s, k, Sub(p, rep, s[k..]));
    }
  }

  /** Taking the first character off `s` shifts its slices by one. */
  lemma SliceShift(s: string, k: nat, x: string)
    requires 0 < k <= |s|
    ensures s[1..][k - 1..] == s[k..]
    ensures [s[0]] + (s[1..][..k - 1] + x) == s[..k] + x
  {
    assert [s[0]] + s[1..][..k - 1] == s[..k];
  }

  /** No match before `k` in `s` means no match at `s` itself and none before
      `k - 1` in `s[1..]`. */
  lemma NoMatchShift(p: Pattern, s: string, k: nat)
    requires 0 < k <= |s| && NoMatchBefore(p, s, k)
    ensures MatchAt(p, s).None? && NoMatchBefore(p, s[1..], k - 1)
  {
    assert MatchAt(p, s[0..]).None? && s[0..] == s;
    forall i {:trigger MatchAt(p, s[1..][i..])} | 0 <= i < k - 1 ensures MatchAt(p, s[1..][i..]).None? {
      assert s[1..][i..] == s[i + 1..];
    }
  }

  /** A match of a pattern whose first `n` atoms are literals starts with those
      literals. */
  lemma {:induction false} LitsPrefix(q: Pattern, u: string, n: nat)
    requires n <= |q| && forall j :: 0 <= j < n ==> q[j].Lit?
    requires MatchAt(q, u).Some?
    ensures n <= |u| && forall j :: 0 <= j < n ==> u[j] == q[j].c
    decreases n
  {
    if n > 0 {
      assert q[0].Lit?;
      assert u != [] && u[0] == q[0].c && MatchAt(q[1..], u[1..]).Some?;
      LitsPrefix(q[1..], u[1..], n - 1);
      forall j | 0 <= j < n ensures u[j] == q[j].c {
        if j > 0 { assert u[1..][j - 1] == u[j] && q[1..][j - 1] == q[j]; }
      }
    }
  }

  /** A match of `\s*` followed by `n` literals has those literals right after the
      leading whitespace run. */
  lemma LitsAfterSpace(q: Pattern, t: string, n: nat)
    requires n < |q| && q[0].Ws? && forall j :: 1 <= j <= n ==> q[j].Lit?
    ensures MatchAt(q, t).Some? ==> SpaceRun(t) + n <= |t|
    ensures MatchAt(q, t).Some? ==> forall j :: 1 <= j <= n ==> t[SpaceRun(t) + j - 1] == q[j].c
  {
    if MatchAt(q, t).Some? {
      var k := SpaceRun(t);
      assert MatchAt(q[1..], t[k..]).Some?;
      LitsPrefix(q[1..], t[k..], n);
      forall j | 1 <= j <= n ensures t[k + j - 1] == q[j].c {
        assert t[k..][j - 1] == t[k + j - 1] && q[1..][j - 1] == q[j];
      }
    }
  }

  /** `c1 c2 c3` stand at `j` in `s`. */
  predicate TripleAt(s: string, j: int, c1: char, c2: char, c3: char) {
    0 <= j && j + 2 < |s| && s[j] == c1 && s[j + 1] == c2 && s[j + 2] == c3
  }

  /** A match at `i` of `\s*` and three literals has them right after the
      whitespace run that starts at `i`. */
  lemma TripleAfterSpace(q: Pattern, s: string, i: nat)
    requires |q| > 3 && q[0].Ws? && q[1].Lit? && q[2].Lit? && q[3].Lit? && i <= |s|
    ensures MatchAt(q, s[i..]).Some? ==>
      TripleAt(s, i + SpaceRun(s[i..]), q[1].c, q[2].c, q[3].c)
  {
    var t := s[i..];
    LitsAfterSpace(q, t, 3);
    var k := SpaceRun(t);
    assert MatchAt(q, t).Some? ==> t[k + 1 - 1] == q[1].c && t[k + 2 - 1] == q[2].c && t[k + 3 - 1] == q[3].c;
  }

  /** `\s*` at the head of a pattern takes the whitespace run at the head of
      the text, and the rest of the pattern goes on from there. */
  lemma WsStepAt(p: Pattern, s: string, n: nat)
    requires p != [] && p[0].Ws? && MatchAt(p[1..], s[SpaceRun(s)..]) == Some(n)
    ensures MatchAt(p, s) == Some(SpaceRun(s) + n)
  {
  }

  /** A literal at the head of a pattern takes the same character at the head
      of the text, and the rest of the pattern goes on from there. */
  lemma LitStepAt(p: Pattern, s: string, n: nat)
    requires p != [] && p[0].Lit? && s != [] && s[0] == p[0].c && MatchAt(p[1..], s[1..]) == Some(n)
    ensures MatchAt(p, s) == Some(n + 1)
  {
    match p[0]
    case Lit(_) =>
  }

  /** The whitespace run starting at `i` ends at the latest at a non-space `s[j]`. */
  lemma SpaceRunStops(s: string, i: nat, j: nat)
    requires i <= j < |s| && !IsSpace(s[j])
    ensures i + SpaceRun(s[i..]) <= j
  {
    assert s[i..][j - i] == s[j];
  }

  /** No whitespace at either end. */
  predicate Trimmed(s: string) {
    s == [] || (!IsSpace(s[0]) && !IsSpace(s[|s| - 1]))
  }

  /** A string without whitespace at its ends is its own `strip()`. */
  lemma StripTrimmed(s: string)
    requires Trimmed(s)
    ensures Strip(s) == s
  {
    if s != [] {
      assert SpaceRun(s) == 0;
      assert s[0..] == s;
      assert TrailingSpace(s) == 0;
    }
  }
}
