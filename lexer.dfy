/** Tokenisation shared by the compiler buffer, the frontend parser and the
    interpreter: every delimiter is padded with one space on each side, then the
    line is split on whitespace. */
module Lexer {
  import opened PyText

  /** The delimiters of the compiler and the frontend, in the order they are padded. */
  const DELIMS: seq<char> := ['{', '}', '(', ')', '[', ']', '=', ';', ',']

  function CharSet(ds: seq<char>): set<char> {
    set c | c in ds
  }

  /** `c` after padding: a delimiter becomes " c ", anything else stays. */
  function PadChar(c: char, ds: set<char>): string {
    if c in ds then [' ', c, ' '] else [c]
  }

  /** The line with every delimiter of `ds` padded, all in one pass. */
  function Padded(s: string, ds: set<char>): string {
    if s == [] then [] else PadChar(s[0], ds) + Padded(s[1..], ds)
  }

  /** The tokens of a line. */
  function Tokens(line: string, ds: set<char>): seq<string> {
    Words(Padded(line, ds))
  }

  /** The delimiters are distinct and none of them is whitespace. */
  predicate ValidDelims(delims: seq<char>) {
    (forall i :: 0 <= i < |delims| ==> !IsSpace(delims[i]))
    && (forall i, j :: 0 <= i < j < |delims| ==> delims[i] != delims[j])
  }

  lemma DelimsValid()
    ensures ValidDelims(DELIMS)
  {
  }

  /** Padding one more delimiter over an already padded line is the one-pass
      padding with that delimiter added. */
  lemma {:induction false} ReplacePadded(s: string, ds: set<char>, d: char)
    requires d !in ds && d != ' '
    ensures Replace(Padded(s, ds), d, [' ', d, ' ']) == Padded(s, ds + {d})
  {
    if s != [] {
      ReplacePadded(s[1..], ds, d);
      ReplaceConcat(PadChar(s[0], ds), Padded(s[1..], ds), d, [' ', d, ' ']);
      if s[0] in ds {
        assert Replace(PadChar(s[0], ds), d, [' ', d, ' ']) == [' ', s[0], ' '] by {
          assert PadChar(s[0], ds) == [' '] + [s[0]] + [' '];
          ReplaceConcat([' '] + [s[0]], [' '], d, [' ', d, ' ']);
          ReplaceConcat([' '], [s[0]], d, [' ', d, ' ']);
        }
      }
    }
  }

  /** The padding loop of `Buffer.tokenize` (and of the frontend `tokenize`):
      one `str.replace` per delimiter, in order. */
  method PadDelims(line: string, delims: seq<char>) returns (s: string)
    requires ValidDelims(delims)
    ensures s == Padded(line, CharSet(delims))
  {
    s := line;
    assert s == Padded(line, {}) by { PaddedNone(line); }
    assert CharSet(delims[..0]) == {};
    for i := 0 to |delims|
      invariant s == Padded(line, CharSet(delims[..i]))
    {
      assert CharSet(delims[..i + 1]) == CharSet(delims[..i]) + {delims[i]} by {
        assert delims[..i + 1] == delims[..i] + [delims[i]];
      }
      ReplacePadded(line, CharSet(delims[..i]), delims[i]);
      s := Replace(s, delims[i], [' ', delims[i], ' ']);
    }
    assert delims[..|delims|] == delims;
  }

  lemma {:induction false} PaddedNone(s: string)
    ensures Padded(s, {}) == s
  {
    if s != [] { PaddedNone(s[1..]); }
  }

  /** `tokenize(line)`: pad, then `split()`. */
  method Tokenize(line: string, delims: seq<char>) returns (tokens: seq<string>)
    requires ValidDelims(delims)
    ensures tokens == Tokens(line, CharSet(delims))
  {
    var s := PadDelims(line, delims);
    tokens := Words(s);
  }

  // ---------------------------------------------------------------------------
  // What tokenisation promises.

  /** No delimiter of `ds` touches a non-whitespace character. */
  predicate Isolated(s: string, ds: set<char>) {
    forall i :: 0 <= i < |s| && s[i] in ds ==>
      (i == 0 || IsSpace(s[i - 1])) && (i + 1 == |s| || IsSpace(s[i + 1]))
  }

  lemma {:induction false} PaddedIsolated(s: string, ds: set<char>)
    requires ' ' !in ds
    ensures Isolated(Padded(s, ds), ds)
    ensures Padded(s, ds) != [] ==>
      Padded(s, ds)[0] !in ds && Padded(s, ds)[|Padded(s, ds)| - 1] !in ds
  {
    if s != [] {
      PaddedIsolated(s[1..], ds);
      var a, q := PadChar(s[0], ds), Padded(s[1..], ds);
      var p := a + q;
      forall i | 0 <= i < |p| && p[i] in ds
        ensures (i == 0 || IsSpace(p[i - 1])) && (i + 1 == |p| || IsSpace(p[i + 1]))
      {
        if i >= |a| {
          assert q[i - |a|] == p[i];
        }
      }
    }
  }

  /** In an isolated line every word holding a delimiter is that delimiter alone. */
  lemma {:induction false} WordsIsolated(s: string, ds: set<char>)
    requires Isolated(s, ds)
    ensures forall k, j :: 0 <= k < |Words(s)| && 0 <= j < |Words(s)[k]| && Words(s)[k][j] in ds ==>
      Words(s)[k] == [Words(s)[k][j]]
    decreases |s|
  {
    if s != [] {
      if IsSpace(s[0]) {
        assert Isolated(s[1..], ds);
        WordsIsolated(s[1..], ds);
      } else {
        var n := WordRun(s);
        assert Isolated(s[n..], ds);
        WordsIsolated(s[n..], ds);
        forall j | 0 < j < n ensures s[j] !in ds {
          assert !IsSpace(s[j - 1]);
        }
        assert n > 1 ==> s[0] !in ds by {
          if n > 1 { assert !IsSpace(s[1]); }
        }
        var w := s[..n];
        forall j | 0 <= j < |w| && w[j] in ds ensures w == [w[j]] {
          assert s[j] == w[j];
        }
      }
    }
  }

  /** Every token is non-empty, holds no whitespace, and a token that holds a
      delimiter is exactly that delimiter. */
  lemma TokensShape(line: string, delims: seq<char>)
    requires ValidDelims(delims)
    ensures forall k :: 0 <= k < |Tokens(line, CharSet(delims))| ==>
      Tokens(line, CharSet(delims))[k] != [] && NoSpace(Tokens(line, CharSet(delims))[k])
    ensures forall k, j ::
      (0 <= k < |Tokens(line, CharSet(delims))|
       && 0 <= j < |Tokens(line, CharSet(delims))[k]|
       && Tokens(line, CharSet(delims))[k][j] in CharSet(delims)) ==>
      Tokens(line, CharSet(delims))[k] == [Tokens(line, CharSet(delims))[k][j]]
  {
    PaddedIsolated(line, CharSet(delims));
    WordsIsolated(Padded(line, CharSet(delims)), CharSet(delims));
  }

  lemma {:induction false} PaddedNonSpace(s: string, ds: set<char>)
    requires ' ' !in ds
    ensures NonSpace(Padded(s, ds)) == NonSpace(s)
  {
    if s != [] {
      PaddedNonSpace(s[1..], ds);
      NonSpaceConcat(PadChar(s[0], ds), Padded(s[1..], ds));
      if s[0] in ds {
        NonSpaceConcat([' '] + [s[0]], [' ']);
        NonSpaceConcat([' '], [s[0]]);
        assert PadChar(s[0], ds) == [' '] + [s[0]] + [' '];
      }
    }
  }

  /** Tokenising drops the whitespace and nothing else: the tokens, concatenated,
      are the line's non-whitespace characters in order. */
  lemma TokensKeepText(line: string, delims: seq<char>)
    requires ValidDelims(delims)
    ensures Concat(Tokens(line, CharSet(delims))) == NonSpace(line)
  {
    PaddedNonSpace(line, CharSet(delims));
    WordsKeepText(Padded(line, CharSet(delims)));
  }
}
