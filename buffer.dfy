/** The token buffer of the compiler (compiler/buffer.py).  The buffer keeps its
    tokens in reverse order so that taking the first token is a pop from the end
    of the list; `Contents()` is the logical order the parser sees. */
module Buffers {
  import opened Wrappers
  import opened PyText
  import Lexer

  function Reverse<T>(s: seq<T>): (r: seq<T>)
    ensures |r| == |s|
  {
    if s == [] then [] else Reverse(s[1..]) + [s[0]]
  }

  lemma {:induction false} ReverseAt<T>(s: seq<T>, k: nat)
    requires k < |s|
    ensures Reverse(s)[k] == s[|s| - 1 - k]
  {
    if k < |s| - 1 { ReverseAt(s[1..], k); }
  }

  lemma {:induction false} ReverseInvolution<T>(s: seq<T>)
    ensures Reverse(Reverse(s)) == s
  {
    forall k | 0 <= k < |s| ensures Reverse(Reverse(s))[k] == s[k] {
      ReverseAt(Reverse(s), k);
      ReverseAt(s, |s| - 1 - k);
    }
  }

  /** Dropping the last element of a list drops the first of its reverse. */
  lemma {:induction false} ReverseDropLast<T>(s: seq<T>)
    requires s != []
    ensures Reverse(s[..|s| - 1]) == Reverse(s)[1..]
  {
    var init := s[..|s| - 1];
    var r := Reverse(s);
    forall k | 0 <= k < |init| ensures Reverse(init)[k] == r[k + 1] {
      ReverseAt(init, k);
      ReverseAt(s, k + 1);
    }
  }

  /** Python `repr` of a string: single quotes unless the text holds a single
      quote and no double quote; backslashes, the chosen quote and every
      character up to U+00FF that `str.isprintable` rejects (the controls,
      U+007F to U+00A0 and the soft hyphen U+00AD) are escaped. */
  function StrRepr(s: string): string {
    var q := if '\'' in s && '"' !in s then '"' else '\'';
    [q] + Escaped(s, q) + [q]
  }

  function HexDigit(n: nat): (d: char)
    requires n < 16
    ensures '0' <= d <= '9' || 'a' <= d <= 'f'
  {
    if n < 10 then ('0' as int + n) as char else ('a' as int + n - 10) as char
  }

  /** One character as `repr` shows it inside the quote `q`. */
  function EscapeChar(c: char, q: char): string {
    if c == '\\' then ['\\', '\\']
    else if c == q then ['\\', q]
    else if c == '\t' then ['\\', 't']
    else if c == '\n' then ['\\', 'n']
    else if c == '\r' then ['\\', 'r']
    else if c < ' ' || '\U{7F}' <= c <= '\U{A0}' || c == '\U{AD}' then ['\\', 'x', HexDigit(c as int / 16), HexDigit(c as int % 16)]
    else [c]
  }

  function Escaped(s: string, q: char): string {
    if s == [] then [] else EscapeChar(s[0], q) + Escaped(s[1..], q)
  }

  /** Printable ASCII other than the backslash and the quote is shown as it is. */
  lemma {:induction false} PlainTextKept(s: string, q: char)
    requires forall i :: 0 <= i < |s| ==> ' ' <= s[i] < '\U{7F}' && s[i] != '\\' && s[i] != q
    ensures Escaped(s, q) == s
  {
    if s != [] {
      PlainTextKept(s[1..], q);
    }
  }

  /** No control character survives the escaping inside either quote. */
  lemma {:induction false} EscapedPrintable(s: string, q: char)
    requires q >= ' '
    ensures forall i :: 0 <= i < |Escaped(s, q)| ==> Escaped(s, q)[i] >= ' '
  {
    if s != [] {
      EscapedPrintable(s[1..], q);
      var e, rest := EscapeChar(s[0], q), Escaped(s[1..], q);
      assert forall i :: 0 <= i < |e| ==> e[i] >= ' ';
      forall i | 0 <= i < |e + rest| ensures (e + rest)[i] >= ' ' {
        if i >= |e| { assert (e + rest)[i] == rest[i - |e|]; }
      }
    }
  }

  /** `str(list_of_strings)`. */
  function ListRepr(ts: seq<string>): string {
    "[" + JoinReprs(ts) + "]"
  }

  function JoinReprs(ts: seq<string>): string {
    if ts == [] then []
    else if |ts| == 1 then StrRepr(ts[0])
    else StrRepr(ts[0]) + ", " + JoinReprs(ts[1..])
  }

  class Buffer {
    /** The tokens still to be read, last one first. */
    var rev: seq<string>

    /** The tokens still to be read, in reading order. */
    function Contents(): seq<string>
      reads this
    {
      Reverse(rev)
    }

    /** A buffer over the tokens of `line`. */
    constructor (line: string)
      ensures Contents() == Lexer.Tokens(line, Lexer.CharSet(Lexer.DELIMS))
    {
      Lexer.DelimsValid();
      var tokens := Lexer.Tokenize(line, Lexer.DELIMS);
      rev := Reverse(tokens);
      ReverseInvolution(tokens);
    }

    /** Remove and return the first token.  The source prompts for another line
        when the buffer is empty; here the buffer reports the end of its input. */
    method Pop() returns (r: Result<string>)
      modifies this
      ensures old(Contents()) == [] ==> r == Err(EndOfInput) && Contents() == []
      ensures old(Contents()) != [] ==>
        r == Ok(old(Contents())[0]) && Contents() == old(Contents())[1..]
    {
      if |rev| == 0 {
        r := Err(EndOfInput);
      } else {
        ReverseAt(rev, 0);
        ReverseDropLast(rev);
        r := Ok(rev[|rev| - 1]);
        rev := rev[..|rev| - 1];
      }
    }

    /** The first token, left in place. */
    method Current() returns (r: Result<string>)
      ensures Contents() == [] ==> r == Err(EndOfInput)
      ensures Contents() != [] ==> r == Ok(Contents()[0])
    {
      if |rev| == 0 {
        r := Err(EndOfInput);
      } else {
        ReverseAt(rev, 0);
        r := Ok(rev[|rev| - 1]);
      }
    }

    /** Put `token` back at the front of the buffer. */
    method Prepend(token: string)
      modifies this
      ensures Contents() == [token] + old(Contents())
    {
      PrependReverse(rev, token);
      rev := rev + [token];
    }

    /** The buffer holds no tokens. */
    function Empty(): (b: bool)
      reads this
      ensures b <==> Contents() == []
    {
      |rev| == 0
    }

    /** `str(buffer)`: the remaining tokens in reading order, as a Python list. */
    function Str(): (s: string)
      reads this
      ensures s == ListRepr(Contents())
    {
      ListRepr(Reverse(rev))
    }

    /** `repr(buffer)`: the same list, inside `Buffer(...)`. */
    function Repr(): (s: string)
      reads this
      ensures s == "Buffer(" + ListRepr(Contents()) + ")"
    {
      "Buffer(" + Str() + ")"
    }
  }

  /** Putting back the token just taken restores the buffer. */
  method PopThenPrepend(b: Buffer)
    modifies b
    ensures b.Contents() == old(b.Contents())
  {
    var r := b.Pop();
    if r.Ok? {
      b.Prepend(r.value);
    }
  }

  lemma {:induction false} PrependReverse(s: seq<string>, t: string)
    ensures Reverse(s + [t]) == [t] + Reverse(s)
  {
    forall k | 0 <= k < |s| + 1 ensures Reverse(s + [t])[k] == ([t] + Reverse(s))[k] {
      ReverseAt(s + [t], k);
      if k > 0 { ReverseAt(s, k - 1); }
    }
  }
}
