/** The interpreter's fixed tables (interpreter/constants.py): the Java type
    names and the sets the assignment type check uses, the operator and literal
    spellings Java and Python disagree on, and the keywords. */
module Constants {

  /** `DELIMITERS`: each opening bracket with its closing one, in the
      dictionary's order. */
  const DELIMITERS: seq<(char, char)> := [('(', ')'), ('{', '}')]

  const INT := "int"
  const FLOAT := "float"
  const DOUBLE := "double"
  const STRING := "String"
  const BOOLEAN := "boolean"
  const CHAR := "char"
  const SHORT := "short"
  const LONG := "long"

  const TYPES: seq<string> := [INT, FLOAT, DOUBLE, STRING, BOOLEAN, CHAR, SHORT, LONG]
  const INT_TYPES: seq<string> := [INT, SHORT, LONG]
  const FLOAT_TYPES: seq<string> := [FLOAT, DOUBLE]
  const STRING_TYPES: seq<string> := [CHAR, STRING]

  /** The keys of `JAVA_TO_PYTHON`, in the dictionary's order. */
  const JAVA_SPELLINGS: seq<string> := ["||", "&&", "true", "false"]

  const JAVA_TO_PYTHON: map<string, string> :=
    map["||" := "or", "&&" := "and", "true" := "True", "false" := "False"]

  /** `{val: key for key, val in JAVA_TO_PYTHON.items()}`, written out;
      SpellingsInverse shows it is that inversion. */
  const PYTHON_TO_JAVA: map<string, string> :=
    map["or" := "||", "and" := "&&", "True" := "true", "False" := "false"]

  /** The values of `JAVA_TO_PYTHON`, in the dictionary's order. */
  function PythonSpellings(): (vs: seq<string>)
    ensures |vs| == |JAVA_SPELLINGS|
  {
    seq(|JAVA_SPELLINGS|, i requires 0 <= i < |JAVA_SPELLINGS| => JAVA_TO_PYTHON[JAVA_SPELLINGS[i]])
  }

  const KEYWORDS: seq<string> := TYPES + ["return", "while", "for"] + JAVA_SPELLINGS + PythonSpellings()

  /** The words that make the REPL keep reading a block. */
  const CONTINUE_KEYWORDS: seq<string> := ["for", "while", "if"]

  /** The reverse map's keys are exactly the Python spellings and its values
      exactly the Java ones. */
  lemma SpellingsSwapSides()
    ensures PYTHON_TO_JAVA.Keys == JAVA_TO_PYTHON.Values
    ensures PYTHON_TO_JAVA.Values == JAVA_TO_PYTHON.Keys
  {
    assert JAVA_TO_PYTHON["||"] == "or" && JAVA_TO_PYTHON["&&"] == "and";
    assert JAVA_TO_PYTHON["true"] == "True" && JAVA_TO_PYTHON["false"] == "False";
    assert PYTHON_TO_JAVA["or"] == "||" && PYTHON_TO_JAVA["and"] == "&&";
    assert PYTHON_TO_JAVA["True"] == "true" && PYTHON_TO_JAVA["False"] == "false";
  }

  /** The reverse map undoes the forward one in both directions. */
  lemma SpellingsInverse()
    ensures forall k :: k in JAVA_TO_PYTHON ==> PYTHON_TO_JAVA[JAVA_TO_PYTHON[k]] == k
    ensures forall v :: v in PYTHON_TO_JAVA ==> JAVA_TO_PYTHON[PYTHON_TO_JAVA[v]] == v
  {
    assert JAVA_TO_PYTHON["||"] == "or" && JAVA_TO_PYTHON["&&"] == "and";
    assert JAVA_TO_PYTHON["true"] == "True" && JAVA_TO_PYTHON["false"] == "False";
    assert PYTHON_TO_JAVA["or"] == "||" && PYTHON_TO_JAVA["and"] == "&&";
    assert PYTHON_TO_JAVA["True"] == "true" && PYTHON_TO_JAVA["False"] == "false";
  }

  /** The three value classes are disjoint, lie inside TYPES, and boolean
      belongs to none of them. */
  lemma TypeClasses()
    ensures forall t :: t in INT_TYPES ==> t in TYPES && t !in FLOAT_TYPES && t !in STRING_TYPES
    ensures forall t :: t in FLOAT_TYPES ==> t in TYPES && t !in STRING_TYPES
    ensures forall t :: t in STRING_TYPES ==> t in TYPES
    ensures BOOLEAN in TYPES && BOOLEAN !in INT_TYPES + FLOAT_TYPES + STRING_TYPES
  {
  }

  /** KEYWORDS holds every type name, `return`, `while`, `for` and both
      spellings of every operator and literal. */
  lemma KeywordContents()
    ensures forall t :: t in TYPES ==> t in KEYWORDS
    ensures "return" in KEYWORDS && "while" in KEYWORDS && "for" in KEYWORDS
    ensures forall k :: k in JAVA_TO_PYTHON ==> k in KEYWORDS && JAVA_TO_PYTHON[k] in KEYWORDS
    ensures |KEYWORDS| == 19
  {
    var vs := PythonSpellings();
    assert vs == ["or", "and", "True", "False"];
    assert KEYWORDS[15..] == vs;
  }

  lemma ContinueKeywords()
    ensures forall k :: k in CONTINUE_KEYWORDS <==> k == "for" || k == "while" || k == "if"
  {
  }
}
