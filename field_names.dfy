/**
 * The partial field name of a widget annotation (its /T entry) as pdfrw hands
 * it over: the raw literal-string token, parentheses included. The filler
 * strips one pair of enclosing parentheses before looking the name up.
 */
module FieldNames {

  /** `t` starts with `(` and ends with `)` (Python's startswith/endswith). */
  predicate Parenthesised(t: string)
  {
    |t| > 0 && t[0] == '(' && t[|t| - 1] == ')'
  }

  /** The lookup key for a /T text: the inside of the parentheses, or the text itself. */
  function Normalise(t: string): (key: string)
    ensures Parenthesised(t) ==> |t| >= 2 && t == "(" + key + ")"
    ensures !Parenthesised(t) ==> key == t
  {
    if Parenthesised(t) then t[1..|t| - 1] else t
  }

  /** Wrapping a name in parentheses and normalising gives the name back. */
  lemma {:induction false} NormaliseUnwraps(name: string)
    ensures Parenthesised("(" + name + ")")
    ensures Normalise("(" + name + ")") == name
  {
    var t := "(" + name + ")";
    assert t[0] == '(' && t[|t| - 1] == ')';
    assert t[1..|t| - 1] == name;
  }

  /** Normalising never lengthens, and it keeps the length exactly when there is nothing to strip. */
  lemma NormaliseLength(t: string)
    ensures |Normalise(t)| <= |t|
    ensures |Normalise(t)| == |t| <==> !Parenthesised(t)
  {
  }

  /** Only one layer is stripped, and a bare name and its parenthesised form reach the same key. */
  lemma NormaliseOneLayer(name: string)
    ensures Normalise("((" + name + "))") == "(" + name + ")"
    ensures !Parenthesised(name) ==> Normalise(name) == Normalise("(" + name + ")")
  {
    NormaliseUnwraps("(" + name + ")");
    assert "((" + name + "))" == "(" + ("(" + name + ")") + ")";
    NormaliseUnwraps(name);
  }
}
