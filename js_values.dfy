/**
 * The JavaScript values that the handlers read out of a user document, with the
 * two pieces of JavaScript semantics the handlers lean on: truthiness (the
 * operand of `!`, `&&` and `||`) and `String.prototype.trim`.
 */
module JsValues {

  /** A field of a Firestore document as the handler sees it after `data()`.
      A field that is not present reads as `Undefined`; maps, timestamps and
      other objects are all `Obj`, since the handlers only test their truthiness. */
  datatype JsValue =
    | Undefined
    | Null
    | Bool(b: bool)
    | Num(n: int)
    | Str(s: string)
    | Arr(elems: seq<JsValue>)
    | Obj

  /** ECMAScript ToBoolean: `undefined`, `null`, `false`, `0` and `""` are falsy. */
  predicate Truthy(v: JsValue) {
    match v
    case Undefined => false
    case Null => false
    case Bool(b) => b
    case Num(n) => n != 0
    case Str(s) => s != ""
    case Arr(_) => true
    case Obj => true
  }

  /** `a || b`: the left operand when it is truthy, otherwise the right operand. */
  function Or(a: JsValue, b: JsValue): (r: JsValue)
    ensures Truthy(r) <==> Truthy(a) || Truthy(b)
    ensures Truthy(a) ==> r == a
    ensures !Truthy(a) ==> r == b
  {
    if Truthy(a) then a else b
  }

  /** The characters `trim` removes: the WhiteSpace and LineTerminator code
      points of ECMA-262 (sections 12.2 and 12.3), the space separators
      (category Zs) included. */
  predicate IsJsWhitespace(c: char) {
    c == '\t' || c == '\U{000B}' || c == '\U{000C}' || c == ' ' || c == '\U{00A0}'
    || c == '\U{FEFF}' || c == '\U{1680}' || ('\U{2000}' <= c <= '\U{200A}')
    || c == '\U{202F}' || c == '\U{205F}' || c == '\U{3000}'
    || c == '\n' || c == '\r' || c == '\U{2028}' || c == '\U{2029}'
  }

  /** The string with its leading whitespace removed. */
  function TrimStart(s: string): (r: string)
    ensures |r| <= |s|
    decreases |s|
  {
    if |s| > 0 && IsJsWhitespace(s[0]) then TrimStart(s[1..]) else s
  }

  /** The string with its trailing whitespace removed. */
  function TrimEnd(s: string): (r: string)
    ensures |r| <= |s|
    decreases |s|
  {
    if |s| > 0 && IsJsWhitespace(s[|s| - 1]) then TrimEnd(s[..|s| - 1]) else s
  }

  /** `s.trim()`: what is left of `s` between its leading and its trailing whitespace. */
  function Trim(s: string): (r: string)
    ensures |r| <= |s|
  {
    TrimEnd(TrimStart(s))
  }

  /** TrimStart drops a whitespace prefix and stops at the first other character. */
  lemma {:induction false} TrimStartDrops(s: string)
    ensures TrimStart(s) == s[|s| - |TrimStart(s)|..]
    ensures forall i :: 0 <= i < |s| - |TrimStart(s)| ==> IsJsWhitespace(s[i])
    ensures TrimStart(s) == [] || !IsJsWhitespace(TrimStart(s)[0])
    decreases |s|
  {
    if |s| > 0 && IsJsWhitespace(s[0]) {
      TrimStartDrops(s[1..]);
      forall i | 0 < i < |s| - |TrimStart(s)| ensures IsJsWhitespace(s[i]) {
        assert s[i] == s[1..][i - 1];
      }
    }
  }

  /** TrimEnd drops a whitespace suffix and stops at the last other character. */
  lemma {:induction false} TrimEndDrops(s: string)
    ensures TrimEnd(s) == s[..|TrimEnd(s)|]
    ensures forall i :: |TrimEnd(s)| <= i < |s| ==> IsJsWhitespace(s[i])
    ensures TrimEnd(s) == [] || !IsJsWhitespace(TrimEnd(s)[|TrimEnd(s)| - 1])
    decreases |s|
  {
    if |s| > 0 && IsJsWhitespace(s[|s| - 1]) {
      TrimEndDrops(s[..|s| - 1]);
      forall i | |TrimEnd(s)| <= i < |s| - 1 ensures IsJsWhitespace(s[i]) {
        assert s[i] == s[..|s| - 1][i];
      }
    }
  }

  /** The trimmed string neither starts nor ends with whitespace, and it is empty
      exactly when every character of `s` is whitespace. */
  lemma TrimSpec(s: string)
    ensures Trim(s) == [] || (!IsJsWhitespace(Trim(s)[0]) && !IsJsWhitespace(Trim(s)[|Trim(s)| - 1]))
    ensures Trim(s) == [] <==> forall i :: 0 <= i < |s| ==> IsJsWhitespace(s[i])
  {
    var t := TrimStart(s);
    TrimStartDrops(s);
    TrimEndDrops(t);
    if t != [] {
      assert t[0] == s[|s| - |t|] && !IsJsWhitespace(t[0]);
      assert TrimEnd(t) != [];
      assert TrimEnd(t)[0] == t[0];
    } else {
      forall i | 0 <= i < |s| ensures IsJsWhitespace(s[i]) { }
    }
  }

  /** A precedence-ordered default: the first truthy candidate, or `fallback`
      when none is truthy. */
  function FirstTruthy(candidates: seq<JsValue>, fallback: JsValue): (r: JsValue)
    ensures forall i :: (0 <= i < |candidates| && Truthy(candidates[i]) &&
                         (forall j :: 0 <= j < i ==> !Truthy(candidates[j]))) ==> r == candidates[i]
    ensures (forall i :: 0 <= i < |candidates| ==> !Truthy(candidates[i])) ==> r == fallback
    decreases |candidates|
  {
    if candidates == [] then fallback
    else if Truthy(candidates[0]) then candidates[0]
    else FirstTruthy(candidates[1..], fallback)
  }

  /** `a || b || c` resolves like the ordered default [a, b] with fallback c. */
  lemma OrChainIsFirstTruthy(a: JsValue, b: JsValue, c: JsValue)
    ensures Or(Or(a, b), c) == FirstTruthy([a, b], c)
  {
  }
}
