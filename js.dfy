/**
 * The slice of JavaScript value semantics the front-end code relies on:
 * values as JSON.parse produces them (plus `undefined`), truthiness, `||`,
 * property reads, `String(v)`, `includes`, `trim` and UTF-16 string length.
 * Numbers are integers here.
 */
module Js {
  import opened Wrappers
  import opened Text

  /** A JavaScript value as it comes out of JSON.parse, or `undefined`. */
  datatype Value =
    | Undefined
    | Null
    | Bool(b: bool)
    | Num(n: int)
    | Str(s: string)
    | Arr(items: seq<Value>)
    | Obj(fields: map<string, Value>)

  /** ToBoolean: `undefined`, `null`, `false`, `0` and `""` are falsy; arrays and objects are truthy even when empty. */
  predicate Truthy(v: Value)
  {
    match v
    case Undefined => false
    case Null => false
    case Bool(b) => b
    case Num(n) => n != 0
    case Str(s) => s != ""
    case Arr(_) => true
    case Obj(_) => true
  }

  /** `a || b`: the first operand when it is truthy, else the second. */
  function Or(a: Value, b: Value): Value
  {
    if Truthy(a) then a else b
  }

  /** `null` and `undefined`: reading a property of either throws a TypeError. */
  predicate Nullish(v: Value)
  {
    v.Undefined? || v.Null?
  }

  /**
   * `v.key` for a value that is neither null nor undefined. Only parsed
   * objects have own properties; no key the model reads is a built-in
   * property of a primitive or an array, so those read as `undefined`.
   */
  function Get(v: Value, key: string): Value
    requires !Nullish(v)
  {
    if v.Obj? && key in v.fields then v.fields[key] else Undefined
  }

  /** The object literal `{ username: u, role: r }`. */
  function Identity(username: Value, role: Value): Value
  {
    Obj(map["username" := username, "role" := role])
  }

  /**
   * `String(v)`. Arrays join their elements' strings with commas, with
   * null and undefined elements written as empty strings.
   */
  function ToJsString(v: Value): (r: string)
    ensures v.Str? ==> r == v.s
    ensures r == "" ==> v == Str("") || v.Arr?
    decreases v
  {
    match v
    case Undefined => "undefined"
    case Null => "null"
    case Bool(b) => if b then "true" else "false"
    case Num(n) => IntToDecimal(n)
    case Str(s) => s
    case Arr(items) =>
      Join(seq(|items|, i requires 0 <= i < |items| =>
        if Nullish(items[i]) then "" else ToJsString(items[i])), ',')
    case Obj(_) => "[object Object]"
  }

  /**
   * `v.includes(x)` with a string argument. Arrays test membership by
   * strict equality, strings test for a substring; every other value has
   * no callable `includes`, and the call throws (None).
   */
  function Includes(v: Value, x: string): (r: Option<bool>)
    ensures r.None? <==> !(v.Arr? || v.Str?)
    ensures v.Arr? ==> r == Some(Str(x) in v.items)
  {
    match v
    case Arr(items) => Some(Str(x) in items)
    case Str(s) => Some(Contains(s, x))
    case _ => None
  }

  /** Characters `String.prototype.trim` removes: WhiteSpace and LineTerminator. */
  predicate IsJsSpace(c: char)
  {
    c == '\t' || c == '\n' || c == '\U{000B}' || c == '\U{000C}' || c == '\r' || c == ' '
    || c == '\U{00A0}' || c == '\U{1680}' || ('\U{2000}' <= c <= '\U{200A}')
    || c == '\U{2028}' || c == '\U{2029}' || c == '\U{202F}' || c == '\U{205F}'
    || c == '\U{3000}' || c == '\U{FEFF}'
  }

  function TrimStart(s: string): (r: string)
    decreases |s|
  {
    if |s| > 0 && IsJsSpace(s[0]) then TrimStart(s[1..]) else s
  }

  function TrimEnd(s: string): (r: string)
    decreases |s|
  {
    if |s| > 0 && IsJsSpace(s[|s| - 1]) then TrimEnd(s[..|s| - 1]) else s
  }

  /**
   * `s.trim()`: the string without leading and trailing white space. What
   * remains is exactly the part of `s` between a white-space prefix and a
   * white-space suffix.
   */
  function Trim(s: string): (r: string)
    ensures |r| <= |s|
    ensures r != "" ==> !IsJsSpace(r[0]) && !IsJsSpace(r[|r| - 1])
    ensures exists a, b :: (
              && 0 <= a <= b <= |s| && r == s[a..b]
              && (forall i :: 0 <= i < a ==> IsJsSpace(s[i]))
              && (forall i :: b <= i < |s| ==> IsJsSpace(s[i])))
  {
    TrimStartBounds(s);
    TrimEndBounds(TrimStart(s));
    TrimKeepsCore(s);
    TrimEnd(TrimStart(s))
  }

  /** The trimmed text is a slice of the input with only white space outside it. */
  lemma TrimKeepsCore(s: string)
    ensures var a := |s| - |TrimStart(s)|;
      var b := a + |TrimEnd(TrimStart(s))|;
      && 0 <= a <= b <= |s|
      && TrimEnd(TrimStart(s)) == s[a..b]
      && (forall i :: 0 <= i < a ==> IsJsSpace(s[i]))
      && (forall i :: b <= i < |s| ==> IsJsSpace(s[i]))
  {
    TrimStartBounds(s);
    var t := TrimStart(s);
    TrimEndBounds(t);
    var a := |s| - |t|;
    var b := a + |TrimEnd(t)|;
    assert TrimEnd(t) == s[a..b];
    forall i | b <= i < |s|
      ensures IsJsSpace(s[i])
    {
      assert s[i] == t[i - a];
    }
  }

  lemma {:induction false} TrimStartBounds(s: string)
    ensures |TrimStart(s)| <= |s|
    ensures TrimStart(s) != "" ==> !IsJsSpace(TrimStart(s)[0])
    ensures TrimStart(s) == s[|s| - |TrimStart(s)|..]
    ensures forall i :: 0 <= i < |s| - |TrimStart(s)| ==> IsJsSpace(s[i])
  {
    if |s| > 0 && IsJsSpace(s[0]) {
      var rest := s[1..];
      TrimStartBounds(rest);
      assert TrimStart(s) == TrimStart(rest);
      forall i | 0 <= i < |s| - |TrimStart(s)|
        ensures IsJsSpace(s[i])
      {
        if i > 0 {
          assert s[i] == rest[i - 1];
        }
      }
    }
  }

  lemma {:induction false} TrimEndBounds(s: string)
    ensures |TrimEnd(s)| <= |s|
    ensures TrimEnd(s) == s[..|TrimEnd(s)|]
    ensures TrimEnd(s) != "" ==> !IsJsSpace(TrimEnd(s)[|TrimEnd(s)| - 1])
    ensures TrimEnd(s) != "" && s != "" ==> (!IsJsSpace(s[0]) ==> !IsJsSpace(TrimEnd(s)[0]))
    ensures forall i :: |TrimEnd(s)| <= i < |s| ==> IsJsSpace(s[i])
  {
    if |s| > 0 && IsJsSpace(s[|s| - 1]) {
      TrimEndBounds(s[..|s| - 1]);
      assert s[..|s| - 1][..|TrimEnd(s)|] == s[..|TrimEnd(s)|];
    }
  }

  /**
   * `s.length`: JavaScript strings count UTF-16 code units, so a character
   * outside the Basic Multilingual Plane counts twice.
   */
  function Utf16Length(s: string): (n: nat)
    ensures |s| <= n <= 2 * |s|
  {
    if |s| == 0 then 0 else (if s[0] as int > 0xFFFF then 2 else 1) + Utf16Length(s[1..])
  }

  /** Code units add up over concatenation. */
  lemma {:induction false} Utf16LengthAppend(s: string, t: string)
    ensures Utf16Length(s + t) == Utf16Length(s) + Utf16Length(t)
  {
    if s != [] {
      assert (s + t)[1..] == s[1..] + t;
      Utf16LengthAppend(s[1..], t);
    } else {
      assert s + t == t;
    }
  }

  /** Text made of Basic Multilingual Plane characters has one code unit per character. */
  lemma {:induction false} Utf16LengthOfBmp(s: string)
    requires forall i :: 0 <= i < |s| ==> s[i] as int <= 0xFFFF
    ensures Utf16Length(s) == |s|
  {
    if s != [] {
      Utf16LengthOfBmp(s[1..]);
    }
  }
}
