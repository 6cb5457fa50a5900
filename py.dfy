/**
 * The Python values the backend handles (decoded JSON request bodies,
 * Mongo documents, JWT claims) and the few built-ins it applies to them:
 * truthiness, `dict.get`, `str()` and whitespace `str.split()`.
 */
module Py {
  import opened Wrappers
  import opened Text

  /** JSON values plus the two BSON types the documents carry: ObjectId (by its hex text) and datetime (in seconds). */
  datatype PyVal =
    | PNone
    | PBool(b: bool)
    | PInt(i: int)
    | PStr(s: string)
    | PList(items: seq<PyVal>)
    | PDict(fields: map<string, PyVal>)
    | PObjectId(hex: string)
    | PDate(t: int)

  /** `bool(v)`: None, False, 0 and empty strings, lists and dicts are falsy; ObjectIds and datetimes are truthy. */
  predicate PyTruthy(v: PyVal)
  {
    match v
    case PNone => false
    case PBool(b) => b
    case PInt(i) => i != 0
    case PStr(s) => s != ""
    case PList(items) => |items| > 0
    case PDict(fields) => |fields| > 0
    case PObjectId(_) => true
    case PDate(_) => true
  }

  /** `a or b`. */
  function PyOr(a: PyVal, b: PyVal): PyVal
  {
    if PyTruthy(a) then a else b
  }

  /** `d.get(key, default)` on a dict. */
  function DictGet(d: map<string, PyVal>, key: string, default: PyVal): PyVal
  {
    if key in d then d[key] else default
  }

  /**
   * `str(v)` for the values whose text the model needs; a list or dict
   * (whose text is its repr) gives None.
   */
  function PyStr(v: PyVal): (r: Option<string>)
    ensures r.None? <==> v.PList? || v.PDict?
    ensures v.PStr? ==> r == Some(v.s)
    ensures v.PObjectId? ==> r == Some(v.hex)
  {
    match v
    case PNone => Some("None")
    case PBool(b) => Some(if b then "True" else "False")
    case PInt(i) => Some(IntToDecimal(i))
    case PStr(s) => Some(s)
    case PObjectId(h) => Some(h)
    case PDate(t) => Some(IntToDecimal(t))
    case _ => None
  }

  /** Characters for which `str.isspace()` holds. */
  predicate IsPySpace(c: char)
  {
    || ('\t' <= c <= '\r') || c == ' '
    || ('\U{001C}' <= c <= '\U{001F}') || c == '\U{0085}' || c == '\U{00A0}'
    || c == '\U{1680}' || ('\U{2000}' <= c <= '\U{200A}') || c == '\U{2028}' || c == '\U{2029}'
    || c == '\U{202F}' || c == '\U{205F}' || c == '\U{3000}'
  }

  /** A field of `str.split()`: non-empty and free of whitespace. */
  predicate IsWord(w: string)
  {
    w != "" && forall j :: 0 <= j < |w| ==> !IsPySpace(w[j])
  }

  /** `s` without its leading whitespace. */
  function DropSpaces(s: string): (r: string)
    ensures |r| <= |s|
    ensures r != "" ==> !IsPySpace(r[0])
  {
    if s != "" && IsPySpace(s[0]) then DropSpaces(s[1..]) else s
  }

  /** Length of the longest whitespace-free prefix of `s`. */
  function WordLength(s: string): (n: nat)
    ensures n <= |s|
    ensures forall j :: 0 <= j < n ==> !IsPySpace(s[j])
    ensures n < |s| ==> IsPySpace(s[n])
  {
    if s == "" || IsPySpace(s[0]) then 0 else 1 + WordLength(s[1..])
  }

  /** `s.split()`: the maximal whitespace-free runs of `s`, in order. */
  function WsSplit(s: string): (fields: seq<string>)
    ensures forall i :: 0 <= i < |fields| ==> IsWord(fields[i])
    decreases |s|
  {
    var t := DropSpaces(s);
    if t == "" then []
    else
      var n := WordLength(t);
      [t[..n]] + WsSplit(t[n..])
  }

  /** Leading whitespace does not change the fields. */
  lemma WsSplitSkipsSpace(c: char, rest: string)
    requires IsPySpace(c)
    ensures WsSplit([c] + rest) == WsSplit(rest)
  {
    assert ([c] + rest)[1..] == rest;
  }

  /** The whitespace-free prefix of a word followed by whitespace is the word. */
  lemma {:induction false} WordLengthOfWord(w: string, c: char, rest: string)
    requires IsWord(w) && IsPySpace(c)
    ensures WordLength(w + [c] + rest) == |w|
    decreases |w|
  {
    var s := w + [c] + rest;
    assert s[0] == w[0];
    if |w| > 1 {
      assert s[1..] == w[1..] + [c] + rest;
      WordLengthOfWord(w[1..], c, rest);
    } else {
      assert s[1..] == [c] + rest;
    }
  }

  /** A word, a space and the rest split into the word and the rest's fields. */
  lemma WsSplitAfterWord(w: string, c: char, rest: string)
    requires IsWord(w) && IsPySpace(c)
    ensures WsSplit(w + [c] + rest) == [w] + WsSplit(rest)
  {
    var s := w + [c] + rest;
    assert DropSpaces(s) == s;
    WordLengthOfWord(w, c, rest);
    assert s[..|w|] == w;
    assert s[|w|..] == [c] + rest;
    WsSplitSkipsSpace(c, rest);
  }

  /** A single word splits into itself. */
  lemma {:induction false} WsSplitOfWord(w: string)
    requires IsWord(w)
    ensures WsSplit(w) == [w]
  {
    assert DropSpaces(w) == w;
    WordLengthAll(w);
    assert w[..|w|] == w;
    assert w[|w|..] == "";
  }

  /** A string without whitespace is its own whitespace-free prefix. */
  lemma {:induction false} WordLengthAll(w: string)
    requires forall j :: 0 <= j < |w| ==> !IsPySpace(w[j])
    ensures WordLength(w) == |w|
    decreases |w|
  {
    if w != "" {
      WordLengthAll(w[1..]);
    }
  }

  /** A value starting with "Bearer " splits into "Bearer" and the fields of what follows. */
  lemma WsSplitBearer(rest: string)
    ensures WsSplit("Bearer " + rest) == ["Bearer"] + WsSplit(rest)
  {
    assert IsWord("Bearer");
    assert "Bearer " + rest == "Bearer" + [' '] + rest;
    WsSplitAfterWord("Bearer", ' ', rest);
  }
}
