/**
 * The `escapeHtml` helper and its three copies: frontend/main.js and
 * frontend/admin.js turn a falsy argument into the empty string, while
 * frontend/components.js stringifies whatever it gets. Each copy runs five
 * `replaceAll` passes, `&` first.
 */
module Html {
  import opened Text
  import opened Js

  /** `s.replaceAll(c, rep)` for a one-character pattern. */
  function ReplaceAll(s: string, c: char, rep: string): string
  {
    if |s| == 0 then "" else (if s[0] == c then rep else [s[0]]) + ReplaceAll(s[1..], c, rep)
  }

  lemma {:induction false} ReplaceAllAppend(a: string, b: string, c: char, rep: string)
    ensures ReplaceAll(a + b, c, rep) == ReplaceAll(a, c, rep) + ReplaceAll(b, c, rep)
  {
    if |a| > 0 {
      ReplaceAllAppend(a[1..], b, c, rep);
      assert (a + b)[1..] == a[1..] + b;
    } else {
      assert a + b == b;
    }
  }

  lemma {:induction false} ReplaceAllAbsent(s: string, c: char, rep: string)
    requires c !in s
    ensures ReplaceAll(s, c, rep) == s
  {
    if |s| > 0 {
      ReplaceAllAbsent(s[1..], c, rep);
      assert s == [s[0]] + s[1..];
    }
  }

  /** The five passes in source order: `&`, `<`, `>`, `"`, `'`. */
  function EscapeChain(s: string): string
  {
    var amp := ReplaceAll(s, '&', "&amp;");
    var lt := ReplaceAll(amp, '<', "&lt;");
    var gt := ReplaceAll(lt, '>', "&gt;");
    var quot := ReplaceAll(gt, '"', "&quot;");
    ReplaceAll(quot, '\'', "&#39;")
  }

  /** The entity one character becomes. */
  function EscapeChar(c: char): string
  {
    if c == '&' then "&amp;"
    else if c == '<' then "&lt;"
    else if c == '>' then "&gt;"
    else if c == '"' then "&quot;"
    else if c == '\'' then "&#39;"
    else [c]
  }

  /** Reference definition: escape every character on its own, in one pass. */
  function EscapeEach(s: string): string
  {
    if |s| == 0 then "" else EscapeChar(s[0]) + EscapeEach(s[1..])
  }

  lemma EscapeChainAppend(a: string, b: string)
    ensures EscapeChain(a + b) == EscapeChain(a) + EscapeChain(b)
  {
    ReplaceAllAppend(a, b, '&', "&amp;");
    var a1, b1 := ReplaceAll(a, '&', "&amp;"), ReplaceAll(b, '&', "&amp;");
    ReplaceAllAppend(a1, b1, '<', "&lt;");
    var a2, b2 := ReplaceAll(a1, '<', "&lt;"), ReplaceAll(b1, '<', "&lt;");
    ReplaceAllAppend(a2, b2, '>', "&gt;");
    var a3, b3 := ReplaceAll(a2, '>', "&gt;"), ReplaceAll(b2, '>', "&gt;");
    ReplaceAllAppend(a3, b3, '"', "&quot;");
    var a4, b4 := ReplaceAll(a3, '"', "&quot;"), ReplaceAll(b3, '"', "&quot;");
    ReplaceAllAppend(a4, b4, '\'', "&#39;");
  }

  lemma ReplaceAllOne(c: char, p: char, rep: string)
    ensures ReplaceAll([c], p, rep) == if c == p then rep else [c]
  {
    assert [c][1..] == [];
  }

  /** Passes whose character is absent leave the text unchanged. */
  lemma LaterPassesKeep(t: string, from: nat)
    requires 1 <= from <= 4
    requires from <= 1 ==> '<' !in t
    requires from <= 2 ==> '>' !in t
    requires from <= 3 ==> '"' !in t
    requires '\'' !in t
    ensures Passes(t, from) == t
    decreases 4 - from
  {
    if from < 4 {
      var (c, rep) := PassAt(from);
      ReplaceAllAbsent(t, c, rep);
      LaterPassesKeep(t, from + 1);
    } else {
      ReplaceAllAbsent(t, '\'', "&#39;");
    }
  }

  /** Pattern and replacement of pass number `k`, counting from zero. */
  function PassAt(k: nat): (char, string)
    requires k <= 4
  {
    if k == 0 then ('&', "&amp;")
    else if k == 1 then ('<', "&lt;")
    else if k == 2 then ('>', "&gt;")
    else if k == 3 then ('"', "&quot;")
    else ('\'', "&#39;")
  }

  /** Passes number `from` to four applied in order. */
  function Passes(t: string, from: nat): string
    requires from <= 4
    decreases 4 - from
  {
    var (c, rep) := PassAt(from);
    var once := ReplaceAll(t, c, rep);
    if from == 4 then once else Passes(once, from + 1)
  }

  lemma ChainIsPasses(s: string)
    ensures EscapeChain(s) == Passes(s, 0)
  {
  }

  /** On a single character the chain of passes produces that character's entity. */
  lemma EscapeChainOne(c: char)
    ensures EscapeChain([c]) == EscapeChar(c)
  {
    ChainIsPasses([c]);
    OnePassOne(c, 0);
  }

  /** From pass `k` on, a single character becomes its entity (or stays, if an earlier pass owned it). */
  lemma OnePassOne(c: char, k: nat)
    requires k <= 4
    requires forall j :: 0 <= j < k ==> PassAt(j).0 != c
    ensures Passes([c], k) == EscapeChar(c)
    decreases 4 - k
  {
    var (p, rep) := PassAt(k);
    ReplaceAllOne(c, p, rep);
    if c == p {
      assert rep == EscapeChar(c);
      if k < 4 {
        LaterPassesKeep(rep, k + 1);
      }
    } else if k < 4 {
      OnePassOne(c, k + 1);
    } else {
      assert forall j :: 0 <= j <= 4 ==> PassAt(j).0 != c;
      assert PassAt(0).0 != c && PassAt(1).0 != c && PassAt(2).0 != c && PassAt(3).0 != c;
    }
  }

  /**
   * Because `&` is replaced first, the chain of five passes never
   * re-escapes an entity an earlier pass produced: it equals escaping each
   * character once.
   */
  lemma {:induction false} EscapeChainIsEscapeEach(s: string)
    ensures EscapeChain(s) == EscapeEach(s)
  {
    if |s| == 0 {
      assert EscapeChain(s) == "";
    } else {
      assert s == [s[0]] + s[1..];
      EscapeChainAppend([s[0]], s[1..]);
      EscapeChainOne(s[0]);
      EscapeChainIsEscapeEach(s[1..]);
    }
  }

  /** Characters with a meaning in HTML markup and attribute values. */
  predicate IsMarkup(c: char)
  {
    c == '<' || c == '>' || c == '"' || c == '\''
  }

  predicate NoMarkup(s: string)
  {
    forall i :: 0 <= i < |s| ==> !IsMarkup(s[i])
  }

  /** `s` has one of the five entities starting at position `i`. */
  predicate EntityAt(s: string, i: nat)
    requires i <= |s|
  {
    var t := s[i..];
    StartsWith(t, "&amp;") || StartsWith(t, "&lt;") || StartsWith(t, "&gt;")
    || StartsWith(t, "&quot;") || StartsWith(t, "&#39;")
  }

  /** Every `&` in `s` opens one of the five entities. */
  predicate AmpersandsOpenEntities(s: string)
  {
    forall i :: 0 <= i < |s| && s[i] == '&' ==> EntityAt(s, i)
  }

  lemma EntityAtPrefix(a: string, b: string, i: nat)
    requires i < |a| && EntityAt(a, i)
    ensures EntityAt(a + b, i)
  {
    var t, u := a[i..], (a + b)[i..];
    assert u == t + b;
    forall e: string | StartsWith(t, e) ensures StartsWith(u, e) {
      assert u[..|e|] == t[..|e|];
    }
  }

  lemma EntityAtSuffix(a: string, b: string, j: nat)
    requires j < |b| && EntityAt(b, j)
    ensures EntityAt(a + b, |a| + j)
  {
    assert (a + b)[|a| + j..] == b[j..];
  }

  lemma EscapeCharWellFormed(c: char)
    ensures NoMarkup(EscapeChar(c)) && AmpersandsOpenEntities(EscapeChar(c))
  {
    var e := EscapeChar(c);
    forall i | 0 <= i < |e| && e[i] == '&' ensures EntityAt(e, i) {
      assert i == 0;
      assert e[0..] == e;
    }
  }

  lemma ConcatWellFormed(a: string, b: string)
    requires NoMarkup(a) && AmpersandsOpenEntities(a)
    requires NoMarkup(b) && AmpersandsOpenEntities(b)
    ensures NoMarkup(a + b) && AmpersandsOpenEntities(a + b)
  {
    var s := a + b;
    forall i | 0 <= i < |s| && s[i] == '&' ensures EntityAt(s, i) {
      if i < |a| {
        EntityAtPrefix(a, b, i);
      } else {
        assert b[i - |a|] == '&';
        EntityAtSuffix(a, b, i - |a|);
      }
    }
    forall i | 0 <= i < |s| ensures !IsMarkup(s[i]) {
      if i >= |a| {
        assert s[i] == b[i - |a|];
      }
    }
  }

  /** Escaped text holds no `<`, `>`, `"` or `'`, and each of its `&` opens an entity. */
  lemma {:induction false} EscapeEachWellFormed(s: string)
    ensures NoMarkup(EscapeEach(s)) && AmpersandsOpenEntities(EscapeEach(s))
  {
    if |s| > 0 {
      EscapeCharWellFormed(s[0]);
      EscapeEachWellFormed(s[1..]);
      ConcatWellFormed(EscapeChar(s[0]), EscapeEach(s[1..]));
    }
  }

  /** Escaping leaves text without any of the five special characters unchanged. */
  lemma {:induction false} EscapeEachPlain(s: string)
    requires forall i :: 0 <= i < |s| ==> !IsMarkup(s[i]) && s[i] != '&'
    ensures EscapeEach(s) == s
  {
    if |s| > 0 {
      EscapeEachPlain(s[1..]);
      assert s == [s[0]] + s[1..];
    }
  }

  /** Decoding of the five entities; every other character stands for itself. */
  function Unescape(s: string): string
    decreases |s|
  {
    if |s| == 0 then ""
    else if StartsWith(s, "&amp;") then "&" + Unescape(s[5..])
    else if StartsWith(s, "&lt;") then "<" + Unescape(s[4..])
    else if StartsWith(s, "&gt;") then ">" + Unescape(s[4..])
    else if StartsWith(s, "&quot;") then "\"" + Unescape(s[6..])
    else if StartsWith(s, "&#39;") then "'" + Unescape(s[5..])
    else [s[0]] + Unescape(s[1..])
  }

  lemma UnescapePlain(c: char, rest: string)
    requires c != '&'
    ensures Unescape([c] + rest) == [c] + Unescape(rest)
  {
    var t := [c] + rest;
    assert t[0] == c && t[1..] == rest;
  }

  lemma UnescapeEntity(e: string, c: char, rest: string)
    requires e == EscapeChar(c) && e != [c]
    ensures Unescape(e + rest) == [c] + Unescape(rest)
  {
    var t := e + rest;
    assert t[..|e|] == e;
    assert t[|e|..] == rest;
    assert t[0] == '&' && t[1] == e[1];
  }

  lemma UnescapeStep(c: char, rest: string)
    ensures Unescape(EscapeChar(c) + rest) == [c] + Unescape(rest)
  {
    if EscapeChar(c) == [c] {
      UnescapePlain(c, rest);
    } else {
      UnescapeEntity(EscapeChar(c), c, rest);
    }
  }

  /** Unescaping undoes escaping, so escaping loses no information. */
  lemma {:induction false} UnescapeEscape(s: string)
    ensures Unescape(EscapeEach(s)) == s
  {
    if |s| > 0 {
      UnescapeEscape(s[1..]);
      UnescapeStep(s[0], EscapeEach(s[1..]));
      assert s == [s[0]] + s[1..];
    }
  }

  /**
   * `escapeHtml` of frontend/main.js, repeated verbatim in
   * frontend/admin.js: `String(s || "")` then the five passes.
   */
  function EscapeHtml(v: Value): (r: string)
    ensures !Truthy(v) ==> r == ""
    ensures Truthy(v) ==> r == EscapeEach(ToJsString(v))
    ensures NoMarkup(r) && AmpersandsOpenEntities(r)
    ensures Unescape(r) == ToJsString(Or(v, Str("")))
  {
    var s := ToJsString(Or(v, Str("")));
    EscapeChainIsEscapeEach(s);
    EscapeEachWellFormed(s);
    UnescapeEscape(s);
    EscapeChain(s)
  }

  /**
   * `escapeHtml` of frontend/components.js: `String(str)` then the five
   * passes, so null and undefined print as "null" and "undefined".
   */
  function EscapeHtmlStringified(v: Value): (r: string)
    ensures r == EscapeEach(ToJsString(v))
    ensures NoMarkup(r) && AmpersandsOpenEntities(r)
    ensures Unescape(r) == ToJsString(v)
  {
    var s := ToJsString(v);
    EscapeChainIsEscapeEach(s);
    EscapeEachWellFormed(s);
    UnescapeEscape(s);
    EscapeChain(s)
  }

  /** Null prints as "null". */
  lemma StringifiedNull()
    ensures EscapeHtmlStringified(Null) == "null"
  {
    var s := ToJsString(Null);
    assert forall i :: 0 <= i < |s| ==> 'a' <= s[i] <= 'z';
    EscapeEachPlain(s);
  }

  /** Undefined prints as "undefined". */
  lemma StringifiedUndefined()
    ensures EscapeHtmlStringified(Undefined) == "undefined"
  {
    var s := ToJsString(Undefined);
    assert forall i :: 0 <= i < |s| ==> 'a' <= s[i] <= 'z';
    EscapeEachPlain(s);
  }

  /** The two copies agree on every truthy argument. */
  lemma CopiesAgreeOnTruthy(v: Value)
    requires Truthy(v)
    ensures EscapeHtml(v) == EscapeHtmlStringified(v)
  {
  }

  /** On null, undefined and 0 the copies differ: main.js prints nothing, components.js prints the value. */
  lemma CopiesDifferOnNull()
    ensures EscapeHtml(Null) == "" && EscapeHtmlStringified(Null) == "null"
  {
    StringifiedNull();
  }

  lemma CopiesDifferOnUndefined()
    ensures EscapeHtml(Undefined) == "" && EscapeHtmlStringified(Undefined) == "undefined"
  {
    StringifiedUndefined();
  }

  lemma CopiesDifferOnZero()
    ensures EscapeHtml(Num(0)) == "" && EscapeHtmlStringified(Num(0)) == "0"
  {
    assert ToJsString(Num(0)) == "0";
    EscapeEachPlain("0");
  }
}
