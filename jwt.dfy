/**
 * Client-side extraction of a JWT's claims (frontend/main.js `parseJwt`,
 * frontend/admin.js `decodeJwtPayload`). The payload is the second
 * `.`-separated segment of the compact serialisation (section 7.1 of
 * RFC 7515); it is rewritten from the base64url alphabet (section 5 of
 * RFC 4648) to the base64 alphabet (section 4) and padded with `=` to a
 * multiple of four UTF-16 code units (section 3.2) before `atob` and `JSON.parse`,
 * which the model does not interpret.
 */
module Jwt {
  import opened Wrappers
  import opened Text
  import opened Js

  /**
   * The two library calls the model leaves uninterpreted: `atob` and
   * `JSON.parse`. None stands for "threw".
   */
  datatype Decoders = Decoders(atob: string -> Option<string>, parse: string -> Option<Value>)

  /** `s.replace(/from/g, to)` for one character. */
  function ReplaceChar(s: string, from: char, to: char): string
  {
    if |s| == 0 then "" else [if s[0] == from then to else s[0]] + ReplaceChar(s[1..], from, to)
  }

  lemma {:induction false} ReplaceCharAt(s: string, from: char, to: char)
    ensures |ReplaceChar(s, from, to)| == |s|
    ensures forall i :: 0 <= i < |s| ==>
      ReplaceChar(s, from, to)[i] == if s[i] == from then to else s[i]
  {
    if |s| > 0 {
      ReplaceCharAt(s[1..], from, to);
    }
  }

  /** The character the two rewrites turn `c` into. */
  function StandardChar(c: char): char
  {
    if c == '-' then '+' else if c == '_' then '/' else c
  }

  /** `.replace(/-/g, '+').replace(/_/g, '/')`. */
  function ToBase64Alphabet(seg: string): string
  {
    ReplaceChar(ReplaceChar(seg, '-', '+'), '_', '/')
  }

  /** The inverse rewrite, `+` to `-` and `/` to `_`. */
  function ToBase64UrlAlphabet(s: string): string
  {
    ReplaceChar(ReplaceChar(s, '+', '-'), '/', '_')
  }

  predicate IsAlnum(c: char)
  {
    ('A' <= c <= 'Z') || ('a' <= c <= 'z') || ('0' <= c <= '9')
  }

  /** Every character is in the base64url alphabet (section 5 of RFC 4648). */
  predicate InUrlAlphabet(s: string)
  {
    forall i :: 0 <= i < |s| ==> IsAlnum(s[i]) || s[i] == '-' || s[i] == '_'
  }

  /** Every character is in the base64 alphabet (section 4 of RFC 4648). */
  predicate InBase64Alphabet(s: string)
  {
    forall i :: 0 <= i < |s| ==> IsAlnum(s[i]) || s[i] == '+' || s[i] == '/'
  }

  /**
   * The rewrite keeps the length, changes `-` to `+` and `_` to `/` and
   * keeps every other character; none of `-` and `_` survive, and a
   * base64url segment becomes a base64 one.
   */
  lemma RewriteAlphabet(seg: string)
    ensures |ToBase64Alphabet(seg)| == |seg|
    ensures forall i :: 0 <= i < |seg| ==> ToBase64Alphabet(seg)[i] == StandardChar(seg[i])
    ensures '-' !in ToBase64Alphabet(seg) && '_' !in ToBase64Alphabet(seg)
    ensures InUrlAlphabet(seg) ==> InBase64Alphabet(ToBase64Alphabet(seg))
  {
    var once := ReplaceChar(seg, '-', '+');
    ReplaceCharAt(seg, '-', '+');
    ReplaceCharAt(once, '_', '/');
    var r := ToBase64Alphabet(seg);
    assert forall i :: 0 <= i < |seg| ==> r[i] == StandardChar(seg[i]);
    assert forall i :: 0 <= i < |r| ==> r[i] != '-' && r[i] != '_';
  }

  /** On text without `+` and `/` the rewrite is undone by the inverse rewrite. */
  lemma RewriteRoundTrip(seg: string)
    requires '+' !in seg && '/' !in seg
    ensures ToBase64UrlAlphabet(ToBase64Alphabet(seg)) == seg
  {
    RewriteAlphabet(seg);
    var r := ToBase64Alphabet(seg);
    var once := ReplaceChar(r, '+', '-');
    ReplaceCharAt(r, '+', '-');
    ReplaceCharAt(once, '/', '_');
    var back := ToBase64UrlAlphabet(r);
    assert |back| == |seg|;
    forall i | 0 <= i < |seg| ensures back[i] == seg[i] {
      assert seg[i] != '+' && seg[i] != '/';
    }
  }

  /** `Math.ceil(n / 4) * 4`. */
  function PaddedLength(n: nat): nat
  {
    (n + 3) / 4 * 4
  }

  /** The padded length is a multiple of four, at least `n` and less than `n + 4`. */
  lemma PaddedLengthBounds(n: nat)
    ensures PaddedLength(n) % 4 == 0
    ensures n <= PaddedLength(n) < n + 4
  {
  }

  /** No multiple of four at least `n` is smaller than the padded length. */
  lemma PaddedLengthIsLeast(n: nat, m: nat)
    requires n <= m && m % 4 == 0
    ensures PaddedLength(n) <= m
  {
  }

  /**
   * `s.padEnd(target, c)` with a filler of one UTF-16 code unit: lengths are
   * counted in code units, so the filler is repeated until the code-unit
   * length reaches `target`.
   */
  function PadEnd(s: string, target: int, c: char): string
  {
    if target <= Utf16Length(s) then s else s + Repeat(c, target - Utf16Length(s))
  }

  /** `s.padEnd(Math.ceil(s.length / 4) * 4, '=')`, with `s.length` in code units. */
  function PadBase64(s: string): string
  {
    PadEnd(s, PaddedLength(Utf16Length(s)), '=')
  }

  /** The number of `=` that padding appends. */
  function PadCount(s: string): nat
  {
    PaddedLength(Utf16Length(s)) - Utf16Length(s)
  }

  /**
   * Padding keeps the text as a prefix and appends between zero and three
   * `=` so that the code-unit length becomes the least multiple of four; for
   * text without astral characters that is the character count as well.
   */
  lemma PaddingBounds(s: string)
    ensures PadBase64(s) == s + Repeat('=', PadCount(s))
    ensures Utf16Length(PadBase64(s)) == PaddedLength(Utf16Length(s))
    ensures Utf16Length(PadBase64(s)) % 4 == 0
    ensures |s| <= |PadBase64(s)| <= |s| + 3
    ensures PadBase64(s)[..|s|] == s
    ensures forall i :: |s| <= i < |PadBase64(s)| ==> PadBase64(s)[i] == '='
    ensures (forall i :: 0 <= i < |s| ==> s[i] as int <= 0xFFFF) ==> |PadBase64(s)| == PaddedLength(|s|)
  {
    var n := Utf16Length(s);
    PaddedLengthBounds(n);
    var fill := Repeat('=', PadCount(s));
    if PadCount(s) == 0 {
      assert s + fill == s;
    }
    assert PadBase64(s) == s + fill;
    Utf16LengthAppend(s, fill);
    Utf16LengthOfBmp(fill);
    if forall i :: 0 <= i < |s| ==> s[i] as int <= 0xFFFF {
      Utf16LengthOfBmp(s);
    }
  }

  /**
   * An astral character counts as two code units, so it is padded with two
   * `=` and not with the three a count by characters would give.
   */
  lemma AstralCharacterPadding()
    ensures PadBase64(['\U{1F600}']) == ['\U{1F600}', '=', '=']
  {
    var s := ['\U{1F600}'];
    assert Utf16Length(s[1..]) == 0;
    assert Utf16Length(s) == 2;
    assert PaddedLength(2) == 4;
    assert Repeat('=', 2) == ['=', '='];
  }

  /** The text without its trailing `=` characters. */
  function StripPadding(s: string): string
    decreases |s|
  {
    if |s| > 0 && s[|s| - 1] == '=' then StripPadding(s[..|s| - 1]) else s
  }

  lemma {:induction false} StripRepeat(s: string, k: nat)
    requires s == [] || s[|s| - 1] != '='
    ensures StripPadding(s + Repeat('=', k)) == s
  {
    if k > 0 {
      var t := s + Repeat('=', k);
      assert t[..|t| - 1] == s + Repeat('=', k - 1);
      StripRepeat(s, k - 1);
    }
  }

  /** Removing the padding gives back text that did not already end in `=`. */
  lemma PaddingRoundTrip(s: string)
    requires s == [] || s[|s| - 1] != '='
    ensures StripPadding(PadBase64(s)) == s
  {
    PaddingBounds(s);
    StripRepeat(s, PadCount(s));
  }

  /** The padded base64 text of the second segment, or None when there is no second segment. */
  function PayloadText(token: string): Option<string>
  {
    var parts := Split(token, '.');
    if |parts| < 2 then None else Some(PadBase64(ToBase64Alphabet(parts[1])))
  }

  /** `JSON.parse(atob(padded))`, with null standing for either call throwing. */
  function DecodePadded(padded: string, dec: Decoders): Value
  {
    match dec.atob(padded)
    case None => Null
    case Some(text) =>
      match dec.parse(text)
      case None => Null
      case Some(v) => v
  }

  /**
   * `parseJwt(token)` (frontend/main.js). A falsy token gives null; a
   * truthy non-string has no `split`, and the TypeError is caught (null);
   * fewer than two segments gives null; otherwise the decoded payload, with
   * any failure of `atob` or `JSON.parse` caught as null.
   */
  function ParseJwt(token: Value, dec: Decoders): (r: Value)
    ensures !Truthy(token) ==> r == Null
    ensures !token.Str? ==> r == Null
  {
    if !Truthy(token) then Null
    else if !token.Str? then Null
    else match PayloadText(token.s)
      case None => Null
      case Some(padded) => DecodePadded(padded, dec)
  }

  /**
   * `decodeJwtPayload(jwt)` (frontend/admin.js): the same steps without the
   * falsy guard; a non-string has no `split` and the TypeError is caught.
   */
  function DecodeJwtPayload(jwt: Value, dec: Decoders): (r: Value)
    ensures !jwt.Str? ==> r == Null
  {
    if !jwt.Str? then Null
    else match PayloadText(jwt.s)
      case None => Null
      case Some(padded) => DecodePadded(padded, dec)
  }

  /**
   * A token without a `.` (fewer than two segments) decodes to null in
   * both copies, whatever `atob` and `JSON.parse` do.
   */
  lemma NoSecondSegmentGivesNull(token: Value, dec: Decoders)
    requires !token.Str? || '.' !in token.s
    ensures ParseJwt(token, dec) == Null
    ensures DecodeJwtPayload(token, dec) == Null
  {
    if token.Str? {
      SplitHasTwoPiecesIff(token.s, '.');
    }
  }

  /** With a `.` present, both copies decode exactly the rewritten and padded second segment. */
  lemma SecondSegmentIsDecoded(s: string, dec: Decoders)
    requires '.' in s
    ensures |Split(s, '.')| >= 2
    ensures ParseJwt(Str(s), dec) == DecodePadded(PadBase64(ToBase64Alphabet(Split(s, '.')[1])), dec)
    ensures DecodeJwtPayload(Str(s), dec) == ParseJwt(Str(s), dec)
  {
    SplitHasTwoPiecesIff(s, '.');
  }

  /** The two copies agree on every input: the falsy guard of `parseJwt` changes nothing. */
  lemma CopiesAgree(token: Value, dec: Decoders)
    ensures DecodeJwtPayload(token, dec) == ParseJwt(token, dec)
  {
    if token.Str? && token.s == "" {
      NoSecondSegmentGivesNull(token, dec);
    }
  }

  /** The token `"abc"` has no second segment, so decoding yields null. */
  lemma NoDotExample(dec: Decoders)
    ensures ParseJwt(Str("abc"), dec) == Null
  {
    NoSecondSegmentGivesNull(Str("abc"), dec);
  }
}
