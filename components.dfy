/**
 * The parts of frontend/components.js that compute text or change a class
 * set: the pilot card's initials and default labels, and `showSpinner`.
 */
module Components {
  import opened Wrappers
  import opened Text
  import opened Js
  import opened Html

  /** `(s || "")[0] || ""`: the first character of a word, or "" for an empty word. */
  function FirstChar(w: string): string
  {
    if |w| == 0 then "" else [w[0]]
  }

  /** `parts.join("")`. */
  function Concat(parts: seq<string>): string
  {
    if |parts| == 0 then "" else parts[0] + Concat(parts[1..])
  }

  /** `toUpperCase` on one character, for ASCII letters. */
  function UpperChar(c: char): char
  {
    if 'a' <= c <= 'z' then (c as int - 32) as char else c
  }

  /** `s.toUpperCase()`, restricted to the ASCII letters. */
  function UpperAscii(s: string): (r: string)
    ensures |r| == |s|
  {
    if |s| == 0 then "" else [UpperChar(s[0])] + UpperAscii(s[1..])
  }

  /** The first characters of the words, in order. */
  function FirstChars(words: seq<string>): seq<string>
  {
    seq(|words|, i requires 0 <= i < |words| => FirstChar(words[i]))
  }

  /** `.slice(0, 2)`. */
  function TakeTwo<T>(s: seq<T>): seq<T>
  {
    if |s| <= 2 then s else s[..2]
  }

  /**
   * The avatar initials of `createPilotCard`:
   * `(pilot.name || "?").split(" ").map(first).slice(0, 2).join("").toUpperCase()`.
   * A truthy name that is not a string has no `split`: the call throws (None).
   */
  function Initials(name: Value): (r: Option<string>)
    ensures r.None? <==> Truthy(name) && !name.Str?
  {
    var n := Or(name, Str("?"));
    if !n.Str? then None
    else Some(UpperAscii(Concat(TakeTwo(FirstChars(Split(n.s, ' '))))))
  }

  /** The first character of each of the first two space-separated words, upper-cased. */
  function WordInitials(s: string): string
  {
    var words := Split(s, ' ');
    UpperAscii(FirstChar(words[0]) + (if |words| >= 2 then FirstChar(words[1]) else ""))
  }

  lemma ConcatUpToTwo(fs: seq<string>)
    requires |fs| >= 1
    ensures Concat(TakeTwo(fs)) == fs[0] + (if |fs| >= 2 then fs[1] else "")
  {
    var t := TakeTwo(fs);
    if |t| == 1 {
      assert Concat(t) == t[0] + Concat([]);
    } else {
      assert t[1..] == [t[1]];
      assert Concat(t[1..]) == t[1] + Concat([]);
    }
  }

  /**
   * Initials: "?" for a falsy name, nothing (a throw) for a truthy
   * non-string, and otherwise the upper-cased first characters of the
   * first two space-separated words, at most two characters.
   */
  lemma InitialsSpec(name: Value)
    ensures !Truthy(name) ==> Initials(name) == Some("?")
    ensures Truthy(name) && !name.Str? ==> Initials(name) == None
    ensures name.Str? && Truthy(name) ==> Initials(name) == Some(WordInitials(name.s))
    ensures Initials(name).Some? ==> |Initials(name).value| <= 2
  {
    var n := Or(name, Str("?"));
    if n.Str? {
      var words := Split(n.s, ' ');
      ConcatUpToTwo(FirstChars(words));
      if !Truthy(name) {
        SplitNoSeparator(n.s, ' ');
      }
    }
  }

  /**
   * An empty word between two consecutive spaces still takes one of the
   * two slots: "Ana  Paz" gives "A", the second word is never reached.
   */
  lemma DoubleSpaceTakesASlot(first: string, second: string)
    requires first != "" && ' ' !in first && ' ' !in second
    ensures Initials(Str(first + "  " + second)) == Some(UpperAscii([first[0]]))
  {
    var s := first + "  " + second;
    assert s == first + [' '] + ([' '] + second);
    SplitAfterWord(first, ' ', [' '] + second);
    assert [' '] + second == "" + [' '] + second;
    SplitAfterWord("", ' ', second);
    var words := Split(s, ' ');
    assert words == [first] + ([""] + Split(second, ' '));
    assert |words| >= 2 && words[0] == first && words[1] == "";
    assert FirstChar(first) + FirstChar("") == [first[0]];
    InitialsSpec(Str(s));
  }

  /** The text of a pilot card, each field already escaped. */
  datatype PilotCardText = PilotCardText(initials: string, name: string, number: string, team: string)

  /**
   * `createPilotCard(pilot = {})`: the escaped initials, the name or
   * "Sin nombre", `String(car_number || "?")` and the team or "Sin equipo".
   * A null pilot, or a truthy non-string name, throws (None).
   */
  function PilotCard(pilot: Value): (r: Option<PilotCardText>)
    ensures r.Some? ==> && NoMarkup(r.value.initials) && NoMarkup(r.value.name)
                        && NoMarkup(r.value.number) && NoMarkup(r.value.team)
  {
    var p := CardSubject(pilot);
    if p.Null? then None
    else match Initials(Get(p, "name"))
      case None => None
      case Some(ini) => Some(PilotCardText(
        EscapeHtmlStringified(Str(ini)),
        Label(Get(p, "name"), NoName),
        NumberLabel(Get(p, "car_number")),
        Label(Get(p, "team"), NoTeam)))
  }

  /** `escapeHtml(String(n || "?"))`: "?" for a falsy number, else the escaped text of the number. */
  function NumberLabel(n: Value): (r: string)
    ensures !Truthy(n) ==> r == EscapeEach(NoNumber)
    ensures Truthy(n) ==> Unescape(r) == ToJsString(n)
    ensures NoMarkup(r)
  {
    EscapeHtmlStringified(Str(ToJsString(Or(n, Str(NoNumber)))))
  }

  /** `escapeHtml(v || fallback)`: the escaped fallback for a falsy value, else the escaped value. */
  function Label(v: Value, fallback: string): (r: string)
    ensures !Truthy(v) ==> r == EscapeEach(fallback)
    ensures Truthy(v) ==> Unescape(r) == ToJsString(v)
    ensures NoMarkup(r)
  {
    EscapeHtmlStringified(Or(v, Str(fallback)))
  }

  const NoName := "Sin nombre"
  const NoTeam := "Sin equipo"
  const NoNumber := "?"

  lemma PlainName()
    ensures EscapeEach(NoName) == NoName
  {
    EscapeEachPlain(NoName);
  }

  lemma PlainTeam()
    ensures EscapeEach(NoTeam) == NoTeam
  {
    EscapeEachPlain(NoTeam);
  }

  lemma PlainNumber()
    ensures EscapeEach(NoNumber) == NoNumber
  {
    EscapeEachPlain(NoNumber);
  }

  /** The pilot object after the `pilot = {}` default. */
  function CardSubject(pilot: Value): Value
  {
    if pilot.Undefined? then Obj(map[]) else pilot
  }

  /** A name the initials can be computed from: falsy, or a string. */
  predicate CardNameUsable(name: Value)
  {
    !Truthy(name) || name.Str?
  }

  /** With a usable name the card is built. */
  lemma CardInitialsDefined(pilot: Value)
    requires !pilot.Null? && CardNameUsable(Get(CardSubject(pilot), "name"))
    ensures PilotCard(pilot).Some?
  {
    assert Initials(Get(CardSubject(pilot), "name")).Some?;
  }

  /** The card fails (throws) exactly for a null pilot or a truthy non-string name. */
  lemma PilotCardThrows(pilot: Value)
    ensures PilotCard(pilot).None? <==>
      (pilot.Null? || (Truthy(Get(CardSubject(pilot), "name")) && !Get(CardSubject(pilot), "name").Str?))
  {
    if !pilot.Null? {
      InitialsSpec(Get(CardSubject(pilot), "name"));
    }
  }

  /** A falsy name gives the initials "?". */
  lemma PilotCardNoNameInitials(pilot: Value)
    requires !pilot.Null? && !Truthy(Get(CardSubject(pilot), "name"))
    ensures PilotCard(pilot).Some? && PilotCard(pilot).value.initials == "?"
  {
    var name := Get(CardSubject(pilot), "name");
    InitialsSpec(name);
    assert Initials(name) == Some(NoNumber);
    PlainNumber();
    assert EscapeHtmlStringified(Str(NoNumber)) == NoNumber;
  }

  /** The name label: "Sin nombre" for a falsy name, else the name itself, escaped. */
  lemma PilotCardName(pilot: Value)
    requires !pilot.Null? && CardNameUsable(Get(CardSubject(pilot), "name"))
    ensures PilotCard(pilot).Some?
    ensures var name := Get(CardSubject(pilot), "name");
      && (!Truthy(name) ==> PilotCard(pilot).value.name == NoName)
      && (Truthy(name) ==> Unescape(PilotCard(pilot).value.name) == ToJsString(name))
      && NoMarkup(PilotCard(pilot).value.name)
  {
    CardInitialsDefined(pilot);
    PlainName();
  }

  /** The number label: "?" for a falsy car number, 0 included; else its string, escaped. */
  lemma PilotCardNumber(pilot: Value)
    requires !pilot.Null? && CardNameUsable(Get(CardSubject(pilot), "name"))
    ensures PilotCard(pilot).Some?
    ensures var number := Get(CardSubject(pilot), "car_number");
      && (!Truthy(number) ==> PilotCard(pilot).value.number == NoNumber)
      && (Truthy(number) ==> Unescape(PilotCard(pilot).value.number) == ToJsString(number))
      && NoMarkup(PilotCard(pilot).value.number)
  {
    CardInitialsDefined(pilot);
    PlainNumber();
  }

  /** The team label: "Sin equipo" for a falsy team, else the team itself, escaped. */
  lemma PilotCardTeam(pilot: Value)
    requires !pilot.Null? && CardNameUsable(Get(CardSubject(pilot), "name"))
    ensures PilotCard(pilot).Some?
    ensures var team := Get(CardSubject(pilot), "team");
      && (!Truthy(team) ==> PilotCard(pilot).value.team == NoTeam)
      && (Truthy(team) ==> Unescape(PilotCard(pilot).value.team) == ToJsString(team))
      && NoMarkup(PilotCard(pilot).value.team)
  {
    CardInitialsDefined(pilot);
    PlainTeam();
  }

  /** A DOM element, seen only through its class list. */
  class Element {
    var classes: set<string>

    constructor (classes: set<string>)
      ensures this.classes == classes
    {
      this.classes := classes;
    }
  }

  /**
   * `showSpinner(el, show)`: nothing happens for a missing element;
   * otherwise `show` removes the class "hidden" and `!show` adds it, and no
   * other class changes.
   */
  method ShowSpinner(el: Element?, show: bool)
    modifies if el == null then {} else {el}
    ensures el != null ==> el.classes == if show then old(el.classes) - {"hidden"} else old(el.classes) + {"hidden"}
    ensures el != null ==> ("hidden" in el.classes <==> !show)
    ensures el != null ==> forall c :: c != "hidden" ==> (c in el.classes <==> c in old(el.classes))
  {
    if el == null {
      return;
    }
    if show {
      el.classes := el.classes - {"hidden"};
    } else {
      el.classes := el.classes + {"hidden"};
    }
  }
}
