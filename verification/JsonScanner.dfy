/** The brace scanner of the game list, against the JSON grammar (sections 2 to 7 of RFC 8259): started
    at the brace that opens an object, it ends just past the brace that closes that object. */
module JsonScanner {
  import opened Wrappers

  function Shifted(o: Option<nat>, count: nat): Option<nat> {
    if o.Some? then Some(o.value + count) else None
  }

  // --- the scanner ---------------------------------------------------------------------------------

  /** How much of `rest` a string takes up to and with its closing quote, an escape taking two. */
  function StringTail(rest: string): (k: Option<nat>)
    ensures k.Some? ==> 1 <= k.value <= |rest| && rest[k.value - 1] == '"'
  {
    if rest == "" then None
    else if rest[0] == '"' then Some(1)
    else if rest[0] != '\\' then Shifted(StringTail(rest[1..]), 1)
    else if |rest| == 1 then None
    else Shifted(StringTail(rest[2..]), 2)
  }

  /** How much of `rest` is read until the braces balance, `depth` of them being open. */
  function Scan(rest: string, depth: int): (k: Option<nat>)
    ensures k.Some? ==> 1 <= k.value <= |rest| && rest[k.value - 1] == '}'
    decreases |rest|
  {
    if rest == "" then None
    else if rest[0] == '"' then
      var tail := StringTail(rest[1..]);
      if tail.None? then None else Shifted(Scan(rest[1 + tail.value..], depth), 1 + tail.value)
    else if rest[0] == '{' then Shifted(Scan(rest[1..], depth + 1), 1)
    else if rest[0] == '}' then (if depth == 1 then Some(1) else Shifted(Scan(rest[1..], depth - 1), 1))
    else Shifted(Scan(rest[1..], depth), 1)
  }

  /** Where the scanner places the end of what opens at `brace`. */
  function EndOf(json: string, brace: nat): Option<nat> {
    if brace < |json| && json[brace] == '{' then Shifted(Scan(json[brace..], 0), brace) else None
  }

  method JsonObjectEnd(json: string, brace: nat) returns (end: Option<nat>)
    ensures end == EndOf(json, brace)
    ensures end.Some? ==> brace < end.value <= |json| && json[end.value - 1] == '}'
  {
    if brace >= |json| || json[brace] != '{' {
      return None;
    }
    hide ScanFrom, TailFrom;
    var depth := 0;
    var i := brace;
    EndIsScan(json, brace);
    while i < |json|
      invariant brace <= i <= |json|
      invariant ScanFrom(json, i, depth) == EndOf(json, brace)
    {
      ScanFromStep(json, i, depth);
      var ch := json[i];
      if ch == '"' {
        var next := SkipString(json, i + 1);
        if next.None? {
          return None;
        }
        i := next.value;
        continue;
      }
      if ch == '{' {
        depth := depth + 1;
      } else if ch == '}' {
        depth := depth - 1;
        if depth == 0 {
          return Some(i + 1);
        }
      }
      i := i + 1;
    }
    ScanFromStep(json, i, depth);
    end := None;
  }

  /** The inner loop: the place behind the closing quote of the string whose text begins at `at`. */
  method SkipString(json: string, at: nat) returns (next: Option<nat>)
    requires at <= |json|
    ensures next == TailFrom(json, at)
    ensures next.Some? ==> at < next.value <= |json|
  {
    hide TailFrom;
    TailIsLater(json, at);
    var i := at;
    while i < |json|
      invariant at <= i
      invariant i <= |json| ==> TailFrom(json, i) == TailFrom(json, at)
      invariant i > |json| ==> TailFrom(json, at) == None
    {
      TailFromStep(json, i);
      if json[i] == '\\' {
        i := i + 2;
        continue;
      }
      if json[i] == '"' {
        return Some(i + 1);
      }
      i := i + 1;
    }
    if i == |json| {
      TailFromStep(json, i);
    }
    next := None;
  }

  function TailFrom(json: string, i: nat): Option<nat>
    requires i <= |json|
  {
    Shifted(StringTail(json[i..]), i)
  }

  function ScanFrom(json: string, i: nat, depth: int): Option<nat>
    requires i <= |json|
  {
    Shifted(Scan(json[i..], depth), i)
  }

  lemma TailIsLater(json: string, i: nat)
    requires i <= |json|
    ensures TailFrom(json, i).Some? ==> i < TailFrom(json, i).value <= |json|
  {
  }

  lemma EndIsScan(json: string, brace: nat)
    requires brace < |json| && json[brace] == '{'
    ensures ScanFrom(json, brace, 0) == EndOf(json, brace)
    ensures EndOf(json, brace).Some? ==> brace < EndOf(json, brace).value <= |json| && json[EndOf(json, brace).value - 1] == '}'
  {
  }

  lemma TailFromStep(json: string, i: nat)
    requires i <= |json|
    ensures TailFrom(json, i) ==
            if i == |json| then None
            else if json[i] == '"' then Some(i + 1)
            else if json[i] != '\\' then TailFrom(json, i + 1)
            else if i + 1 == |json| then None
            else TailFrom(json, i + 2)
  {
    var rest := json[i..];
    assert |rest| > 0 ==> rest[1..] == json[i + 1..];
    assert |rest| > 1 ==> rest[2..] == json[i + 2..];
  }

  lemma ScanFromStep(json: string, i: nat, depth: int)
    requires i <= |json|
    ensures i < |json| && TailFrom(json, i + 1).Some? ==> i + 1 < TailFrom(json, i + 1).value <= |json|
    ensures ScanFrom(json, i, depth) ==
            if i == |json| then None
            else if json[i] == '"' then
              (if TailFrom(json, i + 1).None? then None else ScanFrom(json, TailFrom(json, i + 1).value, depth))
            else if json[i] == '}' && depth == 1 then Some(i + 1)
            else ScanFrom(json, i + 1, if json[i] == '{' then depth + 1 else if json[i] == '}' then depth - 1 else depth)
  {
    if i < |json| {
      if json[i] == '"' {
        ScanFromQuote(json, i, depth);
      } else {
        assert json[i..][0] == json[i] && json[i..][1..] == json[i + 1..];
      }
    }
  }

  lemma ScanFromQuote(json: string, i: nat, depth: int)
    requires i < |json| && json[i] == '"'
    ensures TailFrom(json, i + 1).Some? ==> i + 1 < TailFrom(json, i + 1).value <= |json|
    ensures ScanFrom(json, i, depth) ==
            if TailFrom(json, i + 1).None? then None else ScanFrom(json, TailFrom(json, i + 1).value, depth)
  {
    var rest := json[i..];
    assert rest[0] == '"' && rest[1..] == json[i + 1..];
    if StringTail(rest[1..]).Some? {
      var n := 1 + StringTail(rest[1..]).value;
      assert rest[n..] == json[i + n..];
    }
  }

  // --- the grammar ---------------------------------------------------------------------------------

  /** A string's text: characters that stand for themselves and escapes. The four digits of a \u escape
      are characters like any other. */
  datatype Piece = Plain(c: char) | Escape(c: char)

  datatype Value =
    | Scalar(text: string)          // a number, true, false or null
    | Text(pieces: seq<Piece>)
    | Array(blank: string, elements: seq<Element>)
    | Object(blank: string, members: seq<Member>)

  /** White space may stand around every value. */
  datatype Element = Element(before: string, value: Value, after: string)

  datatype Member = Member(before: string, key: seq<Piece>, middle: string, element: Element)

  predicate IsBlank(s: string) {
    forall i :: 0 <= i < |s| ==> s[i] == ' ' || s[i] == '\t' || s[i] == '\n' || s[i] == '\r'
  }

  predicate ScalarChar(c: char) {
    '0' <= c <= '9' || 'a' <= c <= 'z' || 'A' <= c <= 'Z' || c == '+' || c == '-' || c == '.'
  }

  predicate IsScalar(s: string) {
    s != "" && forall i :: 0 <= i < |s| ==> ScalarChar(s[i])
  }

  predicate IsText(pieces: seq<Piece>) {
    forall i :: 0 <= i < |pieces| && pieces[i].Plain? ==> pieces[i].c != '"' && pieces[i].c != '\\'
  }

  predicate IsValue(v: Value)
    decreases v
  {
    match v
    case Scalar(text) => IsScalar(text)
    case Text(pieces) => IsText(pieces)
    case Array(blank, elements) => IsBlank(blank) && forall i :: 0 <= i < |elements| ==> IsElement(elements[i])
    case Object(blank, members) => IsBlank(blank) && forall i :: 0 <= i < |members| ==> IsMember(members[i])
  }

  predicate IsElement(e: Element)
    decreases e
  {
    IsBlank(e.before) && IsValue(e.value) && IsBlank(e.after)
  }

  predicate IsMember(m: Member)
    decreases m
  {
    IsBlank(m.before) && IsText(m.key) && IsBlank(m.middle) && IsElement(m.element)
  }

  function PiecesText(pieces: seq<Piece>): string {
    if pieces == [] then ""
    else (if pieces[0].Plain? then [pieces[0].c] else ['\\', pieces[0].c]) + PiecesText(pieces[1..])
  }

  function Quoted(pieces: seq<Piece>): string {
    "\"" + PiecesText(pieces) + "\""
  }

  function Render(v: Value): string
    decreases v, 0
  {
    match v
    case Scalar(text) => text
    case Text(pieces) => Quoted(pieces)
    case Array(blank, elements) => "[" + (if elements == [] then blank else RenderElements(elements)) + "]"
    case Object(blank, members) => "{" + (if members == [] then blank else RenderMembers(members)) + "}"
  }

  function RenderElement(e: Element): string
    decreases e, 0
  {
    e.before + Render(e.value) + e.after
  }

  function RenderElements(elements: seq<Element>): string
    decreases elements, 0
  {
    if elements == [] then ""
    else RenderElement(elements[0]) + (if |elements| == 1 then "" else "," + RenderElements(elements[1..]))
  }

  function RenderMember(m: Member): string
    decreases m, 0
  {
    m.before + Quoted(m.key) + m.middle + ":" + RenderElement(m.element)
  }

  function RenderMembers(members: seq<Member>): string
    decreases members, 0
  {
    if members == [] then ""
    else RenderMember(members[0]) + (if |members| == 1 then "" else "," + RenderMembers(members[1..]))
  }

  // --- what the scanner makes of each construct ----------------------------------------------------

  /** Reading `text` changes no depth: the scan goes on behind it. */
  predicate Passes(text: string, rest: string, depth: int) {
    Scan(text + rest, depth) == Shifted(Scan(rest, depth), |text|)
  }

  predicate Inert(c: char) {
    c != '"' && c != '{' && c != '}'
  }

  lemma {:induction false} InertPasses(text: string, rest: string, depth: int)
    requires forall i :: 0 <= i < |text| ==> Inert(text[i])
    ensures Passes(text, rest, depth)
  {
    if text == "" {
      assert text + rest == rest;
    } else {
      InertPasses(text[1..], rest, depth);
      assert (text + rest)[1..] == text[1..] + rest;
    }
  }

  lemma TwoPass(a: string, b: string, rest: string, depth: int)
    requires Passes(a, b + rest, depth) && Passes(b, rest, depth)
    ensures Passes(a + b, rest, depth)
  {
    hide Scan;
    assert a + b + rest == a + (b + rest);
  }

  lemma {:induction false} PiecesEnd(pieces: seq<Piece>, rest: string)
    requires IsText(pieces)
    ensures StringTail(PiecesText(pieces) + "\"" + rest) == Some(|PiecesText(pieces)| + 1)
  {
    if pieces != [] {
      PiecesEnd(pieces[1..], rest);
      var p := if pieces[0].Plain? then [pieces[0].c] else ['\\', pieces[0].c];
      var tail := PiecesText(pieces[1..]) + "\"" + rest;
      assert PiecesText(pieces) + "\"" + rest == p + tail;
      assert (p + tail)[|p|..] == tail;
    }
  }

  lemma QuotedPasses(pieces: seq<Piece>, rest: string, depth: int)
    requires IsText(pieces)
    ensures Passes(Quoted(pieces), rest, depth)
  {
    PiecesEnd(pieces, rest);
    var body := PiecesText(pieces) + "\"";
    assert Quoted(pieces) + rest == "\"" + (body + rest);
    assert ("\"" + (body + rest))[1..] == body + rest;
    assert ("\"" + (body + rest))[1 + |body|..] == rest;
  }

  lemma {:induction false} ValuePasses(v: Value, rest: string, depth: int)
    requires IsValue(v) && depth >= 1
    ensures Passes(Render(v), rest, depth)
    decreases v, 1
  {
    match v
    case Scalar(text) => InertPasses(text, rest, depth);
    case Text(pieces) => QuotedPasses(pieces, rest, depth);
    case Array(blank, elements) =>
      var inner := if elements == [] then blank else RenderElements(elements);
      InertPasses("]", rest, depth);
      if elements == [] {
        InertPasses(blank, "]" + rest, depth);
      } else {
        ElementsPass(elements, "]" + rest, depth);
      }
      TwoPass(inner, "]", rest, depth);
      InertPasses("[", inner + "]" + rest, depth);
      assert inner + "]" + rest == (inner + "]") + rest;
      TwoPass("[", inner + "]", rest, depth);
      assert Render(v) == "[" + (inner + "]");
    case Object(blank, members) =>
      ObjectScans(v, rest, depth);
  }

  /** From its opening brace on: the object is read to its end, and only the outermost ends the scan. */
  lemma {:induction false} ObjectScans(v: Value, rest: string, depth: int)
    requires IsValue(v) && v.Object? && depth >= 0
    ensures Scan(Render(v) + rest, depth) == if depth == 0 then Some(|Render(v)|) else Shifted(Scan(rest, depth), |Render(v)|)
    decreases v, 0
  {
    var inner := if v.members == [] then v.blank else RenderMembers(v.members);
    if v.members == [] {
      InertPasses(v.blank, "}" + rest, depth + 1);
    } else {
      MembersPass(v.members, "}" + rest, depth + 1);
    }
    BracedScans(inner, rest, depth);
  }

  lemma BracedScans(inner: string, rest: string, depth: int)
    requires Passes(inner, "}" + rest, depth + 1)
    ensures var text := "{" + inner + "}";
            Scan(text + rest, depth) == if depth == 0 then Some(|text|) else Shifted(Scan(rest, depth), |text|)
  {
    var close := "}" + rest;
    assert close[1..] == rest;
    assert "{" + inner + "}" + rest == "{" + (inner + close);
    assert ("{" + (inner + close))[1..] == inner + close;
  }

  lemma {:induction false} ElementPasses(e: Element, rest: string, depth: int)
    requires IsElement(e) && depth >= 1
    ensures Passes(RenderElement(e), rest, depth)
    decreases e, 1
  {
    InertPasses(e.after, rest, depth);
    ValuePasses(e.value, e.after + rest, depth);
    TwoPass(Render(e.value), e.after, rest, depth);
    InertPasses(e.before, Render(e.value) + e.after + rest, depth);
    TwoPass(e.before, Render(e.value) + e.after, rest, depth);
    assert RenderElement(e) == e.before + (Render(e.value) + e.after);
  }

  lemma {:induction false} ElementsPass(elements: seq<Element>, rest: string, depth: int)
    requires depth >= 1 && forall i :: 0 <= i < |elements| ==> IsElement(elements[i])
    ensures Passes(RenderElements(elements), rest, depth)
    decreases elements, 1
  {
    if elements == [] {
      InertPasses("", rest, depth);
    } else if |elements| == 1 {
      ElementPasses(elements[0], rest, depth);
      assert RenderElements(elements) == RenderElement(elements[0]);
    } else {
      var more := RenderElements(elements[1..]);
      ElementsPass(elements[1..], rest, depth);
      SeparatedPass(",", more, rest, depth);
      ElementPasses(elements[0], "," + more + rest, depth);
      TwoPass(RenderElement(elements[0]), "," + more, rest, depth);
    }
  }

  lemma SeparatedPass(separator: string, text: string, rest: string, depth: int)
    requires forall i :: 0 <= i < |separator| ==> Inert(separator[i])
    requires Passes(text, rest, depth)
    ensures Passes(separator + text, rest, depth)
  {
    InertPasses(separator, text + rest, depth);
    TwoPass(separator, text, rest, depth);
  }

  lemma {:induction false} MemberPasses(m: Member, rest: string, depth: int)
    requires IsMember(m) && depth >= 1
    ensures Passes(RenderMember(m), rest, depth)
    decreases m, 1
  {
    var value := RenderElement(m.element);
    ElementPasses(m.element, rest, depth);
    SeparatedPass(":", value, rest, depth);
    SeparatedPass(m.middle, ":" + value, rest, depth);
    QuotedPasses(m.key, m.middle + (":" + value) + rest, depth);
    TwoPass(Quoted(m.key), m.middle + (":" + value), rest, depth);
    SeparatedPass(m.before, Quoted(m.key) + (m.middle + (":" + value)), rest, depth);
    MemberText(m, value);
  }

  lemma MemberText(m: Member, value: string)
    requires value == RenderElement(m.element)
    ensures RenderMember(m) == m.before + (Quoted(m.key) + (m.middle + (":" + value)))
  {
    var q := Quoted(m.key);
    hide Quoted, RenderElement;
    assert m.before + q + m.middle + ":" + value == m.before + q + m.middle + (":" + value);
    assert m.before + q + m.middle + (":" + value) == m.before + q + (m.middle + (":" + value));
  }

  lemma {:induction false} MembersPass(members: seq<Member>, rest: string, depth: int)
    requires depth >= 1 && forall i :: 0 <= i < |members| ==> IsMember(members[i])
    ensures Passes(RenderMembers(members), rest, depth)
    decreases members, 1
  {
    if members == [] {
      InertPasses("", rest, depth);
    } else if |members| == 1 {
      MemberPasses(members[0], rest, depth);
      assert RenderMembers(members) == RenderMember(members[0]);
    } else {
      var more := RenderMembers(members[1..]);
      MembersPass(members[1..], rest, depth);
      SeparatedPass(",", more, rest, depth);
      MemberPasses(members[0], "," + more + rest, depth);
      TwoPass(RenderMember(members[0]), "," + more, rest, depth);
    }
  }

  // --- agreement -----------------------------------------------------------------------------------

  /** For every object text and whatever stands before and behind it. */
  lemma EndsWhereTheObjectEnds(v: Value, prefix: string, suffix: string)
    requires IsValue(v) && v.Object?
    ensures EndOf(prefix + Render(v) + suffix, |prefix|) == Some(|prefix| + |Render(v)|)
  {
    var json := prefix + Render(v) + suffix;
    assert json[|prefix|..] == Render(v) + suffix;
    assert json[|prefix|] == Render(v)[0] == '{';
    ObjectScans(v, suffix, 0);
  }

  /** For every object cut off anywhere before its last character, no end is found. */
  lemma CutOffFindsNoEnd(v: Value, prefix: string, kept: nat)
    requires IsValue(v) && v.Object? && kept < |Render(v)|
    ensures EndOf(prefix + Render(v)[..kept], |prefix|) == None
  {
    var text := Render(v);
    var json := prefix + text[..kept];
    if kept > 0 && json[|prefix|] == '{' {
      assert json[|prefix|..] == text[..kept];
      ObjectScans(v, "", 0);
      assert text + "" == text;
      assert text[..kept] + text[kept..] == text;
      ShorterFindsLess(text[..kept], text[kept..], 0);
    }
  }

  lemma {:induction false} ShorterStringFindsLess(rest: string, more: string)
    requires StringTail(rest).Some?
    ensures StringTail(rest + more) == StringTail(rest)
    decreases |rest|
  {
    if rest[0] != '"' {
      var n := if rest[0] == '\\' then 2 else 1;
      assert (rest + more)[n..] == rest[n..] + more;
      ShorterStringFindsLess(rest[n..], more);
    }
  }

  /** An end that is found stays where it is when more text follows. */
  lemma {:induction false} ShorterFindsLess(rest: string, more: string, depth: int)
    ensures Scan(rest, depth).Some? ==> Scan(rest + more, depth) == Scan(rest, depth)
    decreases |rest|
  {
    if Scan(rest, depth).Some? {
      var n := 1;
      if rest[0] == '"' {
        assert (rest + more)[1..] == rest[1..] + more;
        ShorterStringFindsLess(rest[1..], more);
        n := 1 + StringTail(rest[1..]).value;
      }
      assert (rest + more)[n..] == rest[n..] + more;
      ShorterFindsLess(rest[n..], more, if rest[0] == '{' then depth + 1 else if rest[0] == '}' then depth - 1 else depth);
    }
  }
}
