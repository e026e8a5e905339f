/** Filling a report template: placeholders are replaced one after another in the text, and that equals
    substituting them all at once. */
module TemplateReport {
  // ---- Python's str.replace ----------------------------------------------------------------

  /** Every occurrence of a non-empty pattern from the left, none overlapping. */
  function Replace(s: string, pattern: string, value: string): string
    requires pattern != ""
  {
    if |s| < |pattern| then s
    else if pattern <= s then value + Replace(s[|pattern|..], pattern, value)
    else [s[0]] + Replace(s[1..], pattern, value)
  }

  // ---- templates ---------------------------------------------------------------------------

  /** A template is text with named slots. */
  datatype Piece = Text(text: string) | Slot(name: string)

  type Template = seq<Piece>

  function Mark(name: string): (mark: string)
    ensures |mark| >= 4
  {
    "{{" + name + "}}"
  }

  function Show(piece: Piece): string {
    match piece
    case Text(text) => text
    case Slot(name) => Mark(name)
  }

  function Render(template: Template): string {
    if template == [] then "" else Show(template[0]) + Render(template[1..])
  }

  predicate BraceFree(s: string) {
    '{' !in s && '}' !in s
  }

  /** Text in which no mark can start: no two opening braces in a row and none at its end. */
  predicate SafeText(s: string) {
    (forall i :: 0 <= i < |s| - 1 ==> !(s[i] == '{' && s[i + 1] == '{')) && (s != "" ==> s[|s| - 1] != '{')
  }

  predicate Safe(template: Template) {
    forall i :: 0 <= i < |template| ==>
      match template[i] case Text(text) => SafeText(text) case Slot(name) => BraceFree(name)
  }

  /** One slot name filled, wherever it occurs. */
  function Fill(template: Template, name: string, value: string): (filled: Template)
    ensures |filled| == |template|
  {
    if template == [] then []
    else [if template[0] == Slot(name) then Text(value) else template[0]] + Fill(template[1..], name, value)
  }

  // ---- one replacement ---------------------------------------------------------------------

  lemma NotHere(s: string, pattern: string, value: string)
    requires pattern != "" && s != "" && !(pattern <= s)
    ensures Replace(s, pattern, value) == [s[0]] + Replace(s[1..], pattern, value)
  {
    if |s| < |pattern| {
      assert s == [s[0]] + s[1..];
    }
  }

  lemma NoMarkHere(text: string, rest: string, name: string)
    requires SafeText(text) && text != ""
    ensures !(Mark(name) <= text + rest)
  {
    var whole, mark := text + rest, Mark(name);
    assert mark[0] == '{' && mark[1] == '{';
    assert |whole| >= |mark| ==> whole[0] != mark[0] || whole[1] != mark[1];
  }

  lemma FirstThenRest(text: string, rest: string)
    requires text != ""
    ensures [text[0]] + (text[1..] + rest) == text + rest
  {
  }

  /** A mark does not start at text that is not followed by an opening brace. */
  lemma {:induction false} SkipText(text: string, rest: string, name: string, value: string)
    requires SafeText(text)
    ensures Replace(text + rest, Mark(name), value) == text + Replace(rest, Mark(name), value)
  {
    if text == "" {
      assert text + rest == rest;
      assert "" + Replace(rest, Mark(name), value) == Replace(rest, Mark(name), value);
    } else {
      SkipText(text[1..], rest, name, value);
      var whole, mark := text + rest, Mark(name);
      assert whole[1..] == text[1..] + rest;
      NoMarkHere(text, rest, name);
      NotHere(whole, mark, value);
      FirstThenRest(text, Replace(rest, mark, value));
    }
  }

  /** The slot of the name itself is replaced. */
  lemma TakeSlot(rest: string, name: string, value: string)
    ensures Replace(Mark(name) + rest, Mark(name), value) == value + Replace(rest, Mark(name), value)
  {
    var mark := Mark(name);
    assert mark <= mark + rest && (mark + rest)[|mark|..] == rest;
  }

  /** Position of the first closing brace from `k` on. */
  function CloseFrom(s: string, k: nat): nat
    decreases |s| - k
  {
    if k >= |s| || s[k] == '}' then k else CloseFrom(s, k + 1)
  }

  lemma {:induction false} CloseOfMark(name: string, rest: string, k: nat)
    requires BraceFree(name) && 2 <= k <= |name| + 2
    ensures CloseFrom(Mark(name) + rest, k) == |name| + 2
    decreases |name| + 2 - k
  {
    var s := Mark(name) + rest;
    if k < |name| + 2 {
      assert s[k] == name[k - 2];
      CloseOfMark(name, rest, k + 1);
    } else {
      assert s[k] == '}';
    }
  }

  /** A mark at the start of a mark is the mark of the same name. */
  lemma MarkDeterminesName(other: string, name: string, rest: string)
    requires BraceFree(other) && BraceFree(name) && Mark(name) <= Mark(other) + rest
    ensures name == other
  {
    var mark, whole := Mark(name), Mark(other) + rest;
    assert whole == mark + whole[|mark|..];
    CloseOfMark(name, whole[|mark|..], 2);
    CloseOfMark(other, rest, 2);
    assert whole[2..|name| + 2] == name && whole[2..|other| + 2] == other;
  }

  lemma MarkParts(name: string, rest: string)
    ensures Mark(name) + rest == ['{'] + (("{" + name + "}}") + rest)
    ensures (Mark(name) + rest)[0] == '{' && (Mark(name) + rest)[1..] == ("{" + name + "}}") + rest
  {
    assert Mark(name) == ['{'] + ("{" + name + "}}");
  }

  lemma InnerIsSafe(name: string)
    requires BraceFree(name)
    ensures SafeText("{" + name + "}}")
  {
  }

  /** The slot of another name is left alone. */
  lemma SkipSlot(other: string, rest: string, name: string, value: string)
    requires BraceFree(other) && BraceFree(name) && other != name
    ensures Replace(Mark(other) + rest, Mark(name), value) == Mark(other) + Replace(rest, Mark(name), value)
  {
    hide Replace, SafeText;
    var whole := Mark(other) + rest;
    if Mark(name) <= whole {
      MarkDeterminesName(other, name, rest);
    }
    MarkParts(other, rest);
    MarkParts(other, Replace(rest, Mark(name), value));
    InnerIsSafe(other);
    hide Mark;
    NotHere(whole, Mark(name), value);
    SkipText("{" + other + "}}", rest, name, value);
  }

  /** Replacing a mark in the rendered text fills the slots of that name and nothing else. */
  lemma {:induction false} ReplaceFills(template: Template, name: string, value: string)
    requires Safe(template) && BraceFree(name)
    ensures Replace(Render(template), Mark(name), value) == Render(Fill(template, name, value))
  {
    if template != [] {
      var rest := Render(template[1..]);
      ReplaceFills(template[1..], name, value);
      FillFirst(template, name, value);
      match template[0] {
        case Text(text) => SkipText(text, rest, name, value);
        case Slot(other) =>
          if other == name {
            TakeSlot(rest, name, value);
          } else {
            SkipSlot(other, rest, name, value);
          }
      }
    }
  }

  lemma FillFirst(template: Template, name: string, value: string)
    requires template != []
    ensures Fill(template, name, value) != [] && Fill(template, name, value)[1..] == Fill(template[1..], name, value)
    ensures Fill(template, name, value)[0] == if template[0] == Slot(name) then Text(value) else template[0]
  {
  }

  // ---- values that are templates -----------------------------------------------------------

  /** One slot name replaced by a whole template. */
  function Bind(template: Template, name: string, value: Template): Template {
    if template == [] then []
    else BindOne(template[0], name, value) + Bind(template[1..], name, value)
  }

  function BindOne(piece: Piece, name: string, value: Template): Template {
    if piece == Slot(name) then value else [piece]
  }

  /** All slots with a value replaced at once. */
  function BindAll(template: Template, values: map<string, Template>): Template {
    if template == [] then [] else Bound(template[0], values) + BindAll(template[1..], values)
  }

  function Bound(piece: Piece, values: map<string, Template>): Template {
    if piece.Slot? && piece.name in values then values[piece.name] else [piece]
  }

  lemma RenderOne(piece: Piece)
    ensures Render([piece]) == Show(piece)
  {
    assert Show(piece) + "" == Show(piece);
  }

  lemma Associates<T>(a: seq<T>, b: seq<T>, c: seq<T>)
    ensures a + (b + c) == (a + b) + c
  {
  }

  lemma RenderFirst(piece: Piece, rest: Template)
    ensures Render([piece] + rest) == Show(piece) + Render(rest)
  {
    assert ([piece] + rest)[1..] == rest;
  }

  lemma RenderNothingBefore(b: Template)
    ensures Render([] + b) == Render([]) + Render(b)
  {
    assert [] + b == b && "" + Render(b) == Render(b);
  }

  lemma {:induction false} RenderConcat(a: Template, b: Template)
    ensures Render(a + b) == Render(a) + Render(b)
  {
    hide Render, Show;
    if a == [] {
      RenderNothingBefore(b);
    } else {
      RenderConcat(a[1..], b);
      assert a + b == [a[0]] + (a[1..] + b) && a == [a[0]] + a[1..];
      RenderFirst(a[0], a[1..] + b);
      RenderFirst(a[0], a[1..]);
      Associates(Show(a[0]), Render(a[1..]), Render(b));
    }
  }

  lemma BindFirst(piece: Piece, rest: Template, name: string, value: Template)
    ensures Bind([piece] + rest, name, value) == BindOne(piece, name, value) + Bind(rest, name, value)
  {
    assert ([piece] + rest)[1..] == rest;
  }

  lemma BindNothingBefore(b: Template, name: string, value: Template)
    ensures Bind([] + b, name, value) == Bind([], name, value) + Bind(b, name, value)
  {
    assert [] + b == b && [] + Bind(b, name, value) == Bind(b, name, value);
  }

  lemma {:induction false} BindConcat(a: Template, b: Template, name: string, value: Template)
    ensures Bind(a + b, name, value) == Bind(a, name, value) + Bind(b, name, value)
  {
    hide Bind, BindOne;
    if a == [] {
      BindNothingBefore(b, name, value);
    } else {
      BindConcat(a[1..], b, name, value);
      assert a + b == [a[0]] + (a[1..] + b) && a == [a[0]] + a[1..];
      BindFirst(a[0], a[1..] + b, name, value);
      BindFirst(a[0], a[1..], name, value);
      Associates(BindOne(a[0], name, value), Bind(a[1..], name, value), Bind(b, name, value));
    }
  }

  lemma {:induction false} FillIsBind(template: Template, name: string, value: Template)
    ensures Render(Fill(template, name, Render(value))) == Render(Bind(template, name, value))
  {
    if template != [] {
      FillIsBind(template[1..], name, value);
      FillFirst(template, name, Render(value));
      var first := BindOne(template[0], name, value);
      RenderConcat(first, Bind(template[1..], name, value));
      RenderOne(template[0]);
    }
  }

  lemma {:induction false} BindIsSafe(template: Template, name: string, value: Template)
    requires Safe(template) && Safe(value)
    ensures Safe(Bind(template, name, value))
  {
    if template != [] {
      BindIsSafe(template[1..], name, value);
    }
  }

  /** Replacing a mark by a rendered template is binding the slot to the template. */
  lemma ReplaceBinds(template: Template, name: string, value: Template)
    requires Safe(template) && BraceFree(name)
    ensures Replace(Render(template), Mark(name), Render(value)) == Render(Bind(template, name, value))
  {
    ReplaceFills(template, name, Render(value));
    FillIsBind(template, name, value);
  }

  lemma {:induction false} BindUnmentioned(template: Template, name: string, value: Template)
    requires Slot(name) !in template
    ensures Bind(template, name, value) == template
  {
    if template != [] {
      BindUnmentioned(template[1..], name, value);
      assert [template[0]] + template[1..] == template;
    }
  }

  /** A placeholder whose value is its own mark changes nothing. */
  lemma {:induction false} BindOwnMark(template: Template, name: string, value: Template)
    requires Render(value) == Mark(name)
    ensures Render(Bind(template, name, value)) == Render(template)
  {
    if template != [] {
      BindOwnMark(template[1..], name, value);
      var first := BindOne(template[0], name, value);
      RenderConcat(first, Bind(template[1..], name, value));
      RenderOne(template[0]);
    }
  }

  // ---- all replacements --------------------------------------------------------------------

  /** The placeholders of a report in the order of its dictionary. */
  type Placeholders = seq<(string, string)>

  function ReplaceAll(s: string, placeholders: Placeholders): string {
    if placeholders == [] then s
    else
      var last := placeholders[|placeholders| - 1];
      Replace(ReplaceAll(s, placeholders[..|placeholders| - 1]), Mark(last.0), last.1)
  }

  method BuildReport(template: string, placeholders: Placeholders) returns (report: string)
    ensures report == ReplaceAll(template, placeholders)
  {
    report := template;
    for n := 0 to |placeholders|
      invariant report == ReplaceAll(template, placeholders[..n])
    {
      report := Replace(report, Mark(placeholders[n].0), placeholders[n].1);
      assert placeholders[..n + 1][..n] == placeholders[..n];
    }
    assert placeholders[..|placeholders|] == placeholders;
  }

  /** A dictionary whose values are written as templates: plain text, or text that mentions placeholders. */
  type Dictionary = seq<(string, Template)>

  function Rendered(d: Dictionary): (placeholders: Placeholders)
    ensures |placeholders| == |d|
  {
    if d == [] then [] else Rendered(d[..|d| - 1]) + [(d[|d| - 1].0, Render(d[|d| - 1].1))]
  }

  ghost predicate SafeDictionary(d: Dictionary) {
    && (forall i :: 0 <= i < |d| ==> BraceFree(d[i].0) && Safe(d[i].1))
    && (forall i, j :: 0 <= i < j < |d| ==> d[i].0 != d[j].0)
  }

  function BindSeq(template: Template, d: Dictionary): Template {
    if d == [] then template else Bind(BindSeq(template, d[..|d| - 1]), d[|d| - 1].0, d[|d| - 1].1)
  }

  lemma {:induction false} ReplaceAllBinds(template: Template, d: Dictionary)
    requires Safe(template) && SafeDictionary(d)
    ensures ReplaceAll(Render(template), Rendered(d)) == Render(BindSeq(template, d)) && Safe(BindSeq(template, d))
  {
    if d != [] {
      var n := |d| - 1;
      ReplaceAllBinds(template, d[..n]);
      assert Rendered(d)[..n] == Rendered(d[..n]);
      ReplaceBinds(BindSeq(template, d[..n]), d[n].0, d[n].1);
      BindIsSafe(BindSeq(template, d[..n]), d[n].0, d[n].1);
    }
  }

  /** The value of one placeholder changes what another one of the dictionary would do. */
  predicate Mentions(x: (string, Template), y: (string, Template)) {
    x.0 != y.0 && Slot(y.0) in x.1 && Render(y.1) != Mark(y.0)
  }

  /** No slot of the template gets a value that mentions another placeholder. */
  ghost predicate Quiet(template: Template, d: Dictionary) {
    forall x, y | x in d && y in d && Slot(x.0) in template :: !Mentions(x, y)
  }

  function ValuesOf(d: Dictionary): map<string, Template> {
    if d == [] then map[] else ValuesOf(d[..|d| - 1])[d[|d| - 1].0 := d[|d| - 1].1]
  }

  lemma {:induction false} ValueOf(d: Dictionary, name: string)
    requires SafeDictionary(d)
    ensures name in ValuesOf(d) <==> exists i :: 0 <= i < |d| && d[i].0 == name
    ensures forall i :: 0 <= i < |d| && d[i].0 == name ==> ValuesOf(d)[name] == d[i].1
  {
    if d != [] {
      var n := |d| - 1;
      ValueOf(d[..n], name);
      if name in ValuesOf(d[..n]) {
        var i :| 0 <= i < |d[..n]| && d[..n][i].0 == name;
        assert d[i].0 == name;
      }
    }
  }

  /** One more binding after all the others is one more of the bindings at once. */
  lemma {:induction false} OneMore(template: Template, values: map<string, Template>, name: string, value: Template)
    requires name !in values
    requires Render(value) == Mark(name)
             || forall other <- values :: Slot(other) in template ==> Slot(name) !in values[other]
    ensures Render(Bind(BindAll(template, values), name, value)) == Render(BindAll(template, values[name := value]))
  {
    if template != [] {
      var rest, first := template[1..], Bound(template[0], values);
      OneMore(rest, values, name, value);
      BindConcat(first, BindAll(rest, values), name, value);
      RenderConcat(Bind(first, name, value), Bind(BindAll(rest, values), name, value));
      RenderConcat(Bound(template[0], values[name := value]), BindAll(rest, values[name := value]));
      if template[0].Slot? && template[0].name in values {
        if Render(value) == Mark(name) {
          BindOwnMark(first, name, value);
        } else {
          assert template[0] in template;
          BindUnmentioned(first, name, value);
        }
      } else if template[0] == Slot(name) {
        assert Bind([Slot(name)], name, value) == value + [] == value;
      } else {
        BindUnmentioned([template[0]], name, value);
      }
    }
  }

  lemma {:induction false} BindNothing(template: Template)
    ensures BindAll(template, map[]) == template
  {
    if template != [] {
      BindNothing(template[1..]);
      assert [template[0]] + template[1..] == template;
    }
  }

  lemma {:induction false} BoundIsSafe(template: Template, values: map<string, Template>)
    requires Safe(template) && forall n <- values :: Safe(values[n])
    ensures Safe(BindAll(template, values))
  {
    if template != [] {
      BoundIsSafe(template[1..], values);
    }
  }

  lemma AllSafe(template: Template, d: Dictionary)
    requires Safe(template) && SafeDictionary(d)
    ensures Safe(BindAll(template, ValuesOf(d)))
  {
    forall name <- ValuesOf(d)
      ensures Safe(ValuesOf(d)[name])
    {
      ValueOf(d, name);
    }
    BoundIsSafe(template, ValuesOf(d));
  }

  lemma QuietPrefix(template: Template, d: Dictionary)
    requires d != [] && SafeDictionary(d) && Quiet(template, d)
    ensures SafeDictionary(d[..|d| - 1]) && Quiet(template, d[..|d| - 1])
  {
    forall x | x in d[..|d| - 1]
      ensures x in d
    {
    }
  }

  /** The last placeholder of a quiet dictionary is mentioned by no earlier value that the template asks for. */
  lemma LastIsUnmentioned(template: Template, d: Dictionary)
    requires d != [] && SafeDictionary(d) && Quiet(template, d)
    ensures var n := |d| - 1;
            && d[n].0 !in ValuesOf(d[..n])
            && (Render(d[n].1) == Mark(d[n].0)
                || forall other <- ValuesOf(d[..n]) :: Slot(other) in template ==> Slot(d[n].0) !in ValuesOf(d[..n])[other])
  {
    var n := |d| - 1;
    var before, last := d[..n], d[n];
    QuietPrefix(template, d);
    ValueOf(before, last.0);
    forall other <- ValuesOf(before) | Slot(other) in template && Render(last.1) != Mark(last.0)
      ensures Slot(last.0) !in ValuesOf(before)[other]
    {
      ValueOf(before, other);
      var i :| 0 <= i < |before| && before[i].0 == other;
      assert d[i] in d && last in d && !Mentions(d[i], last);
    }
  }

  /** Replacing the placeholders one after another equals substituting all of them at once, as long as no slot of
      the template gets a value that mentions another placeholder.  A value may mention its own. */
  lemma {:induction false} SequentialIsSimultaneous(template: Template, d: Dictionary)
    requires Safe(template) && SafeDictionary(d) && Quiet(template, d)
    ensures ReplaceAll(Render(template), Rendered(d)) == Render(BindAll(template, ValuesOf(d)))
  {
    hide Quiet, Safe, BraceFree, Render, Bind, BindAll, Replace;
    if d == [] {
      BindNothing(template);
    } else {
      var n := |d| - 1;
      var before, last := d[..n], d[n];
      QuietPrefix(template, d);
      SequentialIsSimultaneous(template, before);
      LastIsUnmentioned(template, d);
      AllSafe(template, before);
      assert Rendered(d)[..n] == Rendered(before);
      ReplaceBinds(BindAll(template, ValuesOf(before)), last.0, last.1);
      OneMore(template, ValuesOf(before), last.0, last.1);
    }
  }

  // ---- order -------------------------------------------------------------------------------

  /** Some other order of the dictionary gives another report. */
  ghost predicate OrderMatters(template: Template, d: Dictionary) {
    exists e: Dictionary ::
      multiset(e) == multiset(d) && ReplaceAll(Render(template), Rendered(e)) != ReplaceAll(Render(template), Rendered(d))
  }

  lemma SameMembers(d: Dictionary, e: Dictionary)
    requires multiset(d) == multiset(e)
    ensures |d| == |e| && forall x :: x in d <==> x in e
  {
    assert |multiset(d)| == |d| && |multiset(e)| == |e|;
    forall x
      ensures x in d <==> x in e
    {
      assert x in d <==> x in multiset(d);
      assert x in e <==> x in multiset(e);
    }
  }

  lemma StaysDistinct(d: Dictionary, e: Dictionary, i: nat, j: nat)
    requires SafeDictionary(d) && multiset(d) == multiset(e) && i < j < |e|
    ensures e[i].0 != e[j].0
  {
    SameMembers(d, e);
    var k := Position(d, e[i]);
    var l := Position(d, e[j]);
    if k == l {
      Twice(e, i, j);
      Once(d, k);
      assert false;
    }
  }

  lemma Position(d: Dictionary, x: (string, Template)) returns (k: nat)
    requires x in d
    ensures k < |d| && d[k] == x
  {
    k :| 0 <= k < |d| && d[k] == x;
  }

  lemma Twice(e: Dictionary, i: nat, j: nat)
    requires i < j < |e| && e[i] == e[j]
    ensures multiset(e)[e[i]] >= 2
  {
    assert e == e[..i] + [e[i]] + e[i + 1..j] + [e[j]] + e[j + 1..];
  }

  lemma Once(d: Dictionary, k: nat)
    requires SafeDictionary(d) && k < |d|
    ensures multiset(d)[d[k]] == 1
  {
    assert d == d[..k] + [d[k]] + d[k + 1..];
    assert d[k] !in d[..k] && d[k] !in d[k + 1..];
  }

  lemma StaysSafe(d: Dictionary, e: Dictionary)
    requires SafeDictionary(d) && multiset(d) == multiset(e)
    ensures SafeDictionary(e)
  {
    SameMembers(d, e);
    forall i | 0 <= i < |e|
      ensures BraceFree(e[i].0) && Safe(e[i].1)
    {
      var k := Position(d, e[i]);
    }
    forall i, j | 0 <= i < j < |e|
      ensures e[i].0 != e[j].0
    {
      StaysDistinct(d, e, i, j);
    }
  }

  lemma SameValues(d: Dictionary, e: Dictionary)
    requires SafeDictionary(d) && SafeDictionary(e) && multiset(d) == multiset(e)
    ensures ValuesOf(d) == ValuesOf(e)
  {
    SameMembers(d, e);
    forall name
      ensures name in ValuesOf(d) <==> name in ValuesOf(e)
      ensures name in ValuesOf(d) ==> ValuesOf(d)[name] == ValuesOf(e)[name]
    {
      ValueOf(d, name);
      ValueOf(e, name);
      if i :| 0 <= i < |d| && d[i].0 == name {
        var k := Position(e, d[i]);
      }
      if i :| 0 <= i < |e| && e[i].0 == name {
        var k := Position(d, e[i]);
      }
    }
  }

  /** As long as no slot gets a value that mentions another placeholder, the order does not matter. */
  lemma OrderDoesNotMatter(template: Template, d: Dictionary, e: Dictionary)
    requires Safe(template) && SafeDictionary(d) && Quiet(template, d) && multiset(d) == multiset(e)
    ensures ReplaceAll(Render(template), Rendered(d)) == ReplaceAll(Render(template), Rendered(e))
  {
    StaysSafe(d, e);
    SameMembers(d, e);
    SequentialIsSimultaneous(template, d);
    SequentialIsSimultaneous(template, e);
    SameValues(d, e);
  }

  // ---- when the order does matter ----------------------------------------------------------

  lemma {:induction false} BindIsBindAll(template: Template, name: string, value: Template)
    ensures Bind(template, name, value) == BindAll(template, map[name := value])
  {
    if template != [] {
      BindIsBindAll(template[1..], name, value);
    }
  }

  lemma {:induction false} BindToItself(template: Template, name: string)
    ensures BindAll(template, map[name := [Slot(name)]]) == template
  {
    if template != [] {
      BindToItself(template[1..], name);
      assert [template[0]] + template[1..] == template;
    }
  }

  /** Binding one name and then another is binding both at once, the first to its value with the second bound. */
  lemma {:induction false} OneAfterTheOther(template: Template, a: string, v: Template, b: string, w: Template)
    requires a != b
    ensures Bind(Bind(template, a, v), b, w) == BindAll(template, map[a := Bind(v, b, w), b := w])
  {
    if template != [] {
      OneAfterTheOther(template[1..], a, v, b, w);
      var first := BindOne(template[0], a, v);
      BindConcat(first, Bind(template[1..], a, v), b, w);
      if template[0] == Slot(b) {
        assert Bind([Slot(b)], b, w) == w + [] == w;
      } else if template[0] != Slot(a) {
        BindUnmentioned([template[0]], b, w);
      }
    }
  }

  /** The value of a name the template does not ask for is of no account. */
  lemma {:induction false} BindUnasked(template: Template, values: map<string, Template>, name: string, value: Template)
    requires Slot(name) !in template && name in values
    ensures BindAll(template, values[name := value]) == BindAll(template, values)
  {
    if template != [] {
      assert template[0] in template;
      BindUnasked(template[1..], values, name, value);
    }
  }

  /** A longer value makes a longer text. */
  lemma {:induction false} LongerValue(template: Template, values: map<string, Template>, name: string, long: Template,
                                       short: Template)
    requires |Render(long)| > |Render(short)|
    ensures var more, less := BindAll(template, values[name := long]), BindAll(template, values[name := short]);
            |Render(more)| >= |Render(less)| && (Slot(name) in template ==> |Render(more)| > |Render(less)|)
  {
    if template != [] {
      LongerValue(template[1..], values, name, long, short);
      RenderConcat(Bound(template[0], values[name := long]), BindAll(template[1..], values[name := long]));
      RenderConcat(Bound(template[0], values[name := short]), BindAll(template[1..], values[name := short]));
      assert Slot(name) in template ==> template[0] == Slot(name) || Slot(name) in template[1..];
    }
  }

  /** A template that asks for a name is no shorter than the name's mark, and the mark itself if it is as long. */
  lemma {:induction false} AtLeastTheMark(template: Template, name: string)
    requires Slot(name) in template
    ensures |Render(template)| >= |Mark(name)|
    ensures |Render(template)| == |Mark(name)| ==> Render(template) == Mark(name)
  {
    if template[0] == Slot(name) {
      assert |Render(template[1..])| == 0 ==> Mark(name) + Render(template[1..]) == Mark(name);
    } else {
      assert Slot(name) in template[1..];
      AtLeastTheMark(template[1..], name);
      assert |Show(template[0])| == 0 ==> Show(template[0]) + Render(template[1..]) == Render(template[1..]);
    }
  }

  lemma {:induction false} SlotGone(template: Template, values: map<string, Template>, name: string)
    requires name in values && forall n <- values :: Slot(name) !in values[n]
    ensures Slot(name) !in BindAll(template, values)
  {
    if template != [] {
      SlotGone(template[1..], values, name);
    }
  }

  lemma {:induction false} SlotComes(template: Template, values: map<string, Template>, through: string, name: string)
    requires Slot(through) in template && through in values && Slot(name) in values[through]
    ensures Slot(name) in BindAll(template, values)
  {
    if template[0] != Slot(through) {
      assert Slot(through) in template[1..];
      SlotComes(template[1..], values, through, name);
    }
  }

  /** Safe templates that render alike ask for the same names. */
  lemma SameTextSameSlots(x: Template, y: Template, name: string)
    requires Safe(x) && Safe(y) && Slot(name) !in x && Slot(name) in y
    ensures Render(x) != Render(y)
  {
    var k :| 0 <= k < |y| && y[k] == Slot(name);
    assert BraceFree(name);
    ReplaceBinds(x, name, []);
    BindUnmentioned(x, name, []);
    ReplaceBinds(y, name, []);
    BindIsBindAll(y, name, []);
    BindToItself(y, name);
    RenderOne(Slot(name));
    LongerValue(y, map[], name, [Slot(name)], []);
    assert map[][name := [Slot(name)]] == map[name := [Slot(name)]];
  }

  /** The other order, as bindings at once. */
  lemma OtherOrder(template: Template, a: string, v: Template, b: string, w: Template)
    requires a != b && (Slot(b) !in template || Slot(a) !in w)
    ensures BindAll(template, map[b := Bind(w, a, v), a := v]) == BindAll(template, map[b := w, a := v])
  {
    if Slot(b) !in template {
      BindUnasked(template, map[b := w, a := v], b, Bind(w, a, v));
      assert map[b := w, a := v][b := Bind(w, a, v)] == map[b := Bind(w, a, v), a := v];
    } else {
      BindUnmentioned(w, a, v);
    }
  }

  lemma BothMaps(a: string, v: Template, b: string, w: Template, bound: Template)
    requires a != b
    ensures map[a := bound, b := w] == map[a := v, b := w][a := bound]
    ensures map[b := w, a := v] == map[a := v, b := w]
  {
  }

  /** Both orders of two bindings, as bindings at once. */
  lemma BothOrders(template: Template, a: string, v: Template, b: string, w: Template)
    requires a != b && (Slot(b) !in template || Slot(a) !in w)
    ensures var both := map[a := v, b := w];
            && Bind(Bind(template, a, v), b, w) == BindAll(template, both[a := Bind(v, b, w)])
            && Bind(Bind(template, b, w), a, v) == BindAll(template, both)
  {
    hide Bind, BindAll;
    OneAfterTheOther(template, a, v, b, w);
    OneAfterTheOther(template, b, w, a, v);
    BothMaps(a, v, b, w, Bind(v, b, w));
    OtherOrder(template, a, v, b, w);
  }

  /** Binding a name to a value longer or shorter than its mark makes a text longer or shorter. */
  lemma BindLength(v: Template, b: string, w: Template)
    requires Slot(b) in v
    ensures |Render(w)| > |Mark(b)| ==> |Render(Bind(v, b, w))| > |Render(v)|
    ensures |Render(w)| < |Mark(b)| ==> |Render(Bind(v, b, w))| < |Render(v)|
  {
    BindIsBindAll(v, b, w);
    BindToItself(v, b);
    RenderOne(Slot(b));
    hide Render, Bind, BindAll;
    assert map[][b := w] == map[b := w] && map[][b := [Slot(b)]] == map[b := [Slot(b)]];
    if |Render(w)| > |Mark(b)| {
      LongerValue(v, map[], b, w, [Slot(b)]);
    } else if |Render(w)| < |Mark(b)| {
      LongerValue(v, map[], b, [Slot(b)], w);
    }
  }

  /** Where a value mentions another placeholder, exchanging the two changes the text, unless the other one leads
      back and is asked for itself. */
  lemma ExchangeDiffers(template: Template, x: (string, Template), y: (string, Template))
    requires Safe(template) && Safe(x.1) && Safe(y.1) && BraceFree(x.0) && BraceFree(y.0)
    requires Mentions(x, y) && Slot(x.0) in template && (Slot(y.0) !in template || Slot(x.0) !in y.1)
    ensures Render(Bind(Bind(template, x.0, x.1), y.0, y.1)) != Render(Bind(Bind(template, y.0, y.1), x.0, x.1))
  {
    hide Render, Bind, BindAll, Safe, BraceFree;
    var both, bound := map[x.0 := x.1, y.0 := y.1], Bind(x.1, y.0, y.1);
    BothOrders(template, x.0, x.1, y.0, y.1);
    BindLength(x.1, y.0, y.1);
    assert both[x.0 := x.1] == both;
    if |Render(y.1)| > |Mark(y.0)| {
      LongerValue(template, both, x.0, bound, x.1);
    } else if |Render(y.1)| < |Mark(y.0)| {
      LongerValue(template, both, x.0, x.1, bound);
    } else {
      ExchangeOfSameLength(template, x, y, both);
    }
  }

  lemma ExchangeOfSameLength(template: Template, x: (string, Template), y: (string, Template), both: map<string, Template>)
    requires Safe(template) && Safe(x.1) && Safe(y.1) && BraceFree(x.0) && BraceFree(y.0)
    requires Mentions(x, y) && Slot(x.0) in template && |Render(y.1)| == |Mark(y.0)|
    requires both == map[x.0 := x.1, y.0 := y.1]
    ensures Render(BindAll(template, both[x.0 := Bind(x.1, y.0, y.1)])) != Render(BindAll(template, both))
  {
    var bound := Bind(x.1, y.0, y.1);
    if Slot(y.0) in y.1 {
      AtLeastTheMark(y.1, y.0);
    }
    BindIsBindAll(x.1, y.0, y.1);
    SlotGone(x.1, map[y.0 := y.1], y.0);
    BindIsSafe(x.1, y.0, y.1);
    SlotGone(template, both[x.0 := bound], y.0);
    SlotComes(template, both, x.0, y.0);
    BoundIsSafe(template, both);
    BoundIsSafe(template, both[x.0 := bound]);
    SameTextSameSlots(BindAll(template, both[x.0 := bound]), BindAll(template, both), y.0);
  }

  lemma {:induction false} SlotStays(template: Template, d: Dictionary, name: string)
    requires Slot(name) in template && forall i :: 0 <= i < |d| ==> d[i].0 != name
    ensures Slot(name) in BindSeq(template, d)
  {
    if d != [] {
      var n := |d| - 1;
      SlotStays(template, d[..n], name);
      BindIsBindAll(BindSeq(template, d[..n]), d[n].0, d[n].1);
      SlotKept(BindSeq(template, d[..n]), map[d[n].0 := d[n].1], name);
    }
  }

  lemma {:induction false} SlotKept(template: Template, values: map<string, Template>, name: string)
    requires Slot(name) in template && name !in values
    ensures Slot(name) in BindAll(template, values)
  {
    if template[0] != Slot(name) {
      assert Slot(name) in template[1..];
      SlotKept(template[1..], values, name);
    }
  }

  lemma Without(d: Dictionary, k: nat)
    requires k < |d|
    ensures multiset(d) == multiset(d[..k] + d[k + 1..]) + multiset{d[k]}
  {
    assert d == d[..k] + [d[k]] + d[k + 1..];
  }

  lemma PairAtEnd(rest: Dictionary, x: (string, Template), y: (string, Template))
    ensures multiset(rest + [x, y]) == multiset(rest) + multiset{x} + multiset{y}
  {
  }

  /** Two placeholders moved to the end. */
  lemma MoveToEnd(d: Dictionary, i: nat, j: nat) returns (rest: Dictionary)
    requires i < |d| && j < |d| && i != j
    ensures multiset(rest + [d[i], d[j]]) == multiset(d) && multiset(rest + [d[j], d[i]]) == multiset(d)
  {
    var p, q := if i < j then i else j, if i < j then j else i;
    var most := d[..q] + d[q + 1..];
    Without(d, q);
    assert most[p] == d[p];
    Without(most, p);
    rest := most[..p] + most[p + 1..];
    PairAtEnd(rest, d[i], d[j]);
    PairAtEnd(rest, d[j], d[i]);
  }

  lemma BindTwo(template: Template, rest: Dictionary, x: (string, Template), y: (string, Template))
    ensures BindSeq(template, rest + [x, y]) == Bind(Bind(BindSeq(template, rest), x.0, x.1), y.0, y.1)
  {
    assert (rest + [x, y])[..|rest| + 1] == rest + [x];
    assert (rest + [x])[..|rest|] == rest;
  }

  /** Two orders that differ, one of them from the order given. */
  lemma SomeOrderDiffers(template: Template, d: Dictionary, e: Dictionary, f: Dictionary)
    requires multiset(e) == multiset(d) && multiset(f) == multiset(d)
    requires ReplaceAll(Render(template), Rendered(e)) != ReplaceAll(Render(template), Rendered(f))
    ensures OrderMatters(template, d)
  {
  }

  /** A slot whose value mentions another placeholder makes the order matter, if what the other replacements leave
      of the template does not ask for that placeholder or its value does not lead back. */
  lemma MentionMatters(template: Template, d: Dictionary, i: nat, j: nat)
    requires Safe(template) && SafeDictionary(d) && i < |d| && j < |d|
    requires Mentions(d[i], d[j]) && Slot(d[i].0) in template
    requires Slot(d[i].0) !in d[j].1 || template == [Slot(d[i].0)]
    ensures OrderMatters(template, d)
  {
    var x, y := d[i], d[j];
    var rest := MoveToEnd(d, i, j);
    var e, f := rest + [x, y], rest + [y, x];
    StaysSafe(d, e);
    StaysSafe(d, f);
    assert forall k :: 0 <= k < |rest| ==> rest[k] == e[k];
    assert e[|rest|] == x && e[|rest| + 1] == y;
    SlotStays(template, rest, x.0);
    assert SafeDictionary(rest);
    ReplaceAllBinds(template, rest);
    if template == [Slot(x.0)] {
      UntouchedByOthers(template, rest, x.0);
    }
    ExchangeDiffers(BindSeq(template, rest), x, y);
    BindTwo(template, rest, x, y);
    BindTwo(template, rest, y, x);
    ReplaceAllBinds(template, e);
    ReplaceAllBinds(template, f);
    SomeOrderDiffers(template, d, e, f);
  }

  lemma {:induction false} UntouchedByOthers(template: Template, d: Dictionary, name: string)
    requires template == [Slot(name)] && forall i :: 0 <= i < |d| ==> d[i].0 != name
    ensures BindSeq(template, d) == template
  {
    if d != [] {
      var n := |d| - 1;
      UntouchedByOthers(template, d[..n], name);
      BindUnmentioned(template, d[n].0, d[n].1);
    }
  }

  /** No two placeholders whose values mention each other. */
  ghost predicate OneWay(d: Dictionary) {
    forall x, y | x in d && y in d && Mentions(x, y) :: Slot(x.0) !in y.1
  }

  /** For a template: without placeholders that mention each other, the order matters exactly when some slot gets a
      value that mentions another placeholder. */
  lemma OrderMattersExactlyWhen(template: Template, d: Dictionary)
    requires Safe(template) && SafeDictionary(d) && OneWay(d)
    ensures OrderMatters(template, d) <==> !Quiet(template, d)
  {
    if Quiet(template, d) {
      forall e: Dictionary | multiset(e) == multiset(d)
        ensures ReplaceAll(Render(template), Rendered(e)) == ReplaceAll(Render(template), Rendered(d))
      {
        OrderDoesNotMatter(template, d, e);
      }
    } else {
      var x, y :| x in d && y in d && Slot(x.0) in template && Mentions(x, y);
      var i := Position(d, x);
      var j := Position(d, y);
      MentionMatters(template, d, i, j);
    }
  }

  /** No value mentions another placeholder of the dictionary. */
  ghost predicate Independent(d: Dictionary) {
    forall x, y | x in d && y in d :: !Mentions(x, y)
  }

  /** For all templates, and for every dictionary: the order never matters exactly when no value mentions another
      placeholder.  A value may mention its own, and a placeholder whose value is its own mark may be mentioned. */
  lemma OrderNeverMattersExactlyWhen(d: Dictionary)
    requires SafeDictionary(d)
    ensures (forall template | Safe(template) :: !OrderMatters(template, d)) <==> Independent(d)
  {
    if Independent(d) {
      forall template, e: Dictionary | Safe(template) && multiset(e) == multiset(d)
        ensures ReplaceAll(Render(template), Rendered(e)) == ReplaceAll(Render(template), Rendered(d))
      {
        OrderDoesNotMatter(template, d, e);
      }
    } else {
      var x, y :| x in d && y in d && Mentions(x, y);
      var i := Position(d, x);
      var j := Position(d, y);
      assert BraceFree(d[i].0) && Safe([Slot(x.0)]);
      MentionMatters([Slot(x.0)], d, i, j);
    }
  }

  /** Placeholders that mention each other can meet in the same text in both orders, although each slot gets a value
      that mentions the other: a becomes aba, b becomes bab, and the template asks for both. */
  lemma MutualMentionsCanMeet()
    ensures var a, b := Slot("a"), Slot("b");
            var x, y := ("a", [a, b, a]), ("b", [b, a, b]);
            && Safe([a, b]) && SafeDictionary([x, y]) && !Quiet([a, b], [x, y])
            && ReplaceAll(Render([a, b]), Rendered([x, y])) == ReplaceAll(Render([a, b]), Rendered([y, x]))
  {
    var a, b := Slot("a"), Slot("b");
    var x, y := ("a", [a, b, a]), ("b", [b, a, b]);
    SafePair(x, y);
    SafePair(y, x);
    ReplaceAllBinds([a, b], [x, y]);
    ReplaceAllBinds([a, b], [y, x]);
    RenderThree(b, a, b);
    assert a in [a, b] && x in [x, y] && y in [x, y] && b in x.1 && Mentions(x, y);
    hide Render, Rendered, ReplaceAll, SafeDictionary, Safe, BindSeq, Bind, BindAll;
    BindTwo([a, b], [], x, y);
    BindTwo([a, b], [], y, x);
    assert [] + [x, y] == [x, y] && [] + [y, x] == [y, x];
    BindNone([a, b]);
    BothOrdersMeet();
  }

  lemma BindNone(template: Template)
    ensures BindSeq(template, []) == template
  {
  }

  lemma SafePair(x: (string, Template), y: (string, Template))
    requires x.0 in {"a", "b"} && y.0 in {"a", "b"} && x.0 != y.0
    requires x.1 == [Slot(x.0), Slot(y.0), Slot(x.0)] && y.1 == [Slot(y.0), Slot(x.0), Slot(y.0)]
    ensures SafeDictionary([x, y]) && Safe([Slot("a"), Slot("b")])
  {
    assert BraceFree("a") && BraceFree("b");
  }

  lemma BothOrdersMeet()
    ensures var a, b := Slot("a"), Slot("b");
            Bind(Bind([a, b], "a", [a, b, a]), "b", [b, a, b]) == Bind(Bind([a, b], "b", [b, a, b]), "a", [a, b, a])
  {
    var a, b := Slot("a"), Slot("b");
    OneAfterTheOther([a, b], "a", [a, b, a], "b", [b, a, b]);
    OneAfterTheOther([a, b], "b", [b, a, b], "a", [a, b, a]);
    hide Bind, BindAll;
    BindThree([a, b, a], "b", [b, a, b]);
    BindThree([b, a, b], "a", [a, b, a]);
    BindAllTwo([a, b], map["a" := [a] + [b, a, b] + [a], "b" := [b, a, b]]);
    BindAllTwo([a, b], map["b" := [b] + [a, b, a] + [b], "a" := [a, b, a]]);
    assert [a] + [b, a, b] + [a] + [b, a, b] == [a, b, a] + ([b] + [a, b, a] + [b]);
  }

  lemma RenderThree(p: Piece, q: Piece, r: Piece)
    ensures |Render([p, q, r])| == |Show(p)| + |Show(q)| + |Show(r)|
  {
    assert [p, q, r][1..] == [q, r] && [q, r][1..] == [r];
    RenderOne(r);
  }

  lemma BindThree(v: Template, name: string, w: Template)
    requires |v| == 3 && v[0] != Slot(name) && v[1] == Slot(name) && v[2] != Slot(name)
    ensures Bind(v, name, w) == [v[0]] + w + [v[2]]
  {
    assert v[1..][1..] == [v[2]] && [v[2]][1..] == [];
    assert Bind([v[2]], name, w) == [v[2]] + [] == [v[2]];
    assert Bind(v[1..], name, w) == w + [v[2]];
  }

  lemma BindAllTwo(t: Template, values: map<string, Template>)
    requires |t| == 2
    ensures BindAll(t, values) == Bound(t[0], values) + Bound(t[1], values)
  {
    assert t[1..][1..] == [];
    assert BindAll(t[1..], values) == Bound(t[1], values) + [];
  }

  // ---- plain values ------------------------------------------------------------------------

  /** Plain values: text in which no mark can start, single braces allowed. */
  function Plain(placeholders: Placeholders): (d: Dictionary)
    ensures |d| == |placeholders|
    ensures forall i :: 0 <= i < |d| ==> d[i] == (placeholders[i].0, [Text(placeholders[i].1)])
  {
    seq(|placeholders|, i requires 0 <= i < |placeholders| => (placeholders[i].0, [Text(placeholders[i].1)]))
  }

  lemma {:induction false} PlainIsRendered(placeholders: Placeholders)
    ensures Rendered(Plain(placeholders)) == placeholders
  {
    hide Render;
    if placeholders != [] {
      var n := |placeholders| - 1;
      PlainIsRendered(placeholders[..n]);
      assert Plain(placeholders)[..n] == Plain(placeholders[..n]);
      RenderOne(Text(placeholders[n].1));
      assert placeholders == placeholders[..n] + [placeholders[n]];
    }
  }

  /** With plain values every safe template is filled as if all placeholders were substituted at once. */
  lemma PlainIsSimultaneous(template: Template, placeholders: Placeholders)
    requires Safe(template) && SafeDictionary(Plain(placeholders))
    ensures ReplaceAll(Render(template), placeholders) == Render(BindAll(template, ValuesOf(Plain(placeholders))))
    ensures !OrderMatters(template, Plain(placeholders))
  {
    var d := Plain(placeholders);
    assert Independent(d) by {
      forall x, y | x in d && y in d
        ensures !Mentions(x, y)
      {
        var i := Position(d, x);
      }
    }
    PlainIsRendered(placeholders);
    SequentialIsSimultaneous(template, d);
    OrderNeverMattersExactlyWhen(d);
  }
}
