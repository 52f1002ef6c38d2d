/**
 * Reading the settings of an environment file, and rewriting some of them in place.
 *
 * A text here is what is left after the byte order mark of the file, if it has one, was taken off.
 */
module EnvFile {
  import opened Options
  import opened EnvLine

  // ---------------------------------------------------------------- reading

  /** What a line says about a name. */
  function Says(l: string, name: string): Option<string> {
    var s := Reads(Bare(l));
    if s.Some? && s.value.name == name then Some(s.value.value) else None
  }

  /** The value of a name: the last assignment counts. */
  function Lookup(lines: seq<string>, name: string): Option<string> {
    if lines == [] then None
    else
      var last := Says(lines[|lines| - 1], name);
      if last.Some? then last else Lookup(lines[..|lines| - 1], name)
  }

  /** The value a text gives a name. */
  function ReadText(text: string, name: string): Option<string> { Lookup(SplitLines(text), name) }

  /** `read_env_values`. */
  method ReadEnvValues(text: string) returns (values: map<string, string>)
    ensures forall name :: name in values <==> ReadText(text, name).Some?
    ensures forall name :: name in values ==> ReadText(text, name) == Some(values[name])
  {
    hide SplitLines, Reads, Bare;
    var lines := SplitLines(text);
    values := map[];
    for i := 0 to |lines|
      invariant forall name :: name in values <==> Lookup(lines[..i], name).Some?
      invariant forall name :: name in values ==> Lookup(lines[..i], name) == Some(values[name])
    {
      assert lines[..i + 1][..i] == lines[..i];
      var s := Reads(Bare(lines[i]));
      if s.Some? {
        values := values[s.value.name := s.value.value];
      }
    }
    assert lines[..|lines|] == lines;
  }

  // ---------------------------------------------------------------- rewriting

  function ValueFor(vs: seq<Setting>, name: string): Option<string> {
    if vs == [] then None else if vs[0].name == name then Some(vs[0].value) else ValueFor(vs[1..], name)
  }

  /** The line assigns to one of the names. */
  predicate Sets(l: string, vs: seq<Setting>) {
    var a := Parse(Body(l));
    a.Some? && ValueFor(vs, a.value.name).Some?
  }

  /** The line with its value replaced, if it assigns to one of the names. */
  function RewriteLine(l: string, vs: seq<Setting>): string {
    if !Sets(l, vs) then l
    else
      var a := Parse(Body(l)).value;
      a.head + ValueFor(vs, a.name).value + a.comment + Ending(l)
  }

  function RewriteLines(lines: seq<string>, vs: seq<Setting>): (r: seq<string>)
    ensures |r| == |lines| && forall i :: 0 <= i < |lines| ==> r[i] == RewriteLine(lines[i], vs)
  {
    seq(|lines|, i requires 0 <= i < |lines| => RewriteLine(lines[i], vs))
  }

  predicate Assigns(l: string, name: string) {
    var a := Parse(Body(l));
    a.Some? && a.value.name == name
  }

  predicate SomeAssigns(lines: seq<string>, name: string) { exists i :: 0 <= i < |lines| && Assigns(lines[i], name) }

  /** The settings no line assigns to, in order. */
  function Missing(lines: seq<string>, vs: seq<Setting>): seq<Setting> {
    if vs == [] then []
    else
      var init, s := vs[..|vs| - 1], vs[|vs| - 1];
      Missing(lines, init) + if SomeAssigns(lines, s.name) then [] else [s]
  }

  /** The first placeholder of a name, or past the end. */
  function FirstPlaceholder(lines: seq<string>, name: string): (i: nat)
    ensures i <= |lines|
    ensures i < |lines| ==> IsPlaceholder(Body(lines[i]), name)
    ensures forall j :: 0 <= j < i ==> !IsPlaceholder(Body(lines[j]), name)
  {
    if lines == [] || IsPlaceholder(Body(lines[0]), name) then 0 else 1 + FirstPlaceholder(lines[1..], name)
  }

  function PlacedLine(l: string, s: Setting): string { s.name + "=" + s.value + Ending(l) }

  datatype Placed = Placed(lines: seq<string>, left: seq<Setting>)

  function PlaceOne(p: Placed, s: Setting): Placed {
    var i := FirstPlaceholder(p.lines, s.name);
    if i < |p.lines| then Placed(p.lines[i := PlacedLine(p.lines[i], s)], p.left) else Placed(p.lines, p.left + [s])
  }

  /** Each setting takes the first placeholder of its name; those without one are left. */
  function Place(lines: seq<string>, settings: seq<Setting>): Placed {
    if settings == [] then Placed(lines, [])
    else PlaceOne(Place(lines, settings[..|settings| - 1]), settings[|settings| - 1])
  }

  /** The file's own line ending. */
  function NewLine(text: string): (e: string)
    ensures e == "\n" || e == "\r\n"
  {
    if exists i :: 0 <= i < |text| - 1 && text[i] == '\r' && text[i + 1] == '\n' then "\r\n" else "\n"
  }

  /** A setting added at the end. */
  function AddedLine(s: Setting, newline: string): string { s.name + "=" + s.value + newline }

  function Added(left: seq<Setting>, newline: string): (r: seq<string>)
    ensures |r| == |left| && forall i :: 0 <= i < |left| ==> r[i] == AddedLine(left[i], newline)
  {
    seq(|left|, i requires 0 <= i < |left| => AddedLine(left[i], newline))
  }

  /** The last line gets a line ending if it does not end with "\n". */
  function EndLast(lines: seq<string>, newline: string): seq<string> {
    if lines == [] then []
    else
      var init, last := lines[..|lines| - 1], lines[|lines| - 1];
      if last != "" && last[|last| - 1] == '\n' then lines else init + [last + newline]
  }

  /** The text `rewrite_env_values` writes. */
  function Rewrite(text: string, vs: seq<Setting>): string {
    var lines := SplitLines(text);
    var p := Place(RewriteLines(lines, vs), Missing(lines, vs));
    if p.left == [] then Concat(p.lines) else Concat(EndLast(p.lines, NewLine(text)) + Added(p.left, NewLine(text)))
  }

  // ---------------------------------------------------------------- settings that stand for themselves

  /** A text with "\r\n" in it gets that line ending, */
  lemma NewLineOf(a: string, b: string)
    ensures NewLine(a + "\r\n" + b) == "\r\n"
  {
    var text := a + "\r\n" + b;
    assert text[|a|] == '\r' && text[|a| + 1] == '\n';
  }

  /** and any other text "\n". */
  lemma NewLineFrom(text: string) returns (a: string, b: string)
    ensures NewLine(text) == "\n" || (NewLine(text) == "\r\n" && text == a + "\r\n" + b)
  {
    a, b := "", "";
    if NewLine(text) == "\r\n" {
      var i :| 0 <= i < |text| - 1 && text[i] == '\r' && text[i + 1] == '\n';
      a, b := text[..i], text[i + 2..];
      assert text == text[..i] + [text[i], text[i + 1]] + text[i + 2..];
    }
  }

  /** The names are names and all different, and the values stand for themselves. */
  predicate GoodSettings(vs: seq<Setting>) {
    && (forall i :: 0 <= i < |vs| ==> GoodName(vs[i].name) && GoodValue(vs[i].value))
    && (forall i, j :: 0 <= i < j < |vs| ==> vs[i].name != vs[j].name)
  }

  lemma {:induction false} ValueForIn(vs: seq<Setting>, i: nat)
    requires GoodSettings(vs) && i < |vs|
    ensures ValueFor(vs, vs[i].name) == Some(vs[i].value)
  {
    if i > 0 {
      assert GoodSettings(vs[1..]);
      ValueForIn(vs[1..], i - 1);
    }
  }

  lemma {:induction false} ValueForGood(vs: seq<Setting>, name: string) returns (i: nat)
    requires GoodSettings(vs) && ValueFor(vs, name).Some?
    ensures i < |vs| && vs[i] == Setting(name, ValueFor(vs, name).value)
    ensures GoodName(name) && GoodValue(ValueFor(vs, name).value)
  {
    hide GoodName, GoodValue;
    if vs[0].name == name {
      i := 0;
    } else {
      assert GoodSettings(vs[1..]);
      i := ValueForGood(vs[1..], name);
      i := i + 1;
    }
  }

  lemma GoodValueNoBreak(v: string)
    requires GoodValue(v)
    ensures NoBreak(v)
  {
  }

  // ---------------------------------------------------------------- one line

  /** The line's break is one that `Body` drops; an unusual one, as a form feed, stays in the body. */
  predicate PlainLine(l: string) { PlainBreak(l[|Bare(l)|..]) }

  /** What the body of a line assigns to is what the line reads as. */
  lemma {:induction false} AssignsAsRead(l: string)
    requires OneLine(l)
    ensures Parse(Body(l)).Some? <==> Reads(Bare(l)).Some?
    ensures Parse(Body(l)).Some? ==> Parse(Body(l)).value.name == Reads(Bare(l)).value.name
  {
    LineParts(l);
    if !PlainLine(l) {
      var x := l[|l| - 1];
      assert l == Bare(l) + [x];
      KeyBeforeSpace(Bare(l), x);
      hide FindKey, ValueEnd, SkipSpaces, BreakAt;
      var k := FindKey(l);
      if k.Some? {
        assert l[k.value.start..k.value.end] == Bare(l)[k.value.start..k.value.end];
      }
    }
  }

  /** Rewriting keeps the line apart from the next: the break is a plain one, or in a comment, or nothing follows. */
  predicate LineSafe(l: string, vs: seq<Setting>, last: bool) {
    Sets(l, vs) && !PlainLine(l) ==>
      var a := Parse(Body(l)).value;
      a.comment != "" || (last && a.value != "")
  }

  /** `m` may stand where `l` did. */
  ghost predicate Edit(l: string, m: string, vs: seq<Setting>, last: bool) {
    && OneLine(m) && (m[0] == '\n' ==> l != "" && l[0] == '\n')
    && (!last && l != "" && IsBreak(l[|l| - 1]) ==> IsBreak(m[|m| - 1]) && (m[|m| - 1] == '\r' ==> l[|l| - 1] == '\r'))
    && RewriteLine(m, vs) == m
    && SaysRight(l, m, vs)
  }

  /** `m` says of the names of `vs` nothing but their values, and of others what `l` said. */
  ghost predicate SaysRight(l: string, m: string, vs: seq<Setting>) {
    forall name ::
      if ValueFor(vs, name).Some? then Says(m, name).None? || Says(m, name) == ValueFor(vs, name)
      else Says(m, name) == Says(l, name)
  }

  /** A line put together from a head, a value, a comment and a plain break. */
  lemma BuiltPlain(head: string, name: string, v: string, c: string, e: string)
    requires IsHead(head, name) && GoodValue(v) && IsTail(c) && NoBreak(head) && NoBreak(c) && PlainBreak(e)
    ensures var m := head + v + c + e;
            && OneLine(m) && Parse(Body(m)) == Some(Assignment(name, head, v, c)) && Ending(m) == e
            && Reads(Bare(m)) == Some(Setting(name, v))
  {
    hide IsHead, IsTail, Parse, Reads, Body, Ending, OneLine, Bare;
    GoodValueNoBreak(v);
    Builds(head, name, v, c);
    BuildsReads(head, name, v, c);
    LineOf(head + v + c, e);
  }

  lemma ShorterTail(c: string)
    requires IsTail(c) && c != "" && IsBreak(c[|c| - 1])
    ensures IsTail(c[..|c| - 1])
  {
    var j, short := SkipSpaces(c, 0), c[..|c| - 1];
    assert c[j] == '#' && j < |short|;
    SkipSpacesIs(short, 0, j);
  }

  /** The same with an unusual break at the end of the comment. */
  lemma BuiltInComment(head: string, name: string, v: string, c: string)
    requires IsHead(head, name) && GoodValue(v) && IsTail(c) && NoBreak(head)
    requires c != "" && NoBreak(c[..|c| - 1]) && UnusualBreak(c[|c| - 1])
    ensures var m := head + v + c;
            && OneLine(m) && Parse(Body(m)) == Some(Assignment(name, head, v, c)) && Ending(m) == ""
            && Reads(Bare(m)) == Some(Setting(name, v))
  {
    hide IsHead, IsTail, Parse, Reads, OneLine, Body, Ending, Bare, NoBreak;
    var short, x := c[..|c| - 1], c[|c| - 1];
    ShorterTail(c);
    GoodValueNoBreak(v);
    Builds(head, name, v, c);
    BuildsReads(head, name, v, short);
    NoBreakConcat(head, v);
    NoBreakConcat(head + v, short);
    LineOfUnusual(head + v + short, x);
    assert head + v + c == head + v + short + [x] by {
      assert c == short + [x];
    }
  }

  lemma BuiltStays(m: string, name: string, head: string, v: string, c: string, vs: seq<Setting>)
    requires Parse(Body(m)) == Some(Assignment(name, head, v, c)) && ValueFor(vs, name) == Some(v) &&
             m == head + v + c + Ending(m)
    ensures RewriteLine(m, vs) == m
  {
    hide Parse, Body, Ending, ValueFor;
  }

  lemma BuiltSays(l: string, m: string, name: string, v: string, vs: seq<Setting>)
    requires Reads(Bare(m)) == Some(Setting(name, v)) && ValueFor(vs, name) == Some(v)
    requires Reads(Bare(l)).Some? ==> Reads(Bare(l)).value.name == name
    ensures SaysRight(l, m, vs) && Says(m, name) == Some(v)
  {
    hide Reads, Bare, ValueFor;
  }

  /** A line that assigns to none of the names stays, and may. */
  lemma UnchangedEdit(l: string, vs: seq<Setting>, last: bool)
    requires OneLine(l) && !Sets(l, vs)
    ensures Edit(l, l, vs, last)
  {
    AssignsAsRead(l);
    hide Parse, Reads, Bare, Body, FindKey, OneLine, ValueFor;
    forall name | ValueFor(vs, name).Some? ensures Says(l, name).None? {
    }
  }

  /** Where the break of a body that ends with one is among its parts. */
  lemma BreakInParts(bare: string, x: char, head: string, value: string, comment: string)
    requires NoBreak(bare) && bare + [x] == head + value + comment
    ensures comment != "" ==> NoBreak(head) && NoBreak(comment[..|comment| - 1]) && comment[|comment| - 1] == x
    ensures comment == "" && value != "" ==> NoBreak(head)
  {
    var body := bare + [x];
    assert forall i :: 0 <= i < |head| ==> head[i] == body[i];
    assert forall i :: 0 <= i < |comment| ==> comment[i] == body[|head| + |value| + i];
  }

  /** The parts of a line that assigns. */
  lemma LineOfParts(l: string)
    requires OneLine(l) && Parse(Body(l)).Some?
    ensures var a := Parse(Body(l)).value;
            l == a.head + a.value + a.comment + Ending(l) && IsHead(a.head, a.name) && IsTail(a.comment) && a.head != ""
  {
    hide Parse, IsTail, OneLine;
    ParseParts(Body(l));
    assert l == Body(l) + Ending(l);
  }

  /** Where the break of a line that assigns is. */
  lemma BreakOfParts(l: string)
    requires OneLine(l) && Parse(Body(l)).Some?
    ensures var a := Parse(Body(l)).value;
            if PlainLine(l) then NoBreak(a.head) && NoBreak(a.comment) && PlainBreak(Ending(l))
            else
              && Ending(l) == ""
              && (a.comment != "" ==>
                    NoBreak(a.head) && NoBreak(a.comment[..|a.comment| - 1])
                    && UnusualBreak(a.comment[|a.comment| - 1]))
              && (a.comment == "" && a.value != "" ==> NoBreak(a.head))
  {
    hide Parse, IsTail, OneLine, NoBreak, Bare, Body;
    ParseParts(Body(l));
    LineParts(l);
    var a := Parse(Body(l)).value;
    if PlainLine(l) {
      NoBreakConcat(a.head + a.value, a.comment);
      NoBreakConcat(a.head, a.value);
    } else {
      assert l == Bare(l) + [l[|l| - 1]] by { BareThenBreak(l); }
      BreakInParts(Bare(l), l[|l| - 1], a.head, a.value, a.comment);
    }
  }

  lemma BareThenBreak(l: string)
    requires |l| == |Bare(l)| + 1
    ensures l == Bare(l) + [l[|l| - 1]]
  {
  }

  lemma ParseHasKey(t: string)
    ensures Parse(t).Some? <==> FindKey(t).Some?
  {
    hide FindKey, ValueEnd;
  }

  lemma PlainEnds(l: string)
    requires OneLine(l) && PlainLine(l) && Ending(l) == ""
    ensures !IsBreak(l[|l| - 1])
  {
    LineParts(l);
    assert l == Bare(l);
  }

  /** A line rewritten safely may stand where it did, and says the new value. */
  lemma RewriteLineEdit(l: string, vs: seq<Setting>, last: bool)
    requires OneLine(l) && GoodSettings(vs) && Sets(l, vs) && LineSafe(l, vs, last)
    ensures Edit(l, RewriteLine(l, vs), vs, last)
    ensures var n := Parse(Body(l)).value.name; Says(RewriteLine(l, vs), n) == ValueFor(vs, n)
  {
    hide Parse, Body, Ending, OneLine, Bare, Reads, GoodValue, GoodSettings, PlainLine, ValueFor, IsHead, IsTail;
    hide IsBreak, FindKey;
    var a := Parse(Body(l)).value;
    var v := ValueFor(vs, a.name).value;
    var m := RewriteLine(l, vs);
    var _ := ValueForGood(vs, a.name);
    LineOfParts(l);
    BreakOfParts(l);
    assert m == a.head + v + a.comment + Ending(l);
    if PlainLine(l) {
      BuiltPlain(a.head, a.name, v, a.comment, Ending(l));
      if Ending(l) == "" {
        PlainEnds(l);
      }
    } else if a.comment != "" {
      BuiltInComment(a.head, a.name, v, a.comment);
      assert m == a.head + v + a.comment;
    } else {
      BuiltPlain(a.head, a.name, v, "", "");
      assert m == a.head + v + "" + "";
    }
    BuiltStays(m, a.name, a.head, v, a.comment, vs);
    AssignsAsRead(l);
    BuiltSays(l, m, a.name, v, vs);
    ParseHasKey(Body(m));
    hide Says, SaysRight, RewriteLine;
  }

  lemma NotOneLine(head: string, v: string)
    requires head != "" && v != "" && UnusualBreak(head[|head| - 1])
    ensures !OneLine(head + v)
  {
    var m, i := head + v, BreakAt(head + v);
    assert m[|head| - 1] == head[|head| - 1];
    assert i <= |head| - 1;
  }

  lemma EditEnds(l: string, m: string, vs: seq<Setting>, last: bool, next: string)
    requires l != "" && Edit(l, m, vs, last) && (next != "" ==> !last && EndsBefore(l, next))
    ensures OneLine(m) && (next != "" ==> EndsBefore(m, next))
  {
    hide RewriteLine, SaysRight, FindKey, IsBreak, Body;
  }

  /** An unsafe line loses its break, or keeps it before its value. */
  lemma UnsafeRunsOn(l: string, vs: seq<Setting>, last: bool)
    requires OneLine(l) && GoodSettings(vs) && Sets(l, vs) && !LineSafe(l, vs, last)
    ensures var m := RewriteLine(l, vs); !OneLine(m) || (!last && m != "" && !IsBreak(m[|m| - 1]))
  {
    hide Parse, Body, Ending, OneLine, Bare, GoodSettings, PlainLine, ValueFor, IsHead, IsTail, IsBreak;
    var a := Parse(Body(l)).value;
    var v := ValueFor(vs, a.name).value;
    var _ := ValueForGood(vs, a.name);
    LineOfParts(l);
    BreakOfParts(l);
    UnusualEnd(l);
    assert RewriteLine(l, vs) == a.head + v;
    GoodValueNoBreak(v);
    if a.value == "" {
      assert l == a.head;
      NotOneLine(a.head, v);
    } else {
      assert (a.head + v)[|a.head + v| - 1] == v[|v| - 1];
    }
  }

  /** One line rewritten is still one line, and ends before the next one, exactly if that is safe. */
  lemma RewriteKeepsApart(l: string, vs: seq<Setting>, next: string)
    requires OneLine(l) && GoodSettings(vs) && (next != "" ==> EndsBefore(l, next))
    ensures var m := RewriteLine(l, vs);
            OneLine(m) && (next != "" ==> EndsBefore(m, next)) <==> LineSafe(l, vs, next == "")
  {
    hide OneLine, GoodSettings, Edit, IsBreak;
    if Sets(l, vs) {
      if LineSafe(l, vs, next == "") {
        RewriteLineEdit(l, vs, next == "");
        assert l != "" by { OneLineSome(l); }
        hide LineSafe, Sets, RewriteLine, EndsBefore;
        EditEnds(l, RewriteLine(l, vs), vs, next == "", next);
      } else {
        hide LineSafe, Sets, RewriteLine;
        UnsafeRunsOn(l, vs, next == "");
      }
    }
  }

  lemma OneLineSome(l: string)
    requires OneLine(l)
    ensures l != ""
  {
  }

  lemma UnusualEnd(l: string)
    requires OneLine(l) && !PlainLine(l)
    ensures UnusualBreak(l[|l| - 1])
  {
    LineParts(l);
    assert l[|Bare(l)|..] == [l[|l| - 1]];
  }

  lemma PlaceholderSilent(l: string, name: string)
    requires OneLine(l) && IsPlaceholder(Body(l), name)
    ensures Parse(Body(l)).None? && Reads(Bare(l)).None?
  {
    hide IsPlaceholder, Parse, Reads;
    PlaceholderReadsNothing(Body(l), name);
    ParseHasKey(Body(l));
    AssignsAsRead(l);
  }

  /** A setting that takes its placeholder's place. */
  lemma PlacedEdit(l: string, s: Setting, vs: seq<Setting>, last: bool)
    requires OneLine(l) && GoodSettings(vs) && ValueFor(vs, s.name) == Some(s.value)
    requires IsPlaceholder(Body(l), s.name) && (last || PlainLine(l))
    ensures Edit(l, PlacedLine(l, s), vs, last) && Says(PlacedLine(l, s), s.name) == Some(s.value)
  {
    hide Parse, Body, OneLine, Bare, Reads, GoodValue, GoodSettings, ValueFor, IsHead, IsTail, IsPlaceholder, IsBreak;
    hide FindKey;
    var _ := ValueForGood(vs, s.name);
    PlaceholderSilent(l, s.name);
    LineParts(l);
    var head, m := s.name + "=", PlacedLine(l, s);
    NameIsHead(s.name);
    assert IsTail("") && NoBreak("") && NoBreak(head) by { NoBreakInHead(s.name); }
    BuiltPlain(head, s.name, s.value, "", Ending(l));
    assert m == head + s.value + "" + Ending(l);
    if Ending(l) == "" && PlainLine(l) {
      PlainEnds(l);
    }
    BuiltStays(m, s.name, head, s.value, "", vs);
    BuiltSays(l, m, s.name, s.value, vs);
    ParseHasKey(Body(m));
    hide Says, SaysRight, RewriteLine;
  }

  lemma NoBreakInHead(name: string)
    requires GoodName(name)
    ensures IsTail("") && NoBreak("") && NoBreak(name + "=")
  {
  }

  // ---------------------------------------------------------------- all lines

  /** Every line may stand where the old one did. */
  ghost predicate Edits(ls: seq<string>, ms: seq<string>, vs: seq<Setting>) {
    |ls| == |ms| && forall i :: 0 <= i < |ls| ==> Edit(ls[i], ms[i], vs, i == |ls| - 1)
  }

  /** The setting whose first placeholder line `i` is. */
  function Taker(ls: seq<string>, settings: seq<Setting>, i: nat): (t: Option<Setting>)
    ensures t.Some? ==> t.value in settings && FirstPlaceholder(ls, t.value.name) == i
    ensures t.None? ==> forall s :: s in settings ==> FirstPlaceholder(ls, s.name) != i
  {
    if settings == [] then None
    else
      var s := settings[|settings| - 1];
      if FirstPlaceholder(ls, s.name) == i then Some(s) else Taker(ls, settings[..|settings| - 1], i)
  }

  /** A placeholder that a setting takes loses an unusual break, which matters unless it is the last line. */
  predicate PlaceholderSafe(ls: seq<string>, vs: seq<Setting>, i: nat)
    requires i < |ls|
  {
    i < |ls| - 1 && !PlainLine(ls[i]) ==> Taker(ls, Missing(ls, vs), i).None?
  }

  /** Rewriting keeps every line apart from the next. */
  predicate Safe(ls: seq<string>, vs: seq<Setting>) {
    forall i :: 0 <= i < |ls| ==> LineSafe(ls[i], vs, i == |ls| - 1) && PlaceholderSafe(ls, vs, i)
  }

  predicate OneLines(ls: seq<string>) { forall i :: 0 <= i < |ls| ==> OneLine(ls[i]) }

  lemma {:induction false} ProperOneLines(ls: seq<string>)
    requires Proper(ls)
    ensures OneLines(ls)
  {
    if ls != [] {
      ProperOneLines(ls[1..]);
      assert forall i :: 0 < i < |ls| ==> ls[i] == ls[1..][i - 1];
    }
  }

  lemma {:induction false} ProperEdits(ls: seq<string>, ms: seq<string>, vs: seq<Setting>)
    requires Proper(ls) && Edits(ls, ms, vs)
    ensures Proper(ms)
  {
    if ls != [] {
      hide Edit, EndsBefore, OneLine;
      assert Edit(ls[0], ms[0], vs, |ls| == 1);
      assert Edits(ls[1..], ms[1..], vs) by {
        assert forall i :: 0 <= i < |ls| - 1 ==> ls[1..][i] == ls[i + 1] && ms[1..][i] == ms[i + 1];
      }
      ProperEdits(ls[1..], ms[1..], vs);
      OneLineSome(ls[0]);
      if |ls| == 1 {
        EditEnds(ls[0], ms[0], vs, true, "");
      } else {
        assert Edit(ls[1], ms[1], vs, |ls| == 2);
        EditsInOrder(ls[0], ms[0], ls[1], ms[1], vs, |ls| == 2);
      }
    }
  }

  lemma EditsInOrder(l: string, m: string, next: string, mext: string, vs: seq<Setting>, last: bool)
    requires l != "" && EndsBefore(l, next) && Edit(l, m, vs, false) && Edit(next, mext, vs, last)
    ensures OneLine(m) && EndsBefore(m, mext)
  {
    hide RewriteLine, SaysRight, FindKey, IsBreak, Body;
  }

  lemma StaysUnset(l: string, vs: seq<Setting>)
    requires !Sets(l, vs)
    ensures RewriteLine(l, vs) == l
  {
  }

  // ---------------------------------------------------------------- the edited lines, one by one

  /** A text that begins with a head and a value assigns to the head's name. */
  lemma BuiltHasKey(head: string, name: string, v: string, rest: string)
    requires IsHead(head, name) && GoodValue(v)
    ensures FindKey(Body(head + v + rest)).Some?
  {
    hide FindKey;
    var m, n := head + v + rest, |head| + |v|;
    assert m[n - 1] == v[|v| - 1] && !IsBreak(m[n - 1]);
    BodyKeeps(m, n);
    var body := Body(m);
    assert forall i :: 0 <= i < |head| ==> body[i] == m[i] == head[i];
    KeyLocal(head, body, |head|);
  }

  lemma {:induction false} BodyKeeps(l: string, n: nat)
    requires 0 < n <= |l| && !IsBreak(l[n - 1])
    ensures n <= |Body(l)|
  {
    if n < |l| {
      BodyKeeps(l[..|l| - 1], n);
    }
  }

  lemma RewrittenHasKey(l: string, vs: seq<Setting>)
    requires OneLine(l) && GoodSettings(vs) && Sets(l, vs)
    ensures FindKey(Body(RewriteLine(l, vs))).Some?
  {
    hide Parse, Body, Ending, OneLine, GoodValue, GoodSettings, ValueFor, IsHead, IsTail, FindKey;
    var a := Parse(Body(l)).value;
    var v := ValueFor(vs, a.name).value;
    var _ := ValueForGood(vs, a.name);
    LineOfParts(l);
    assert RewriteLine(l, vs) == a.head + v + (a.comment + Ending(l));
    BuiltHasKey(a.head, a.name, v, a.comment + Ending(l));
  }

  lemma NoKeyedPlaceholder(body: string, name: string)
    requires FindKey(body).Some?
    ensures !IsPlaceholder(body, name)
  {
    hide FindKey, IsPlaceholder;
    if IsPlaceholder(body, name) {
      PlaceholderReadsNothing(body, name);
    }
  }

  /** The first stage makes no placeholder and takes none away. */
  lemma SamePlaceholder(l: string, vs: seq<Setting>, name: string)
    requires OneLine(l) && GoodSettings(vs)
    ensures IsPlaceholder(Body(RewriteLine(l, vs)), name) <==> IsPlaceholder(Body(l), name)
  {
    hide IsPlaceholder, FindKey, OneLine, GoodSettings, RewriteLine;
    if Sets(l, vs) {
      ParseHasKey(Body(l));
      RewrittenHasKey(l, vs);
      NoKeyedPlaceholder(Body(l), name);
      NoKeyedPlaceholder(Body(RewriteLine(l, vs)), name);
    } else {
      StaysUnset(l, vs);
    }
  }

  lemma PlacedHasKey(l: string, s: Setting)
    requires GoodName(s.name) && GoodValue(s.value)
    ensures FindKey(Body(PlacedLine(l, s))).Some?
  {
    NameIsHead(s.name);
    BuiltHasKey(s.name + "=", s.name, s.value, Ending(l));
    assert PlacedLine(l, s) == s.name + "=" + s.value + Ending(l);
  }

  lemma FirstPlaceholderIs(ls: seq<string>, ms: seq<string>, name: string)
    requires |ls| == |ms|
    requires forall i :: 0 <= i < |ls| ==> (IsPlaceholder(Body(ms[i]), name) <==> IsPlaceholder(Body(ls[i]), name))
    ensures FirstPlaceholder(ms, name) == FirstPlaceholder(ls, name)
  {
    hide IsPlaceholder, Body;
    var f, g := FirstPlaceholder(ls, name), FirstPlaceholder(ms, name);
    assert f < |ls| ==> IsPlaceholder(Body(ms[f]), name);
    assert g < |ms| ==> IsPlaceholder(Body(ls[g]), name);
  }

  /** What the second stage makes of line `i`. */
  function TakenLine(ls: seq<string>, settings: seq<Setting>, i: nat): string
    requires i < |ls|
  {
    var t := Taker(ls, settings, i);
    if t.Some? then PlacedLine(ls[i], t.value) else ls[i]
  }

  /** Only the line that was a placeholder of a name can have been one before another setting took it. */
  lemma TakenPlaceholder(ls: seq<string>, settings: seq<Setting>, i: nat, s: Setting)
    requires i < |ls| && GoodSettings(settings) && GoodName(s.name)
    requires forall t :: t in settings ==> t.name != s.name
    ensures IsPlaceholder(Body(TakenLine(ls, settings, i)), s.name) <==> IsPlaceholder(Body(ls[i]), s.name)
    ensures IsPlaceholder(Body(ls[i]), s.name) ==> Taker(ls, settings, i).None?
  {
    hide IsPlaceholder, Body, GoodName, GoodValue, FindKey, PlacedLine;
    var t := Taker(ls, settings, i);
    if t.Some? {
      GoodMember(settings, t.value);
      PlacedHasKey(ls[i], t.value);
      NoKeyedPlaceholder(Body(PlacedLine(ls[i], t.value)), s.name);
      if IsPlaceholder(Body(ls[i]), s.name) {
        PlaceholderOnce(Body(ls[i]), s.name, t.value.name);
      }
    }
  }

  lemma GoodMember(vs: seq<Setting>, s: Setting)
    requires GoodSettings(vs) && s in vs
    ensures GoodName(s.name) && GoodValue(s.value) && ValueFor(vs, s.name) == Some(s.value)
  {
    hide GoodName, GoodValue, ValueFor;
    var i :| 0 <= i < |vs| && vs[i] == s;
    ValueForIn(vs, i);
  }

  lemma GoodInit(vs: seq<Setting>)
    requires vs != [] && GoodSettings(vs)
    ensures GoodSettings(vs[..|vs| - 1])
    ensures GoodName(vs[|vs| - 1].name) && forall t :: t in vs[..|vs| - 1] ==> t.name != vs[|vs| - 1].name
  {
    hide GoodName, GoodValue;
  }

  /** The second stage, line by line: the first placeholder of each name is taken, and a setting without one is left. */
  lemma {:induction false} PlaceIs(ls: seq<string>, settings: seq<Setting>)
    requires GoodSettings(settings)
    ensures var p := Place(ls, settings);
            && |p.lines| == |ls|
            && (forall i :: 0 <= i < |ls| ==> p.lines[i] == TakenLine(ls, settings, i))
            && (forall s :: s in p.left <==> s in settings && FirstPlaceholder(ls, s.name) == |ls|)
  {
    hide IsPlaceholder, Body, PlacedLine, GoodSettings, GoodName;
    if settings != [] {
      var init, s := settings[..|settings| - 1], settings[|settings| - 1];
      GoodInit(settings);
      PlaceIs(ls, init);
      var p := Place(ls, init);
      forall i | 0 <= i < |ls|
        ensures IsPlaceholder(Body(p.lines[i]), s.name) <==> IsPlaceholder(Body(ls[i]), s.name)
        ensures IsPlaceholder(Body(ls[i]), s.name) ==> Taker(ls, init, i).None?
      {
        TakenPlaceholder(ls, init, i, s);
      }
      FirstPlaceholderIs(ls, p.lines, s.name);
      assert settings == init + [s];
      hide FirstPlaceholder;
    }
  }

  lemma {:induction false} MissingAre(ls: seq<string>, vs: seq<Setting>)
    ensures forall s :: s in Missing(ls, vs) <==> s in vs && !SomeAssigns(ls, s.name)
  {
    hide SomeAssigns;
    if vs != [] {
      var init, s := vs[..|vs| - 1], vs[|vs| - 1];
      MissingAre(ls, init);
      assert vs == init + [s];
    }
  }

  lemma {:induction false} MissingGood(ls: seq<string>, vs: seq<Setting>)
    requires GoodSettings(vs)
    ensures GoodSettings(Missing(ls, vs))
  {
    hide SomeAssigns, GoodName, GoodValue;
    if vs != [] {
      var init, s := vs[..|vs| - 1], vs[|vs| - 1];
      GoodInit(vs);
      MissingGood(ls, init);
      MissingAre(ls, init);
      var m := Missing(ls, init);
      assert forall i :: 0 <= i < |m| ==> m[i] in m;
    }
  }

  /** What the rewrite makes of line `i`. */
  function EditedLine(ls: seq<string>, vs: seq<Setting>, i: nat): string
    requires i < |ls|
  {
    var t := Taker(ls, Missing(ls, vs), i);
    if t.Some? then PlacedLine(ls[i], t.value) else RewriteLine(ls[i], vs)
  }

  lemma {:induction false} TakerSame(ls: seq<string>, ms: seq<string>, settings: seq<Setting>, i: nat)
    requires forall s :: s in settings ==> FirstPlaceholder(ms, s.name) == FirstPlaceholder(ls, s.name)
    ensures Taker(ms, settings, i) == Taker(ls, settings, i)
  {
    hide FirstPlaceholder;
    if settings != [] {
      TakerSame(ls, ms, settings[..|settings| - 1], i);
    }
  }

  lemma TakenIsUnset(l: string, vs: seq<Setting>, name: string)
    requires IsPlaceholder(Body(l), name)
    ensures RewriteLine(l, vs) == l && !Sets(l, vs)
  {
    hide IsPlaceholder, FindKey;
    PlaceholderReadsNothing(Body(l), name);
    ParseHasKey(Body(l));
    StaysUnset(l, vs);
  }

  /** Both stages, line by line. */
  lemma EditedAre(ls: seq<string>, vs: seq<Setting>)
    requires OneLines(ls) && GoodSettings(vs)
    ensures var p := Place(RewriteLines(ls, vs), Missing(ls, vs));
            && |p.lines| == |ls|
            && (forall i :: 0 <= i < |ls| ==> p.lines[i] == EditedLine(ls, vs, i))
            && (forall s :: s in p.left <==>
                            s in vs && !SomeAssigns(ls, s.name) && FirstPlaceholder(ls, s.name) == |ls|)
  {
    hide IsPlaceholder, Body, PlacedLine, GoodSettings, OneLine, RewriteLine, SomeAssigns, Place;
    var ms, settings := RewriteLines(ls, vs), Missing(ls, vs);
    MissingGood(ls, vs);
    MissingAre(ls, vs);
    PlaceIs(ms, settings);
    forall s: Setting ensures FirstPlaceholder(ms, s.name) == FirstPlaceholder(ls, s.name) {
      forall i | 0 <= i < |ls| ensures IsPlaceholder(Body(ms[i]), s.name) <==> IsPlaceholder(Body(ls[i]), s.name) {
        SamePlaceholder(ls[i], vs, s.name);
      }
      FirstPlaceholderIs(ls, ms, s.name);
    }
    hide Missing;
    forall i | 0 <= i < |ls| ensures TakenLine(ms, settings, i) == EditedLine(ls, vs, i) {
      TakerSame(ls, ms, settings, i);
      var t := Taker(ls, settings, i);
      if t.Some? {
        TakenIsUnset(ls[i], vs, t.value.name);
      }
    }
  }

  /** Edited safely, every line may stand where it did. */
  lemma EditedLineOk(ls: seq<string>, vs: seq<Setting>, i: nat)
    requires OneLines(ls) && GoodSettings(vs) && i < |ls|
    requires LineSafe(ls[i], vs, i == |ls| - 1) && PlaceholderSafe(ls, vs, i)
    ensures Edit(ls[i], EditedLine(ls, vs, i), vs, i == |ls| - 1)
  {
    hide Edit, GoodSettings, LineSafe, OneLine, Sets, PlacedLine, PlainLine, IsPlaceholder, Body, RewriteLine;
    var t := Taker(ls, Missing(ls, vs), i);
    if t.Some? {
      MissingAre(ls, vs);
      GoodMember(vs, t.value);
      PlacedEdit(ls[i], t.value, vs, i == |ls| - 1);
    } else if Sets(ls[i], vs) {
      RewriteLineEdit(ls[i], vs, i == |ls| - 1);
    } else {
      UnchangedEdit(ls[i], vs, i == |ls| - 1);
      StaysUnset(ls[i], vs);
    }
  }

  predicate From(settings: seq<Setting>, vs: seq<Setting>) {
    forall i :: 0 <= i < |settings| ==> settings[i] in vs
  }

  // ---------------------------------------------------------------- every name gets its value

  predicate Holds(ms: seq<string>, s: Setting) { exists i :: 0 <= i < |ms| && Says(ms[i], s.name) == Some(s.value) }

  /** A line says the setting, or the setting is still to be added. */
  predicate Covered(p: Placed, s: Setting) { Holds(p.lines, s) || s in p.left }

  lemma AssignedSays(ls: seq<string>, vs: seq<Setting>, s: Setting, i: nat)
    requires OneLines(ls) && GoodSettings(vs) && s in vs && i < |ls| && Assigns(ls[i], s.name)
    requires LineSafe(ls[i], vs, i == |ls| - 1)
    ensures Says(EditedLine(ls, vs, i), s.name) == Some(s.value)
  {
    hide GoodSettings, LineSafe, OneLine, PlacedLine, IsPlaceholder, Body, RewriteLine, Says, Parse, Missing;
    GoodMember(vs, s);
    assert Sets(ls[i], vs);
    RewriteLineEdit(ls[i], vs, i == |ls| - 1);
    var t := Taker(ls, Missing(ls, vs), i);
    if t.Some? {
      TakenIsUnset(ls[i], vs, t.value.name);
    }
  }

  lemma TakenSays(ls: seq<string>, vs: seq<Setting>, s: Setting)
    requires OneLines(ls) && GoodSettings(vs) && s in Missing(ls, vs) && FirstPlaceholder(ls, s.name) < |ls|
    requires PlaceholderSafe(ls, vs, FirstPlaceholder(ls, s.name))
    ensures Says(EditedLine(ls, vs, FirstPlaceholder(ls, s.name)), s.name) == Some(s.value)
  {
    hide GoodSettings, OneLine, PlacedLine, PlainLine, IsPlaceholder, Body, Says, SomeAssigns, GoodName, GoodValue;
    var i := FirstPlaceholder(ls, s.name);
    MissingAre(ls, vs);
    GoodMember(vs, s);
    var t := Taker(ls, Missing(ls, vs), i).value;
    GoodMember(vs, t);
    PlaceholderOnce(Body(ls[i]), s.name, t.name);
    assert t == s;
    PlacedEdit(ls[i], s, vs, i == |ls| - 1);
  }

  /** Every setting is said by a line, or is added at the end. */
  lemma AllCovered(ls: seq<string>, vs: seq<Setting>, s: Setting)
    requires OneLines(ls) && GoodSettings(vs) && Safe(ls, vs) && s in vs
    ensures Covered(Place(RewriteLines(ls, vs), Missing(ls, vs)), s)
  {
    hide OneLine, GoodSettings, LineSafe, PlaceholderSafe, Says, Assigns, Place, EditedLine, FirstPlaceholder;
    EditedAre(ls, vs);
    MissingAre(ls, vs);
    var p := Place(RewriteLines(ls, vs), Missing(ls, vs));
    hide Missing;
    if SomeAssigns(ls, s.name) {
      var i :| 0 <= i < |ls| && Assigns(ls[i], s.name);
      AssignedSays(ls, vs, s, i);
      assert Says(p.lines[i], s.name) == Some(s.value);
    } else {
      FirstWithin(ls, s.name);
      var i := FirstPlaceholder(ls, s.name);
      if i < |ls| {
        TakenSays(ls, vs, s);
        assert Says(p.lines[i], s.name) == Some(s.value);
      }
    }
  }

  lemma FirstWithin(ls: seq<string>, name: string)
    ensures FirstPlaceholder(ls, name) <= |ls|
  {
  }

  // ---------------------------------------------------------------- the end of the file

  /** `m` is one line that says nothing of the names of `vs` but their values, and that rewriting leaves alone. */
  ghost predicate Settled(m: string, vs: seq<Setting>) { OneLine(m) && RewriteLine(m, vs) == m && SaysOnly(m, vs) }

  ghost predicate SaysOnly(m: string, vs: seq<Setting>) {
    forall name :: ValueFor(vs, name).Some? ==> Says(m, name).None? || Says(m, name) == ValueFor(vs, name)
  }

  lemma EditSettled(l: string, m: string, vs: seq<Setting>, last: bool)
    requires Edit(l, m, vs, last)
    ensures Settled(m, vs)
    ensures forall name :: ValueFor(vs, name).None? ==> Says(m, name) == Says(l, name)
  {
    hide RewriteLine, OneLine, Says, ValueFor, FindKey;
  }

  lemma AddedSettled(s: Setting, vs: seq<Setting>, newline: string)
    requires GoodSettings(vs) && ValueFor(vs, s.name) == Some(s.value) && (newline == "\n" || newline == "\r\n")
    ensures var m := AddedLine(s, newline);
            && m != "" && Settled(m, vs) && Reads(Bare(m)) == Some(s) && m[|m| - 1] == '\n' && m[0] != '\n'
  {
    hide Parse, Body, OneLine, Bare, Reads, GoodValue, GoodSettings, ValueFor, IsHead, IsTail, Ending;
    var _ := ValueForGood(vs, s.name);
    var head, m := s.name + "=", AddedLine(s, newline);
    NameIsHead(s.name);
    NoBreakInHead(s.name);
    BuiltPlain(head, s.name, s.value, "", newline);
    assert m == head + s.value + "" + newline;
    BuiltStays(m, s.name, head, s.value, "", vs);
    BuiltSays(m, m, s.name, s.value, vs);
    hide RewriteLine;
    SaysItself(m, s, vs);
  }

  lemma SaysItself(m: string, s: Setting, vs: seq<Setting>)
    requires Reads(Bare(m)) == Some(s) && ValueFor(vs, s.name) == Some(s.value)
    ensures SaysOnly(m, vs)
  {
    hide Reads, Bare, ValueFor;
  }

  /** The last line and the line ending it gets; a break that the ending does not complete leaves an empty line. */
  function Sealed(m: string, newline: string): seq<string>
    requires m != ""
  {
    var x := m[|m| - 1];
    if x == '\n' then [m]
    else if !IsBreak(x) || (x == '\r' && newline == "\n") then [m + newline]
    else [m, newline]
  }

  lemma EmptyLine(newline: string, vs: seq<Setting>)
    requires newline == "\n" || newline == "\r\n"
    ensures Settled(newline, vs) && Reads(Bare(newline)).None?
  {
    assert "" + newline == newline;
    LineOf("", newline);
    assert FindKey("").None?;
    ParseHasKey("");
    hide FindKey, Parse, OneLine, Bare, Body;
    StaysUnset(newline, vs);
    SilentSays(newline, vs);
  }

  lemma SilentSays(m: string, vs: seq<Setting>)
    requires Reads(Bare(m)).None?
    ensures SaysOnly(m, vs) && forall name :: Says(m, name).None?
  {
    hide Reads, Bare;
  }

  /** A plain line that gets another plain break reads and rewrites as before. */
  lemma NewBreak(bare: string, e: string, f: string, vs: seq<Setting>)
    requires NoBreak(bare) && PlainBreak(e) && PlainBreak(f) && bare + e != "" && f != "" && Settled(bare + e, vs)
    ensures Settled(bare + f, vs) && forall name :: Says(bare + f, name) == Says(bare + e, name)
  {
    LineOf(bare, e);
    LineOf(bare, f);
    var l, m := bare + e, bare + f;
    hide Parse, Reads, OneLine, Bare, Body, Ending, ValueFor;
    assert Parse(Body(m)) == Parse(Body(l));
    if Sets(l, vs) {
      var a := Parse(bare).value;
      var text := a.head + ValueFor(vs, a.name).value + a.comment;
      assert text + e == bare + e;
      assert text == (text + e)[..|bare|] == (bare + e)[..|bare|] == bare;
    }
    SaysByText(l, m, vs);
  }

  lemma SaysByText(l: string, m: string, vs: seq<Setting>)
    requires Bare(l) == Bare(m) && SaysOnly(l, vs)
    ensures SaysOnly(m, vs) && forall name :: Says(m, name) == Says(l, name)
  {
    hide Reads, Bare, ValueFor;
    forall name ensures Says(m, name) == Says(l, name) {
    }
    hide Says;
  }

  lemma LastLine(m: string)
    requires OneLine(m)
    ensures Proper([m]) && Concat([m]) == m
  {
    assert Concat([m]) == m + "";
  }

  lemma TwoLines(m: string, n: string)
    requires OneLine(m) && OneLine(n) && EndsBefore(m, n)
    ensures Proper([m, n]) && Concat([m, n]) == m + n
  {
    LastLine(n);
    assert [m, n][1..] == [n];
  }

  lemma SealedSettled(m: string, newline: string, vs: seq<Setting>)
    requires Settled(m, vs) && m != "" && (newline == "\n" || newline == "\r\n")
    ensures var r := Sealed(m, newline);
            && Settled(r[0], vs) && (|r| == 2 ==> Settled(r[1], vs)) && Proper(r)
            && (forall name :: Says(r[0], name) == Says(m, name) && (|r| == 2 ==> Says(r[1], name).None?))
            && r[0][0] == m[0] && r[|r| - 1][|r[|r| - 1]| - 1] == '\n'
            && Concat(r) == if m[|m| - 1] == '\n' then m else m + newline
  {
    var x := m[|m| - 1];
    LineParts(m);
    hide RewriteLine, SaysOnly, Says, Body, Reads, FindKey, Parse, Proper, Concat, OneLine;
    if x == '\n' {
      LastLine(m);
    } else if !IsBreak(x) {
      assert m == Bare(m) + "";
      NewBreak(Bare(m), "", newline, vs);
      LastLine(m + newline);
    } else if x == '\r' && newline == "\n" {
      assert m == Bare(m) + "\r";
      assert m + newline == Bare(m) + "\r\n";
      NewBreak(Bare(m), "\r", "\r\n", vs);
      LastLine(m + newline);
    } else {
      EmptyLine(newline, vs);
      SilentSays(newline, vs);
      TwoLines(m, newline);
    }
  }

  ghost predicate AllSettled(ms: seq<string>, vs: seq<Setting>) { forall i :: 0 <= i < |ms| ==> Settled(ms[i], vs) }

  lemma {:induction false} AllEndProper(ms: seq<string>)
    requires OneLines(ms) && forall i :: 0 <= i < |ms| ==> ms[i] != "" && ms[i][|ms[i]| - 1] == '\n'
    ensures Proper(ms)
  {
    hide OneLine, EndsBefore;
    if ms != [] {
      assert forall i :: 0 <= i < |ms| - 1 ==> ms[1..][i] == ms[i + 1];
      AllEndProper(ms[1..]);
      if |ms| > 1 {
        EndsWithNewline(ms[0], ms[1]);
      }
    }
  }

  lemma {:induction false} LookupNothing(ms: seq<string>, name: string)
    requires forall i :: 0 <= i < |ms| ==> Says(ms[i], name).None?
    ensures Lookup(ms, name).None?
  {
    hide Says;
    if ms != [] {
      LookupNothing(ms[..|ms| - 1], name);
    }
  }

  lemma FromIs(settings: seq<Setting>, vs: seq<Setting>, i: nat)
    requires GoodSettings(vs) && From(settings, vs) && i < |settings|
    ensures ValueFor(vs, settings[i].name) == Some(settings[i].value)
  {
    hide GoodSettings, ValueFor;
    var s := settings[i];
    assert s in vs;
    var j :| 0 <= j < |vs| && vs[j] == s;
    ValueForIn(vs, j);
  }

  lemma AddedOk(left: seq<Setting>, vs: seq<Setting>, newline: string, i: nat)
    requires GoodSettings(vs) && From(left, vs) && (newline == "\n" || newline == "\r\n") && i < |left|
    ensures var m := Added(left, newline)[i];
            && Settled(m, vs) && Says(m, left[i].name) == Some(left[i].value)
            && m != "" && m[0] != '\n' && m[|m| - 1] == '\n'
            && forall name :: ValueFor(vs, name).None? ==> Says(m, name).None?
  {
    hide GoodSettings, Settled, Reads, Bare, AddedLine, From, ValueFor;
    FromIs(left, vs, i);
    AddedSettled(left[i], vs, newline);
  }

  lemma AddedProper(left: seq<Setting>, vs: seq<Setting>, newline: string)
    requires GoodSettings(vs) && From(left, vs) && (newline == "\n" || newline == "\r\n")
    ensures Proper(Added(left, newline)) && AllSettled(Added(left, newline), vs)
    ensures forall name :: ValueFor(vs, name).None? ==> Lookup(Added(left, newline), name).None?
  {
    hide GoodSettings, RewriteLine, SaysOnly, Says, OneLine, From, ValueFor, AddedLine, Lookup;
    var added := Added(left, newline);
    forall i | 0 <= i < |added| ensures Settled(added[i], vs) && added[i] != "" && added[i][|added[i]| - 1] == '\n' {
      AddedOk(left, vs, newline, i);
    }
    AllEndProper(added);
    forall name | ValueFor(vs, name).None? ensures Lookup(added, name).None? {
      forall i | 0 <= i < |added| ensures Says(added[i], name).None? {
        AddedOk(left, vs, newline, i);
      }
      LookupNothing(added, name);
    }
  }

  lemma EndsWithNewline(l: string, next: string)
    requires l != "" && l[|l| - 1] == '\n'
    ensures EndsBefore(l, next)
  {
  }

  lemma {:induction false} LookupAppend(a: seq<string>, b: seq<string>, name: string)
    ensures Lookup(a + b, name) == if Lookup(b, name).Some? then Lookup(b, name) else Lookup(a, name)
  {
    hide Says;
    if b == [] {
      assert a + b == a;
    } else {
      assert (a + b)[..|a + b| - 1] == a + b[..|b| - 1];
      LookupAppend(a, b[..|b| - 1], name);
    }
  }

  lemma LookupOne(m: string, name: string)
    ensures Lookup([m], name) == Says(m, name)
  {
    hide Says;
    assert [m][..0] == [];
  }

  lemma HoldsAppend(a: seq<string>, b: seq<string>, s: Setting)
    ensures Holds(a + b, s) <==> Holds(a, s) || Holds(b, s)
  {
    hide Says;
    if Holds(b, s) {
      var i :| 0 <= i < |b| && Says(b[i], s.name) == Some(s.value);
      assert (a + b)[|a| + i] == b[i];
    }
    if Holds(a, s) {
      var i :| 0 <= i < |a| && Says(a[i], s.name) == Some(s.value);
      assert (a + b)[i] == a[i];
    }
  }

  lemma SettledAppend(a: seq<string>, b: seq<string>, vs: seq<Setting>)
    requires AllSettled(a, vs) && AllSettled(b, vs)
    ensures AllSettled(a + b, vs)
  {
    hide Settled;
  }

  /** The last line sealed: as before, but it ends with a newline. */
  lemma SealedReads(m: string, newline: string, vs: seq<Setting>, name: string)
    requires Settled(m, vs) && m != "" && (newline == "\n" || newline == "\r\n")
    ensures Lookup(Sealed(m, newline), name) == Says(m, name) && AllSettled(Sealed(m, newline), vs)
  {
    hide Settled, Says, Lookup;
    SealedSettled(m, newline, vs);
    var r := Sealed(m, newline);
    LookupOne(r[0], name);
    if |r| == 2 {
      assert r == [r[0]] + [r[1]];
      LookupAppend([r[0]], [r[1]], name);
      LookupOne(r[1], name);
    } else {
      assert r == [r[0]];
    }
  }

  function SealLast(ms: seq<string>, newline: string): seq<string>
    requires NonEmpty(ms)
  {
    if ms == [] then [] else ms[..|ms| - 1] + Sealed(ms[|ms| - 1], newline)
  }

  lemma SettledHolds(ms: seq<string>, vs: seq<Setting>, s: Setting)
    requires AllSettled(ms, vs) && ValueFor(vs, s.name) == Some(s.value)
    ensures Holds(ms, s) ==> Lookup(ms, s.name) == Some(s.value)
  {
    hide OneLine, RewriteLine, Says, ValueFor, SaysOnly;
    if Holds(ms, s) {
      var last, init := ms[|ms| - 1], ms[..|ms| - 1];
      assert Settled(last, vs);
      SaysOnlyThat(last, vs, s);
      assert ms == init + [last];
      if Says(last, s.name).None? {
        HoldsAppend(init, [last], s);
        assert !Holds([last], s);
        assert AllSettled(init, vs);
        SettledHolds(init, vs, s);
      }
    }
  }

  lemma SaysOnlyThat(m: string, vs: seq<Setting>, s: Setting)
    requires SaysOnly(m, vs) && ValueFor(vs, s.name) == Some(s.value)
    ensures Says(m, s.name).None? || Says(m, s.name) == Some(s.value)
  {
    hide Says, ValueFor;
  }

  /** What sealing keeps of the lines. */
  lemma SealLastOk(ms: seq<string>, newline: string, vs: seq<Setting>)
    requires Proper(ms) && AllSettled(ms, vs) && NonEmpty(ms) && ms != [] && (newline == "\n" || newline == "\r\n")
    ensures var r := SealLast(ms, newline);
            && Proper(r) && AllSettled(r, vs) && Concat(r) == Concat(EndLast(ms, newline))
            && r != [] && r[|r| - 1] != "" && r[|r| - 1][|r[|r| - 1]| - 1] == '\n'
  {
    hide Settled, Says, Lookup, OneLine, Proper, EndsBefore, Concat;
    var init, m := ms[..|ms| - 1], ms[|ms| - 1];
    SealedSettled(m, newline, vs);
    SealedReads(m, newline, vs, "");
    ProperInit(ms);
    if init != [] {
      SameStart(init[|init| - 1], m, Sealed(m, newline)[0]);
    }
    ProperAppend(init, Sealed(m, newline));
    SettledAppend(init, Sealed(m, newline), vs);
    ConcatAppend(init, Sealed(m, newline));
    assert ms == init + [m];
    ConcatAppend(init, [m]);
    ConcatAppend(init, [m + newline]);
    ConcatSingle(m);
    ConcatSingle(m + newline);
  }

  lemma ConcatSingle(m: string)
    ensures Concat([m]) == m
  {
    assert Concat([m]) == m + "";
  }

  lemma SameStart(l: string, next: string, other: string)
    requires EndsBefore(l, next) && next != "" && other != "" && next[0] == other[0]
    ensures EndsBefore(l, other)
  {
  }

  lemma SealLastReads(ms: seq<string>, newline: string, vs: seq<Setting>, name: string)
    requires AllSettled(ms, vs) && NonEmpty(ms) && (newline == "\n" || newline == "\r\n")
    ensures Lookup(SealLast(ms, newline), name) == Lookup(ms, name)
  {
    hide Settled, Says, Lookup, Sealed;
    if ms != [] {
      var init, m := ms[..|ms| - 1], ms[|ms| - 1];
      SealedReads(m, newline, vs, name);
      LookupAppend(init, Sealed(m, newline), name);
      assert ms == init + [m];
      LookupAppend(init, [m], name);
      LookupOne(m, name);
    }
  }

  /** The lines of the new text, from the edited lines and the settings left. */
  function NewLines(p: Placed, newline: string): seq<string>
    requires NonEmpty(p.lines)
  {
    if p.left == [] then p.lines else SealLast(p.lines, newline) + Added(p.left, newline)
  }

  /** The new text is these lines, and each is settled. */
  lemma NewLinesOk(p: Placed, newline: string, vs: seq<Setting>)
    requires Proper(p.lines) && AllSettled(p.lines, vs) && NonEmpty(p.lines)
    requires GoodSettings(vs) && From(p.left, vs) && (newline == "\n" || newline == "\r\n")
    ensures var r := NewLines(p, newline);
            && Proper(r) && AllSettled(r, vs)
            && Concat(r) == if p.left == [] then Concat(p.lines)
                            else Concat(EndLast(p.lines, newline) + Added(p.left, newline))
  {
    hide GoodSettings, From, Settled, OneLine, Proper, EndsBefore, Added;
    if p.left != [] {
      var added := Added(p.left, newline);
      AddedProper(p.left, vs, newline);
      if p.lines == [] {
        assert SealLast(p.lines, newline) + added == added && EndLast(p.lines, newline) + added == added;
      } else {
        SealLastOk(p.lines, newline, vs);
        var sealed := SealLast(p.lines, newline);
        EndsWithNewline(sealed[|sealed| - 1], if added == [] then "" else added[0]);
        ProperAppend(sealed, added);
        SettledAppend(sealed, added, vs);
        ConcatAppend(sealed, added);
        ConcatAppend(EndLast(p.lines, newline), added);
      }
    }
  }

  /** Names not set read as before, and set names as set. */
  lemma NewLinesRead(p: Placed, newline: string, vs: seq<Setting>, name: string)
    requires Proper(p.lines) && AllSettled(p.lines, vs) && NonEmpty(p.lines)
    requires GoodSettings(vs) && From(p.left, vs) && (newline == "\n" || newline == "\r\n")
    requires forall s :: s in vs ==> Covered(p, s)
    ensures Lookup(NewLines(p, newline), name) ==
            if ValueFor(vs, name).Some? then ValueFor(vs, name) else Lookup(p.lines, name)
  {
    hide Settled, Proper, Lookup, Says, Added, SealLast, GoodSettings, From, ValueFor;
    NewLinesOk(p, newline, vs);
    if ValueFor(vs, name).None? {
      if p.left != [] {
        AddedProper(p.left, vs, newline);
        LookupAppend(SealLast(p.lines, newline), Added(p.left, newline), name);
        SealLastReads(p.lines, newline, vs, name);
      }
    } else {
      var k := ValueForGood(vs, name);
      var s := vs[k];
      assert s in vs;
      NewLinesHold(p, newline, vs, s);
      SettledHolds(NewLines(p, newline), vs, s);
    }
  }

  lemma SealLastHolds(ms: seq<string>, newline: string, vs: seq<Setting>, s: Setting)
    requires AllSettled(ms, vs) && NonEmpty(ms) && (newline == "\n" || newline == "\r\n") && Holds(ms, s)
    ensures Holds(SealLast(ms, newline), s)
  {
    hide Settled, Says, Sealed;
    var init, m := ms[..|ms| - 1], ms[|ms| - 1];
    assert ms == init + [m];
    HoldsAppend(init, [m], s);
    HoldsAppend(init, Sealed(m, newline), s);
    if Holds([m], s) {
      SealedSettled(m, newline, vs);
      assert Says(Sealed(m, newline)[0], s.name) == Some(s.value);
    }
  }

  lemma NewLinesHold(p: Placed, newline: string, vs: seq<Setting>, s: Setting)
    requires AllSettled(p.lines, vs) && NonEmpty(p.lines) && Covered(p, s)
    requires GoodSettings(vs) && From(p.left, vs) && (newline == "\n" || newline == "\r\n")
    ensures Holds(NewLines(p, newline), s)
  {
    hide Settled, Says, Added, SealLast, GoodSettings, From, Holds;
    if p.left != [] {
      HoldsAppend(SealLast(p.lines, newline), Added(p.left, newline), s);
      if Holds(p.lines, s) {
        SealLastHolds(p.lines, newline, vs, s);
      } else {
        AddedHolds(p.left, vs, newline, s);
      }
    }
  }

  lemma AddedHolds(left: seq<Setting>, vs: seq<Setting>, newline: string, s: Setting)
    requires GoodSettings(vs) && From(left, vs) && (newline == "\n" || newline == "\r\n") && s in left
    ensures Holds(Added(left, newline), s)
  {
    hide Says, Settled, GoodSettings, From, AddedLine;
    var i :| 0 <= i < |left| && left[i] == s;
    AddedOk(left, vs, newline, i);
  }

  // ---------------------------------------------------------------- the main results, for whole texts

  /** The edited lines of a text, and the settings that no line took. */
  function Edited(text: string, vs: seq<Setting>): Placed {
    Place(RewriteLines(SplitLines(text), vs), Missing(SplitLines(text), vs))
  }

  lemma EditedOk(text: string, vs: seq<Setting>)
    requires GoodSettings(vs) && Safe(SplitLines(text), vs)
    ensures var p := Edited(text, vs);
            && Edits(SplitLines(text), p.lines, vs) && Proper(p.lines) && AllSettled(p.lines, vs) && NonEmpty(p.lines)
            && From(p.left, vs) && (forall s :: s in vs ==> Covered(p, s))
  {
    hide SplitLines, Edit, Settled, OneLine, GoodSettings, LineSafe, PlaceholderSafe, Covered, Place, RewriteLines;
    hide Missing, EditedLine, FirstPlaceholder, SomeAssigns, Proper;
    var ls, p := SplitLines(text), Edited(text, vs);
    SplitProper(text);
    ProperOneLines(ls);
    EditedAre(ls, vs);
    forall i | 0 <= i < |ls| ensures Edit(ls[i], p.lines[i], vs, i == |ls| - 1) {
      EditedLineOk(ls, vs, i);
    }
    ProperEdits(ls, p.lines, vs);
    forall i | 0 <= i < |p.lines| ensures Settled(p.lines[i], vs) && p.lines[i] != "" {
      EditSettled(ls[i], p.lines[i], vs, i == |ls| - 1);
      SettledSome(p.lines[i], vs);
    }
    forall s | s in vs ensures Covered(p, s) {
      AllCovered(ls, vs, s);
    }
  }

  lemma SettledSome(m: string, vs: seq<Setting>)
    requires Settled(m, vs)
    ensures m != "" && OneLine(m)
  {
    hide SaysOnly, RewriteLine;
  }

  /** The lines of the new text. */
  lemma RewrittenLines(text: string, vs: seq<Setting>)
    requires GoodSettings(vs) && Safe(SplitLines(text), vs)
    ensures NonEmpty(Edited(text, vs).lines)
    ensures SplitLines(Rewrite(text, vs)) == NewLines(Edited(text, vs), NewLine(text))
    ensures AllSettled(SplitLines(Rewrite(text, vs)), vs)
  {
    hide SplitLines, Settled, GoodSettings, Safe, From, Place, RewriteLines, Missing, Edits, Covered, Proper, NewLine;
    hide Added, SealLast, EndLast;
    EditedOk(text, vs);
    var p := Edited(text, vs);
    NewLinesOk(p, NewLine(text), vs);
    var r := NewLines(p, NewLine(text));
    SettledNonEmpty(r, vs);
    SplitConcat(r);
  }

  lemma SettledNonEmpty(ms: seq<string>, vs: seq<Setting>)
    requires AllSettled(ms, vs)
    ensures NonEmpty(ms) && OneLines(ms)
  {
    hide Settled, OneLine;
    forall i | 0 <= i < |ms| ensures ms[i] != "" && OneLine(ms[i]) {
      SettledSome(ms[i], vs);
    }
  }

  lemma {:induction false} LookupSame(ls: seq<string>, ms: seq<string>, name: string)
    requires |ls| == |ms| && forall i :: 0 <= i < |ls| ==> Says(ms[i], name) == Says(ls[i], name)
    ensures Lookup(ms, name) == Lookup(ls, name)
  {
    hide Says;
    if ls != [] {
      LookupSame(ls[..|ls| - 1], ms[..|ms| - 1], name);
    }
  }

  /** Reading the rewritten text gives the old reading overlaid with the settings. */
  lemma {:induction false} ReadsOverlaid(text: string, vs: seq<Setting>, name: string)
    requires GoodSettings(vs) && Safe(SplitLines(text), vs)
    ensures ReadText(Rewrite(text, vs), name) ==
            if ValueFor(vs, name).Some? then ValueFor(vs, name) else ReadText(text, name)
  {
    hide SplitLines, Settled, GoodSettings, Safe, From, Edit, Edited, Rewrite, NewLines, Covered, Proper, NewLine;
    hide Lookup, Says, ValueFor;
    EditedOk(text, vs);
    RewrittenLines(text, vs);
    var p, ls := Edited(text, vs), SplitLines(text);
    NewLinesRead(p, NewLine(text), vs, name);
    if ValueFor(vs, name).None? {
      forall i | 0 <= i < |ls| ensures Says(p.lines[i], name) == Says(ls[i], name) {
        assert Edit(ls[i], p.lines[i], vs, i == |ls| - 1);
        EditSettled(ls[i], p.lines[i], vs, i == |ls| - 1);
      }
      LookupSame(ls, p.lines, name);
    }
  }

  lemma {:induction false} NothingMissing(ms: seq<string>, vs: seq<Setting>, n: nat)
    requires n <= |vs| && forall k :: 0 <= k < n ==> SomeAssigns(ms, vs[k].name)
    ensures Missing(ms, vs[..n]) == []
  {
    hide SomeAssigns;
    if n > 0 {
      NothingMissing(ms, vs, n - 1);
      assert vs[..n][..n - 1] == vs[..n - 1] && vs[..n][n - 1] == vs[n - 1];
    }
  }

  lemma HoldsAssigns(ms: seq<string>, s: Setting)
    requires OneLines(ms) && Holds(ms, s)
    ensures SomeAssigns(ms, s.name)
  {
    hide OneLine, Parse, Reads, Body, Bare;
    var i :| 0 <= i < |ms| && Says(ms[i], s.name) == Some(s.value);
    AssignsAsRead(ms[i]);
    assert Assigns(ms[i], s.name);
  }

  lemma SettledStays(m: string, vs: seq<Setting>)
    requires Settled(m, vs)
    ensures RewriteLine(m, vs) == m
  {
    hide RewriteLine, SaysOnly, OneLine;
  }

  /** A second rewrite with the same settings changes nothing. */
  lemma {:induction false} RewriteTwice(text: string, vs: seq<Setting>)
    requires GoodSettings(vs) && Safe(SplitLines(text), vs)
    ensures Rewrite(Rewrite(text, vs), vs) == Rewrite(text, vs)
  {
    hide SplitLines, Settled, GoodSettings, Safe, From, Edits, Edited, NewLines, Covered, Proper, NewLine, Holds;
    hide SomeAssigns, RewriteLine, OneLines;
    var after := Rewrite(text, vs);
    EditedOk(text, vs);
    RewrittenLines(text, vs);
    var ms := SplitLines(after);
    SettledNonEmpty(ms, vs);
    forall k | 0 <= k < |vs| ensures SomeAssigns(ms, vs[k].name) {
      assert vs[k] in vs;
      NewLinesHold(Edited(text, vs), NewLine(text), vs, vs[k]);
      HoldsAssigns(ms, vs[k]);
    }
    NothingMissing(ms, vs, |vs|);
    assert vs[..|vs|] == vs;
    forall i | 0 <= i < |ms| ensures RewriteLine(ms[i], vs) == ms[i] {
      SettledStays(ms[i], vs);
    }
    assert RewriteLines(ms, vs) == ms;
    SplitProper(after);
  }

  /**
   * Every line stays in its place: as a setting's line if it is the first placeholder of a missing name, with its value
   * replaced if it assigns to a set name, else as it was. Only the last line may get a line ending.
   */
  lemma {:induction false} OtherLinesKept(text: string, vs: seq<Setting>, i: nat)
    requires GoodSettings(vs) && Safe(SplitLines(text), vs) && i < |SplitLines(text)|
    ensures var ls, ms := SplitLines(text), SplitLines(Rewrite(text, vs));
            var m := EditedLine(ls, vs, i);
            i < |ms| && (ms[i] == m || (i == |ls| - 1 && ms[i] == m + NewLine(text)))
  {
    hide SplitLines, Settled, GoodSettings, Safe, EditedLine, NewLine, Rewrite, OneLine, Place, Missing;
    SplitProper(text);
    ProperOneLines(SplitLines(text));
    EditedAre(SplitLines(text), vs);
    RewrittenLines(text, vs);
    var p := Edited(text, vs);
    hide Sealed, Edited, Proper;
    if p.left != [] && i == |p.lines| - 1 {
      assert SealLast(p.lines, NewLine(text))[i] == Sealed(p.lines[i], NewLine(text))[0];
      SealedFirst(p.lines[i], NewLine(text));
    }
  }

  lemma SealedFirst(m: string, newline: string)
    requires m != ""
    ensures Sealed(m, newline)[0] == m || Sealed(m, newline)[0] == m + newline
  {
  }

  // ---------------------------------------------------------------- exactly when lines stay apart

  lemma StartKept(l: string, vs: seq<Setting>)
    requires OneLine(l)
    ensures RewriteLine(l, vs) != "" && RewriteLine(l, vs)[0] == l[0]
  {
    hide Parse, Body, Ending, OneLine, ValueFor, IsHead, IsTail;
    OneLineSome(l);
    if Sets(l, vs) {
      LineOfParts(l);
    }
  }

  lemma FeedLine(l: string)
    requires OneLine(l) && l[0] == '\n'
    ensures Body(l) == ""
  {
    assert BreakAt(l) == 0;
    assert "" + "\n" == l;
    LineOf("", "\n");
  }

  /** A placeholder does not begin with a line feed. */
  lemma PlaceholderStart(l: string, name: string)
    requires OneLine(l) && IsPlaceholder(Body(l), name)
    ensures l != "" && l[0] != '\n'
  {
    hide Body, OneLine;
    OneLineSome(l);
    if l[0] == '\n' {
      FeedLine(l);
    }
  }

  /** A setting that takes its placeholder's place is one line, but not before another if the break was unusual. */
  lemma PlacedKeepsApart(l: string, s: Setting, next: string)
    requires OneLine(l) && GoodName(s.name) && GoodValue(s.value) && IsPlaceholder(Body(l), s.name)
    requires next != "" ==> EndsBefore(l, next)
    ensures var m := PlacedLine(l, s);
            OneLine(m) && (next != "" ==> EndsBefore(m, next)) <==> (next != "" ==> PlainLine(l))
  {
    hide GoodName, IsPlaceholder;
    var vs := [s];
    assert GoodSettings(vs) && ValueFor(vs, s.name) == Some(s.value);
    hide GoodValue, GoodSettings;
    var m := PlacedLine(l, s);
    if next == "" || PlainLine(l) {
      PlacedEdit(l, s, vs, next == "");
      OneLineSome(l);
      hide OneLine, Edit, PlacedLine, PlainLine, EndsBefore;
      EditEnds(l, m, vs, next == "", next);
    } else {
      LineParts(l);
      GoodValueNoBreak(s.value);
      GoodValueSome(s.value);
      assert m[|m| - 1] == s.value[|s.value| - 1];
    }
  }

  lemma GoodValueSome(v: string)
    requires GoodValue(v)
    ensures v != ""
  {
  }

  predicate LineOk(ls: seq<string>, vs: seq<Setting>, i: nat)
    requires i < |ls|
  {
    LineSafe(ls[i], vs, i == |ls| - 1) && PlaceholderSafe(ls, vs, i)
  }

  function Next(ls: seq<string>, i: nat): string { if i + 1 < |ls| then ls[i + 1] else "" }

  lemma EditedApart(ls: seq<string>, vs: seq<Setting>, i: nat)
    requires OneLines(ls) && GoodSettings(vs) && i < |ls| && (Next(ls, i) != "" ==> EndsBefore(ls[i], Next(ls, i)))
    requires i + 1 < |ls| ==> ls[i + 1] != ""
    ensures var m, next := EditedLine(ls, vs, i), Next(ls, i);
            && m != "" && (m[0] == '\n' <==> ls[i] != "" && ls[i][0] == '\n')
            && (OneLine(m) && (next != "" ==> EndsBefore(m, next)) <==> LineOk(ls, vs, i))
  {
    hide GoodSettings, OneLine, PlacedLine, PlainLine, IsPlaceholder, Body, RewriteLine, EndsBefore, LineSafe;
    var l, next, t := ls[i], Next(ls, i), Taker(ls, Missing(ls, vs), i);
    if t.Some? {
      MissingAre(ls, vs);
      GoodMember(vs, t.value);
      PlacedKeepsApart(l, t.value, next);
      TakenIsUnset(l, vs, t.value.name);
      UnsetSafe(l, vs, i == |ls| - 1);
      PlaceholderStart(l, t.value.name);
      PlacedStart(l, t.value);
    } else {
      StartKept(l, vs);
      OneLineSome(l);
      RewriteKeepsApart(l, vs, next);
    }
  }

  lemma UnsetSafe(l: string, vs: seq<Setting>, last: bool)
    requires !Sets(l, vs)
    ensures LineSafe(l, vs, last)
  {
  }

  lemma PlacedStart(l: string, s: Setting)
    requires GoodName(s.name)
    ensures PlacedLine(l, s) != "" && PlacedLine(l, s)[0] != '\n'
  {
  }

  lemma SameNext(l: string, next: string, other: string)
    requires next != "" && other != "" && (next[0] == '\n' <==> other[0] == '\n')
    ensures EndsBefore(l, next) <==> EndsBefore(l, other)
  {
  }

  /** Lines edited one by one are proper exactly if each is one line that ends before the next old one. */
  lemma {:induction false} ProperPairs(ls: seq<string>, ms: seq<string>, oks: seq<bool>)
    requires Proper(ls) && |ls| == |ms| == |oks|
    requires forall i :: 0 <= i < |ls| ==> ls[i] != "" && ms[i] != "" && (ms[i][0] == '\n' <==> ls[i][0] == '\n')
    requires forall i :: 0 <= i < |ls| ==>
               (OneLine(ms[i]) && (Next(ls, i) != "" ==> EndsBefore(ms[i], Next(ls, i))) <==> oks[i])
    ensures Proper(ms) <==> forall i :: 0 <= i < |oks| ==> oks[i]
  {
    hide OneLine, EndsBefore;
    if ls != [] {
      forall i | 0 <= i < |ls| - 1 ensures Next(ls[1..], i) == Next(ls, i + 1) {
      }
      assert forall i :: 0 <= i < |ls| - 1 ==>
        ls[1..][i] == ls[i + 1] && ms[1..][i] == ms[i + 1] && oks[1..][i] == oks[i + 1];
      ProperPairs(ls[1..], ms[1..], oks[1..]);
      ProperHead(ms);
      assert oks == [oks[0]] + oks[1..];
      if |ls| > 1 {
        SameNext(ms[0], ls[1], ms[1]);
        assert Next(ls, 0) == ls[1];
      }
    }
  }

  /** The edited lines are proper exactly if every line is safe. */
  lemma EditedProper(ls: seq<string>, vs: seq<Setting>)
    requires Proper(ls) && GoodSettings(vs)
    ensures var p := Place(RewriteLines(ls, vs), Missing(ls, vs));
            NonEmpty(p.lines) && (Proper(p.lines) <==> Safe(ls, vs))
  {
    hide GoodSettings, OneLine, EndsBefore, EditedLine, LineSafe, PlaceholderSafe, Place, Missing, FirstPlaceholder;
    ProperOneLines(ls);
    EditedAre(ls, vs);
    var p := Place(RewriteLines(ls, vs), Missing(ls, vs));
    var oks := seq(|ls|, i requires 0 <= i < |ls| => LineOk(ls, vs, i));
    forall i | 0 <= i < |ls|
      ensures ls[i] != "" && p.lines[i] != "" && (p.lines[i][0] == '\n' <==> ls[i][0] == '\n')
      ensures OneLine(p.lines[i]) && (Next(ls, i) != "" ==> EndsBefore(p.lines[i], Next(ls, i))) <==> oks[i]
    {
      OneLineSome(ls[i]);
      if i + 1 < |ls| {
        OneLineSome(ls[i + 1]);
        ProperAt(ls, i);
      }
      EditedApart(ls, vs, i);
    }
    ProperPairs(ls, p.lines, oks);
  }

  lemma {:induction false} ProperAt(ls: seq<string>, i: nat)
    requires Proper(ls) && i + 1 < |ls|
    ensures EndsBefore(ls[i], ls[i + 1])
  {
    hide OneLine, EndsBefore;
    if i > 0 {
      ProperAt(ls[1..], i - 1);
    }
  }

  lemma {:induction false} ProperParts(a: seq<string>, b: seq<string>)
    requires Proper(a + b)
    ensures Proper(a) && Proper(b) && (a != [] && b != [] ==> EndsBefore(a[|a| - 1], b[0]))
  {
    hide OneLine, EndsBefore;
    if a == [] {
      assert a + b == b;
    } else {
      ProperHead(a + b);
      assert (a + b)[1..] == a[1..] + b;
      ProperParts(a[1..], b);
      if |a| == 1 && b != [] {
        assert (a + b)[1] == b[0];
      }
    }
  }

  lemma ShorterLine(m: string, newline: string)
    requires m != "" && OneLine(m + newline) && (newline == "\n" || newline == "\r\n")
    requires !IsBreak(m[|m| - 1]) || (m[|m| - 1] == '\r' && newline == "\n")
    ensures OneLine(m)
  {
    var t, i := m + newline, BreakAt(m);
    assert forall j :: 0 <= j < |m| ==> t[j] == m[j];
    if i < |m| {
      BreakAtIs(t, i);
    }
  }

  lemma SealedProper(m: string, newline: string)
    requires m != "" && (newline == "\n" || newline == "\r\n") && Proper(Sealed(m, newline))
    ensures OneLine(m) && Sealed(m, newline) != [] && Sealed(m, newline)[0] != "" && Sealed(m, newline)[0][0] == m[0]
  {
    hide OneLine, IsBreak;
    var r := Sealed(m, newline);
    ProperHead(r);
    if r == [m + newline] {
      ShorterLine(m, newline);
    }
  }

  /** Sealing the last line and adding lines does not make improper lines proper. */
  lemma UnsealedProper(p: Placed, newline: string)
    requires NonEmpty(p.lines) && (newline == "\n" || newline == "\r\n") && Proper(NewLines(p, newline))
    ensures Proper(p.lines)
  {
    hide OneLine, EndsBefore, Sealed, Added, Proper;
    if p.left != [] {
      ProperParts(SealLast(p.lines, newline), Added(p.left, newline));
      if p.lines == [] {
        assert Proper([]) by { ProperNone(); }
      } else {
        var init, m := p.lines[..|p.lines| - 1], p.lines[|p.lines| - 1];
        ProperParts(init, Sealed(m, newline));
        SealedProper(m, newline);
        LastLine(m);
        if init != [] {
          SameStart(init[|init| - 1], Sealed(m, newline)[0], m);
        }
        ProperAppend(init, [m]);
        assert p.lines == init + [m];
      }
    }
  }

  lemma ProperNone()
    ensures Proper([])
  {
  }

  /** The new text is the new lines joined, however they break. */
  lemma NewLinesConcat(p: Placed, newline: string)
    requires NonEmpty(p.lines) && (newline == "\n" || newline == "\r\n")
    ensures var r := NewLines(p, newline);
            Concat(r) == if p.left == [] then Concat(p.lines)
                         else Concat(EndLast(p.lines, newline) + Added(p.left, newline))
  {
    hide Concat, Added, IsBreak;
    if p.left != [] && p.lines != [] {
      var init, m := p.lines[..|p.lines| - 1], p.lines[|p.lines| - 1];
      SealedConcat(m, newline);
      ConcatAppend(init, Sealed(m, newline));
      ConcatAppend(SealLast(p.lines, newline), Added(p.left, newline));
      ConcatAppend(EndLast(p.lines, newline), Added(p.left, newline));
      ConcatAppend(init, [m]);
      ConcatAppend(init, [m + newline]);
      assert p.lines == init + [m];
      ConcatSingle(m);
      ConcatSingle(m + newline);
    }
  }

  lemma SealedConcat(m: string, newline: string)
    requires m != ""
    ensures Concat(Sealed(m, newline)) == if m[|m| - 1] == '\n' then m else m + newline
  {
    ConcatSingle(m);
    ConcatSingle(m + newline);
    TwoConcat(m, newline);
    hide Concat;
  }

  lemma NewLinesNonEmpty(p: Placed, newline: string)
    requires NonEmpty(p.lines) && (newline == "\n" || newline == "\r\n")
    ensures NonEmpty(NewLines(p, newline))
  {
    if p.left != [] {
      var added := Added(p.left, newline);
      forall i | 0 <= i < |added| ensures added[i] != "" {
        assert added[i] == AddedLine(p.left[i], newline);
      }
    }
  }

  /**
   * The new text breaks into the edited lines, each in its place, and the added ones: exactly if every line is safe.
   * Whatever is assigned, has a placeholder, or is added at the end.
   */
  lemma {:induction false} ApartExactly(text: string, vs: seq<Setting>)
    requires GoodSettings(vs)
    ensures NonEmpty(Edited(text, vs).lines)
    ensures SplitLines(Rewrite(text, vs)) == NewLines(Edited(text, vs), NewLine(text)) <==> Safe(SplitLines(text), vs)
  {
    hide SplitLines, GoodSettings, Safe, Proper, Place, RewriteLines, Missing, NewLine, Added, SealLast, EndLast;
    hide Concat;
    SplitProper(text);
    EditedProper(SplitLines(text), vs);
    var p, newline := Edited(text, vs), NewLine(text);
    NewLinesConcat(p, newline);
    NewLinesNonEmpty(p, newline);
    var r := NewLines(p, newline);
    SplitConcat(r);
    if Safe(SplitLines(text), vs) {
      EditedOk(text, vs);
      NewLinesOk(p, newline, vs);
    }
    if Proper(r) {
      UnsealedProper(p, newline);
    }
  }

  // ---------------------------------------------------------------- the edit as the program does it

  lemma AssignsNext(lines: seq<string>, i: nat, name: string)
    requires i < |lines|
    ensures SomeAssigns(lines[..i + 1], name) <==> SomeAssigns(lines[..i], name) || Assigns(lines[i], name)
  {
    hide Assigns;
    var more := lines[..i + 1];
    assert forall k :: 0 <= k < i ==> more[k] == lines[..i][k];
    assert more[i] == lines[i];
    if SomeAssigns(lines[..i], name) {
      var k :| 0 <= k < i && Assigns(lines[..i][k], name);
      assert Assigns(more[k], name);
    }
  }

  lemma NoneAssigns()
    ensures forall name :: !SomeAssigns([], name)
  {
  }

  /** The first loop: the lines that assign, and the names they assign to. */
  method RewriteAssigned(original: seq<string>, vs: seq<Setting>) returns (lines: seq<string>, popped: set<string>)
    ensures lines == RewriteLines(original, vs)
    ensures forall name :: name in popped <==> ValueFor(vs, name).Some? && SomeAssigns(original, name)
  {
    hide Parse, Body, Ending, SomeAssigns;
    lines := original;
    popped := {};
    NoneAssigns();
    assert original[..0] == [];
    for index := 0 to |original|
      invariant |lines| == |original|
      invariant forall j :: 0 <= j < index ==> lines[j] == RewriteLine(original[j], vs)
      invariant forall j :: index <= j < |original| ==> lines[j] == original[j]
      invariant forall name :: name in popped <==> ValueFor(vs, name).Some? && SomeAssigns(original[..index], name)
    {
      var a := Parse(Body(lines[index]));
      forall name {
        AssignsNext(original, index, name);
      }
      if a.Some? && ValueFor(vs, a.value.name).Some? {
        lines := lines[index :=
          a.value.head + ValueFor(vs, a.value.name).value + a.value.comment + Ending(lines[index])];
        popped := popped + {a.value.name};
      }
    }
    assert original[..|original|] == original;
  }

  /** The second loop: the placeholders, and the settings without one. */
  method TakePlaceholders(rewritten: seq<string>, remaining: seq<Setting>)
    returns (lines: seq<string>, left: seq<Setting>)
    ensures Placed(lines, left) == Place(rewritten, remaining)
  {
    hide Body, IsPlaceholder, PlacedLine;
    lines, left := rewritten, [];
    for k := 0 to |remaining|
      invariant Placed(lines, left) == Place(rewritten, remaining[..k])
    {
      assert remaining[..k + 1][..k] == remaining[..k];
      var s := remaining[k];
      var index := 0;
      while index < |lines| && !IsPlaceholder(Body(lines[index]), s.name)
        invariant index <= |lines|
        invariant forall j :: 0 <= j < index ==> !IsPlaceholder(Body(lines[j]), s.name)
      {
        index := index + 1;
      }
      assert index == FirstPlaceholder(lines, s.name);
      if index < |lines| {
        lines := lines[index := PlacedLine(lines[index], s)];
      } else {
        left := left + [s];
      }
    }
    assert remaining[..|remaining|] == remaining;
  }

  /** `rewrite_env_values`, from the text read to the text written. */
  method RewriteEnvValues(text: string, vs: seq<Setting>) returns (written: string)
    ensures written == Rewrite(text, vs)
  {
    hide SplitLines, Concat, AddedLine, NewLine, RewriteLines, SomeAssigns, Place, ValueFor;
    var original := SplitLines(text);
    var lines, popped := RewriteAssigned(original, vs);
    var remaining: seq<Setting> := [];
    for k := 0 to |vs|
      invariant remaining == Missing(original, vs[..k])
    {
      assert vs[..k + 1][..k] == vs[..k];
      ValueForSome(vs, k);
      if vs[k].name !in popped {
        remaining := remaining + [vs[k]];
      }
    }
    assert vs[..|vs|] == vs;
    var left;
    lines, left := TakePlaceholders(lines, remaining);
    if left != [] {
      var newline := NewLine(text);
      if lines != [] && !(lines[|lines| - 1] != "" && lines[|lines| - 1][|lines[|lines| - 1]| - 1] == '\n') {
        lines := lines[..|lines| - 1] + [lines[|lines| - 1] + newline];
      }
      lines := lines + Added(left, newline);
    }
    written := Concat(lines);
  }

  lemma {:induction false} ValueForSome(vs: seq<Setting>, k: nat)
    requires k < |vs|
    ensures ValueFor(vs, vs[k].name).Some?
  {
    if k > 0 {
      ValueForSome(vs[1..], k - 1);
    }
  }

  // ---------------------------------------------------------------- what the conditions are for

  /** `X=` at the start: the key of the line. */
  lemma KeyOfOne(t: string)
    requires |t| >= 2 && IsLetter(t[0]) && t[1] == '='
    ensures FindKey(t) == Some(Key(0, 1, 1))
  {
    SkipSpacesIs(t, 0, 0);
    assert SkipWord(t, 0) == 1;
    SkipSpacesIs(t, 1, 1);
    NoExport(t, 0);
  }

  const FORM_FEED: char := '\U{000C}'

  lemma FormFeedValue(l: string)
    requires l == "A=1" + [FORM_FEED]
    ensures Parse(l) == Some(Assignment("A", "A=", "1" + [FORM_FEED], ""))
  {
    KeyOfOne(l);
    SkipSpacesIs(l, 2, 2);
    SkipSpacesIs(l, 3, 4);
    PlainEndIs(l, 2, 4);
    assert l[0..1] == "A" && l[..2] == "A=" && l[2..4] == "1" + [FORM_FEED] && l[4..] == "";
  }

  const SET_A := [Setting("A", "x")]

  lemma FormFeedLines(l: string, m: string)
    requires l == "A=1" + [FORM_FEED] && m == "B=2\n"
    ensures SplitLines(l + m) == [l, m] && Body(l) == l && Ending(l) == "" && Body(m) == "B=2"
  {
    LineOfUnusual("A=1", FORM_FEED);
    LineOf("B=2", "\n");
    assert "B=2" + "\n" == m;
    TwoLines(l, m);
    SplitConcat([l, m]);
  }

  lemma FormFeedRewritten(l: string, m: string)
    requires l == "A=1" + [FORM_FEED] && m == "B=2\n"
    ensures RewriteLine(l, SET_A) == "A=x" && Assigns(l, "A") && RewriteLine(m, SET_A) == m
  {
    FormFeedLines(l, m);
    FormFeedValue(l);
    KeyOfOne("B=2");
    hide SplitLines, FindKey, ValueEnd, Body, Ending;
    assert "B=2"[0..1] == "B";
    assert "A=" + "x" + "" + "" == "A=x";
  }

  /** A line that ends in a form feed is rewritten without it, and the next line becomes part of the value. */
  lemma {:induction false} FormFeedLost()
    ensures Rewrite("A=1" + [FORM_FEED] + "B=2\n", [Setting("A", "x")]) == "A=xB=2\n"
  {
    hide SplitLines, RewriteLine, Assigns, Concat;
    var l, m := "A=1" + [FORM_FEED], "B=2\n";
    FormFeedLines(l, m);
    FormFeedRewritten(l, m);
    var ls := [l, m];
    assert RewriteLines(ls, SET_A) == ["A=x", m];
    assert Assigns(ls[0], "A");
    assert Missing(ls, SET_A) == [] by {
      assert SET_A[..0] == [];
    }
    TwoConcat("A=x", m);
    assert "A=x" + m == "A=xB=2\n";
  }

  lemma TwoConcat(a: string, b: string)
    ensures Concat([a, b]) == a + b
  {
    assert [a, b] == [a] + [b];
    ConcatAppend([a], [b]);
    ConcatSingle(a);
    ConcatSingle(b);
  }

  // ---------------------------------------------------------------- empty values

  /** A head that ends with white space is a head without it. */
  lemma ShorterHead(head: string, name: string)
    requires IsHead(head, name) && head != "" && IsSpace(head[|head| - 1])
    ensures IsHead(head[..|head| - 1], name)
  {
    var bare, x := head[..|head| - 1], head[|head| - 1];
    assert head == bare + [x];
    KeyBeforeSpace(bare, x);
    hide FindKey;
    var k := FindKey(head).value;
    assert forall i :: k.equals < i < |bare| ==> bare[i] == head[i] && IsSpace(head[i]);
    SkipSpacesIs(bare, k.equals + 1, |bare|);
    assert bare[k.start..k.end] == head[k.start..k.end];
  }

  lemma ShorterTailSome(c: string)
    requires IsTail(c) && c != "" && IsBreak(c[|c| - 1])
    ensures IsTail(c[..|c| - 1]) && c[..|c| - 1] != ""
  {
    ShorterTail(c);
    assert c[SkipSpaces(c, 0)] == '#';
  }

  /** The same for a line that ends with a break other than CR and LF. */
  lemma EmptyBareUnusual(l: string, vs: seq<Setting>) returns (head: string, c: string)
    requires OneLine(l) && Parse(Body(l)).Some? && ValueFor(vs, Parse(Body(l)).value.name) == Some("") && !PlainLine(l)
    requires var a := Parse(Body(l)).value; RewriteLine(l, vs) == a.head + a.comment + Ending(l)
    ensures var a := Parse(Body(l)).value;
            && Bare(RewriteLine(l, vs)) == head + c && IsHead(head, a.name) && IsTail(c)
            && (c == "" <==> a.comment == "")
  {
    hide Parse, Body, Ending, OneLine, ValueFor, IsHead, IsTail, PlainLine, NoBreak, PlainBreak, RewriteLine;
    LineOfParts(l);
    BreakOfParts(l);
    UnusualEnd(l);
    var a, m := Parse(Body(l)).value, RewriteLine(l, vs);
    head, c := a.head, a.comment;
    assert m == a.head + a.comment;
    if a.comment != "" {
      c := a.comment[..|a.comment| - 1];
      ShorterTailSome(a.comment);
      NoBreakConcat(a.head, c);
      LineOfUnusual(a.head + c, a.comment[|a.comment| - 1]);
      assert m == a.head + c + [a.comment[|a.comment| - 1]];
    } else if a.value != "" {
      assert m == a.head + "";
      LineOf(a.head, "") by {
        assert NoBreak(a.head) && PlainBreak("") by { PlainNothing(); }
      }
    } else {
      assert m == l == a.head;
      head := a.head[..|a.head| - 1];
      BareThenBreak(l) by { UnusualLength(l); }
      assert IsSpace(l[|l| - 1]) by { BreakIsSpace(l[|l| - 1]); }
      ShorterHead(a.head, a.name);
      assert head + c == head;
      assert Bare(l) == head by { UnusualLength(l); }
    }
  }

  /** The new line with an empty value, without its break: the head and the comment, less a break at their end. */
  lemma EmptyBare(l: string, vs: seq<Setting>) returns (head: string, c: string)
    requires OneLine(l) && Parse(Body(l)).Some? && ValueFor(vs, Parse(Body(l)).value.name) == Some("")
    ensures var a := Parse(Body(l)).value;
            && Bare(RewriteLine(l, vs)) == head + c && IsHead(head, a.name) && IsTail(c)
            && (c == "" <==> a.comment == "")
  {
    hide Parse, Body, Ending, OneLine, ValueFor, IsHead, IsTail, PlainLine, NoBreak, PlainBreak;
    LineOfParts(l);
    BreakOfParts(l);
    var a, m := Parse(Body(l)).value, RewriteLine(l, vs);
    assert m == a.head + a.comment + Ending(l) by {
      assert a.head + "" + a.comment == a.head + a.comment;
    }
    head, c := a.head, a.comment;
    if PlainLine(l) {
      NoBreakConcat(a.head, a.comment);
      LineOf(a.head + a.comment, Ending(l));
    } else {
      head, c := EmptyBareUnusual(l, vs);
    }
  }

  lemma PlainNothing()
    ensures PlainBreak("")
  {
  }

  lemma BreakIsSpace(c: char)
    requires IsBreak(c)
    ensures IsSpace(c)
  {
  }

  lemma UnusualLength(l: string)
    requires OneLine(l) && !PlainLine(l)
    ensures |l| == |Bare(l)| + 1 && Bare(l) == l[..|l| - 1]
  {
    LineParts(l);
  }

  /**
   * A line rewritten with an empty value reads as empty exactly if it has no comment; else the comment is the value.
   */
  lemma {:induction false} EmptyValueReads(l: string, vs: seq<Setting>)
    requires OneLine(l) && Parse(Body(l)).Some? && ValueFor(vs, Parse(Body(l)).value.name) == Some("")
    ensures var a, r := Parse(Body(l)).value, Reads(Bare(RewriteLine(l, vs)));
            && r.Some? && r.value.name == a.name
            && (r.value.value == "" <==> a.comment == "")
  {
    hide Parse, Body, OneLine, ValueFor, IsHead, IsTail, RewriteLine, Reads, Bare;
    var head, c := EmptyBare(l, vs);
    EmptyReads(head, Parse(Body(l)).value.name, c);
  }

  lemma CommentedParses()
    ensures Parse("A=1 # c") == Some(Assignment("A", "A=", "1", " # c"))
  {
    var l := "A=1 # c";
    KeyOfOne(l);
    SkipSpacesIs(l, 2, 2);
    SkipSpacesIs(l, 3, 4);
    PlainEndIs(l, 2, 3);
    assert l[0..1] == "A" && l[..2] == "A=" && l[2..3] == "1" && l[3..] == " # c";
  }

  lemma CommentTaken()
    ensures Reads("A= # c") == Some(Setting("A", "# c"))
  {
    var m := "A= # c";
    KeyOfOne(m);
    SkipSpacesIs(m, 2, 3);
    SkipSpacesIs(m, 4, 5);
    PlainEndIs(m, 3, 6);
    assert m[0..1] == "A" && m[3..6] == "# c";
    SkipSpacesIs("# c", 0, 0);
    assert "# c"[0..] == "# c";
  }

  lemma SplitSingle(l: string)
    requires OneLine(l)
    ensures SplitLines(l) == [l] && Concat([l]) == l
  {
    SplitOne(l);
    ConcatSingle(l);
  }

  /** A text of one line, which assigns to the one name. */
  lemma RewriteSingle(l: string, m: string, s: Setting)
    requires OneLine(l) && OneLine(m) && RewriteLine(l, [s]) == m && Assigns(l, s.name)
    ensures Rewrite(l, [s]) == m && ReadText(m, s.name) == Says(m, s.name)
  {
    hide OneLine, RewriteLine, Assigns, SplitLines, Concat, Says;
    SplitSingle(l);
    SplitSingle(m);
    assert RewriteLines([l], [s]) == [m];
    assert Assigns([l][0], s.name);
    assert Missing([l], [s]) == [] by {
      assert [s][..0] == [];
    }
    LookupOne(m, s.name);
  }

  lemma RewriteBare(bare: string, a: Assignment, vs: seq<Setting>, v: string)
    requires NoBreak(bare) && Parse(bare) == Some(a) && ValueFor(vs, a.name) == Some(v)
    ensures var l := bare + "\n";
            OneLine(l) && RewriteLine(l, vs) == a.head + v + a.comment + "\n" && Assigns(l, a.name)
  {
    hide OneLine, Body, Ending, Parse, ValueFor, NoBreak;
    assert PlainBreak("\n");
    LineOf(bare, "\n");
  }

  lemma SaysBare(bare: string, s: Setting)
    requires NoBreak(bare) && Reads(bare) == Some(s)
    ensures OneLine(bare + "\n") && Says(bare + "\n", s.name) == Some(s.value)
  {
    hide OneLine, Bare, Reads, NoBreak;
    assert PlainBreak("\n");
    LineOf(bare, "\n");
  }

  lemma CommentedTexts()
    ensures "A=1 # c" + "\n" == "A=1 # c\n" && "A= # c" + "\n" == "A= # c\n"
    ensures "A=" + "" + " # c" == "A= # c"
    ensures NoBreak("A=1 # c") && NoBreak("A= # c")
  {
  }

  /** An empty value written before a comment is read back as the comment. */
  lemma {:induction false} EmptyValueReadsComment()
    ensures Rewrite("A=1 # c\n", [Setting("A", "")]) == "A= # c\n"
    ensures ReadText("A= # c\n", "A") == Some("# c")
  {
    hide OneLine, RewriteLine, Assigns, Says, Rewrite, ReadText, Parse, Reads, NoBreak;
    CommentedTexts();
    CommentedParses();
    CommentTaken();
    RewriteBare("A=1 # c", Assignment("A", "A=", "1", " # c"), [Setting("A", "")], "");
    SaysBare("A= # c", Setting("A", "# c"));
    RewriteSingle("A=1 # c\n", "A= # c\n", Setting("A", ""));
  }
}
