/**
 * The lines of an environment file: where a text breaks into lines, and how one line reads as an assignment.
 */
module EnvLine {
  import opened Options

  // ---------------------------------------------------------------- lines

  /** What `str.splitlines` breaks at; "\r\n" is one break. */
  predicate IsBreak(c: char) {
    var n := c as int;
    0x0A <= n <= 0x0D || 0x1C <= n <= 0x1E || n == 0x85 || n == 0x2028 || n == 0x2029
  }

  /** `str.isspace`, and `\s` of a regular expression. */
  predicate IsSpace(c: char) {
    var n := c as int;
    || 0x09 <= n <= 0x0D || 0x1C <= n <= 0x20 || n == 0x85 || n == 0xA0 || n == 0x1680 || 0x2000 <= n <= 0x200A
    || n == 0x2028 || n == 0x2029 || n == 0x202F || n == 0x205F || n == 0x3000
  }

  /** The ten breaks, and the other white space: a tab, a space, and those of Unicode. */
  lemma CodePoints(c: char)
    ensures var n := c as int;
            && (IsBreak(c) <==> n in {10, 11, 12, 13, 28, 29, 30, 133, 8232, 8233})
            && (IsSpace(c) <==>
                  || IsBreak(c) || n in {9, 31, 32, 160, 5760, 8192, 8193, 8194, 8195, 8196, 8197, 8198, 8199}
                  || n in {8200, 8201, 8202, 8239, 8287, 12288})
            && (IsLetter(c) <==> 65 <= n <= 90 || n == 95 || 97 <= n <= 122)
            && (IsWord(c) <==> IsLetter(c) || 48 <= n <= 57)
  {
  }

  function BreakAt(t: string): (i: nat)
    ensures i <= |t|
    ensures i < |t| ==> IsBreak(t[i])
    ensures forall j :: 0 <= j < i ==> !IsBreak(t[j])
  {
    if t == "" || IsBreak(t[0]) then 0 else 1 + BreakAt(t[1..])
  }

  /** The length of the first line, its break included. */
  function LineLen(t: string): (n: nat)
    ensures n <= |t| && (t != "" ==> n > 0)
  {
    var i := BreakAt(t);
    if i == |t| then i else if t[i] == '\r' && i + 1 < |t| && t[i + 1] == '\n' then i + 2 else i + 1
  }

  /** `text.splitlines(keepends=True)`. */
  function SplitLines(t: string): seq<string> {
    if t == "" then [] else [t[..LineLen(t)]] + SplitLines(t[LineLen(t)..])
  }

  /** `"".join(lines)`. */
  function Concat(lines: seq<string>): string {
    if lines == [] then "" else lines[0] + Concat(lines[1..])
  }

  predicate OneLine(l: string) { l != "" && LineLen(l) == |l| }

  /** `l` ends with a break that the next line does not complete to a longer one. */
  predicate EndsBefore(l: string, next: string) {
    l != "" && IsBreak(l[|l| - 1]) && !(l[|l| - 1] == '\r' && next != "" && next[0] == '\n')
  }

  /** Every element is one line, and all but the last end with a break. */
  predicate Proper(lines: seq<string>) {
    lines == [] || (OneLine(lines[0]) && (|lines| == 1 || EndsBefore(lines[0], lines[1])) && Proper(lines[1..]))
  }

  lemma BreakAtIs(t: string, i: nat)
    requires i <= |t| && (i < |t| ==> IsBreak(t[i])) && forall j :: 0 <= j < i ==> !IsBreak(t[j])
    ensures BreakAt(t) == i
  {
    var b := BreakAt(t);
    assert b < |t| ==> IsBreak(t[b]);
  }

  /** The first line of `l + rest` is `l` exactly if `l` is one line that ends before `rest`. */
  lemma FirstLine(l: string, rest: string)
    requires l != "" && rest != ""
    ensures LineLen(l + rest) == |l| <==> OneLine(l) && EndsBefore(l, rest)
  {
    var i, t := BreakAt(l), l + rest;
    assert forall j :: 0 <= j < |l| ==> t[j] == l[j];
    assert t[|l|] == rest[0];
    if i < |l| {
      BreakAtIs(t, i);
    } else {
      var k := BreakAt(t);
      assert k < |t| ==> IsBreak(t[k]);
    }
  }

  predicate NonEmpty(lines: seq<string>) { forall i :: 0 <= i < |lines| ==> lines[i] != "" }

  lemma ConcatStart(lines: seq<string>)
    requires lines != [] && NonEmpty(lines)
    ensures Concat(lines) != "" && Concat(lines)[0] == lines[0][0]
  {
  }

  lemma SplitHead(t: string)
    requires t != ""
    ensures SplitLines(t) == [t[..LineLen(t)]] + SplitLines(t[LineLen(t)..])
  {
  }

  lemma SplitOne(l: string)
    requires l != ""
    ensures SplitLines(l) == [l] <==> OneLine(l)
  {
    SplitHead(l);
    if OneLine(l) {
      assert l[..|l|] == l && l[|l|..] == "";
    }
  }

  lemma SplitMore(l: string, rest: string)
    requires l != "" && rest != ""
    ensures SplitLines(l + rest) == [l] + SplitLines(rest) <==> OneLine(l) && EndsBefore(l, rest)
  {
    var t := l + rest;
    FirstLine(l, rest);
    SplitHead(t);
    if LineLen(t) == |l| {
      assert t[..|l|] == l && t[|l|..] == rest;
    } else {
      assert SplitLines(t)[0] == t[..LineLen(t)];
      assert |SplitLines(t)[0]| != |l|;
    }
  }

  lemma ProperHead(lines: seq<string>)
    requires lines != []
    ensures Proper(lines) <==>
            OneLine(lines[0]) && (|lines| == 1 || EndsBefore(lines[0], lines[1])) && Proper(lines[1..])
  {
  }

  lemma SplitFirst(l: string, rest: string)
    requires l != "" && rest != "" && SplitLines(l + rest) != [] && SplitLines(l + rest)[0] == l
    ensures OneLine(l) && EndsBefore(l, rest)
  {
    SplitHead(l + rest);
    FirstLine(l, rest);
  }

  /** Breaking the joined lines gives them back exactly if they are proper. */
  lemma {:induction false} SplitConcat(lines: seq<string>)
    requires NonEmpty(lines)
    ensures SplitLines(Concat(lines)) == lines <==> Proper(lines)
  {
    if |lines| == 1 {
      assert Concat(lines) == lines[0] + "";
      SplitOne(lines[0]);
      assert Proper(lines) <==> OneLine(lines[0]);
    } else if lines != [] {
      var l, more := lines[0], lines[1..];
      var rest := Concat(more);
      SplitConcat(more);
      ConcatStart(more);
      SplitMore(l, rest);
      ProperHead(lines);
      assert EndsBefore(l, rest) <==> EndsBefore(l, lines[1]);
      hide SplitLines, OneLine, EndsBefore, Proper;
      assert lines == [l] + more;
      if SplitLines(l + rest) == lines {
        SplitFirst(l, rest);
        assert ([l] + more)[1..] == more && ([l] + SplitLines(rest))[1..] == SplitLines(rest);
      }
    }
  }

  lemma {:induction false} SplitNonEmpty(t: string)
    ensures NonEmpty(SplitLines(t))
    decreases |t|
  {
    if t != "" {
      SplitNonEmpty(t[LineLen(t)..]);
    }
  }

  lemma {:induction false} ConcatAppend(a: seq<string>, b: seq<string>)
    ensures Concat(a + b) == Concat(a) + Concat(b)
  {
    if a == [] {
      assert a + b == b;
    } else {
      assert (a + b)[1..] == a[1..] + b;
      ConcatAppend(a[1..], b);
    }
  }

  lemma {:induction false} ProperAppend(a: seq<string>, b: seq<string>)
    requires Proper(a) && Proper(b) && (a != [] && b != [] ==> EndsBefore(a[|a| - 1], b[0]))
    ensures Proper(a + b)
  {
    hide OneLine, EndsBefore;
    if a == [] {
      assert a + b == b;
    } else {
      assert (a + b)[1..] == a[1..] + b;
      ProperAppend(a[1..], b);
      ProperHead(a + b);
    }
  }

  lemma {:induction false} ProperInit(a: seq<string>)
    requires Proper(a) && a != []
    ensures Proper(a[..|a| - 1])
    ensures |a| > 1 ==> EndsBefore(a[|a| - 2], a[|a| - 1])
  {
    hide OneLine, EndsBefore;
    if |a| > 1 {
      ProperInit(a[1..]);
      assert a[..|a| - 1][1..] == a[1..][..|a| - 2];
      assert a[1..][|a| - 2] == a[|a| - 1];
      assert |a| > 2 ==> a[1..][|a| - 3] == a[|a| - 2];
      ProperHead(a[..|a| - 1]);
    }
  }

  lemma {:induction false} ConcatSplit(t: string)
    ensures Concat(SplitLines(t)) == t
    decreases |t|
  {
    if t != "" {
      var n := LineLen(t);
      ConcatSplit(t[n..]);
      hide LineLen;
      assert t[..n] + t[n..] == t;
      assert SplitLines(t)[1..] == SplitLines(t[n..]);
    }
  }

  /** A text is its lines joined, and they are proper. */
  lemma {:induction false} SplitProper(t: string)
    ensures Concat(SplitLines(t)) == t && Proper(SplitLines(t))
  {
    hide SplitLines, Concat, Proper;
    ConcatSplit(t);
    SplitNonEmpty(t);
    SplitConcat(SplitLines(t));
  }

  // ---------------------------------------------------------------- a line and its break

  /** `line.rstrip("\r\n")`. */
  function Body(l: string): (r: string)
    ensures r <= l
  {
    if l != "" && (l[|l| - 1] == '\r' || l[|l| - 1] == '\n') then Body(l[..|l| - 1]) else l
  }

  /** What `Body` drops. */
  function Ending(l: string): string { l[|Body(l)|..] }

  predicate NoBreak(t: string) { forall i :: 0 <= i < |t| ==> !IsBreak(t[i]) }

  /** The line without its break. */
  function Bare(l: string): string { l[..BreakAt(l)] }

  /** The breaks that `Body` drops. */
  predicate PlainBreak(e: string) { e == "" || e == "\n" || e == "\r" || e == "\r\n" }

  /** One line is its text and at most one break; an unusual break stays in the body. */
  lemma {:induction false} LineParts(l: string)
    requires OneLine(l)
    ensures NoBreak(Bare(l))
    ensures PlainBreak(l[|Bare(l)|..]) ==> Body(l) == Bare(l) && Ending(l) == l[|Bare(l)|..]
    ensures !PlainBreak(l[|Bare(l)|..]) ==>
            |l| == |Bare(l)| + 1 && IsBreak(l[|l| - 1]) && Body(l) == l && Ending(l) == ""
  {
    var n := BreakAt(l);
    assert l == l[..n] + l[n..];
    if n + 1 == |l| {
      assert l[n..] == [l[n]];
    } else if n < |l| {
      assert l[n..] == "\r\n";
    }
    if PlainBreak(l[n..]) {
      BodyOf(l[..n], l[n..]);
    }
  }

  lemma BodyOf(bare: string, e: string)
    requires NoBreak(bare) && PlainBreak(e)
    ensures Body(bare + e) == bare && Ending(bare + e) == e
  {
    var l := bare + e;
    if e == "\r\n" {
      assert l[..|l| - 1] == bare + "\r";
      assert (bare + "\r")[..|bare|] == bare;
      assert Body(bare + "\r") == bare;
    } else if e != "" {
      assert l[..|l| - 1] == bare;
    } else {
      assert l == bare;
    }
  }

  /** A text without breaks and an optional plain break are one line. */
  lemma LineOf(bare: string, e: string)
    requires NoBreak(bare) && PlainBreak(e) && bare + e != ""
    ensures OneLine(bare + e) && Bare(bare + e) == bare && Body(bare + e) == bare && Ending(bare + e) == e
  {
    var l := bare + e;
    assert forall j :: 0 <= j < |bare| ==> l[j] == bare[j];
    if e != "" {
      assert l[|bare|] == e[0];
    }
    BreakAtIs(l, |bare|);
    BodyOf(bare, e);
  }

  predicate UnusualBreak(c: char) { IsBreak(c) && c != '\r' && c != '\n' }

  /** A text without breaks and an unusual break are one line, and all of it is body. */
  lemma LineOfUnusual(bare: string, x: char)
    requires NoBreak(bare) && UnusualBreak(x)
    ensures var l := bare + [x]; OneLine(l) && Bare(l) == bare && Body(l) == l && Ending(l) == ""
  {
    var l := bare + [x];
    assert forall j :: 0 <= j < |bare| ==> l[j] == bare[j];
    assert l[|bare|] == x && l[..|bare|] == bare;
    BreakAtIs(l, |bare|);
  }

  lemma NoBreakConcat(a: string, b: string)
    ensures NoBreak(a + b) <==> NoBreak(a) && NoBreak(b)
  {
    assert forall i :: 0 <= i < |a| ==> (a + b)[i] == a[i];
    assert forall i :: 0 <= i < |b| ==> (a + b)[|a| + i] == b[i];
  }

  // ---------------------------------------------------------------- assignments

  predicate IsLetter(c: char) { 'a' <= c <= 'z' || 'A' <= c <= 'Z' || c == '_' }

  predicate IsWord(c: char) { IsLetter(c) || '0' <= c <= '9' }

  /** Past the white space at `i`. */
  function SkipSpaces(t: string, i: nat): (j: nat)
    requires i <= |t|
    ensures i <= j <= |t|
    ensures j < |t| ==> !IsSpace(t[j])
    ensures forall k :: i <= k < j ==> IsSpace(t[k])
    decreases |t| - i
  {
    if i < |t| && IsSpace(t[i]) then SkipSpaces(t, i + 1) else i
  }

  /** Past the word at `i`. */
  function SkipWord(t: string, i: nat): (j: nat)
    requires i <= |t|
    ensures i <= j <= |t|
    ensures j < |t| ==> !IsWord(t[j])
    ensures forall k :: i <= k < j ==> IsWord(t[k])
    decreases |t| - i
  {
    if i < |t| && IsWord(t[i]) then SkipWord(t, i + 1) else i
  }

  const EXPORT := "export"

  /** `export`, white space and the start of a name, at `a`. */
  predicate ExportAt(t: string, a: nat) {
    && a + 6 < |t| && t[a..a + 6] == EXPORT && IsSpace(t[a + 6])
    && SkipSpaces(t, a + 6) < |t| && IsLetter(t[SkipSpaces(t, a + 6)])
  }

  /** The name's place and the place of the `=`. */
  datatype Key = Key(start: nat, end: nat, equals: nat)

  /** `\s*(?:export\s+)?NAME\s*=`, at the start of the line. */
  function FindKey(t: string): (k: Option<Key>)
    ensures k.Some? ==> k.value.start < k.value.end <= k.value.equals < |t| && t[k.value.equals] == '='
  {
    var a := SkipSpaces(t, 0);
    var b := if ExportAt(t, a) then SkipSpaces(t, a + 6) else a;
    if b < |t| && IsLetter(t[b]) then
      var e := SkipWord(t, b);
      var q := SkipSpaces(t, e);
      if q < |t| && t[q] == '=' then Some(Key(b, e, q)) else None
    else None
  }

  /** The texts agree on their first `m` characters. */
  predicate Agree(t: string, u: string, m: nat) { m <= |t| && m <= |u| && forall i :: 0 <= i < m ==> t[i] == u[i] }

  lemma SkipSpacesLocal(t: string, u: string, m: nat, i: nat)
    requires Agree(t, u, m) && i <= |t| && SkipSpaces(t, i) < m
    ensures SkipSpaces(u, i) == SkipSpaces(t, i)
  {
    var j, k := SkipSpaces(t, i), SkipSpaces(u, i);
    assert u[j] == t[j];
    assert k < m ==> u[k] == t[k];
  }

  lemma SkipWordLocal(t: string, u: string, m: nat, i: nat)
    requires Agree(t, u, m) && i <= |t| && SkipWord(t, i) < m
    ensures SkipWord(u, i) == SkipWord(t, i)
  {
    var j, k := SkipWord(t, i), SkipWord(u, i);
    assert u[j] == t[j];
    assert k < m ==> u[k] == t[k];
  }

  lemma ExportLocal(t: string, u: string, m: nat, a: nat)
    requires Agree(t, u, m) && ExportAt(t, a) && SkipSpaces(t, a + 6) < m
    ensures ExportAt(u, a) && SkipSpaces(u, a + 6) == SkipSpaces(t, a + 6)
  {
    SkipSpacesLocal(t, u, m, a + 6);
    assert u[a..a + 6] == t[a..a + 6];
  }

  lemma SkipWordIs(t: string, i: nat, j: nat)
    requires i <= j <= |t| && (j < |t| ==> !IsWord(t[j])) && forall k :: i <= k < j ==> IsWord(t[k])
    ensures SkipWord(t, i) == j
  {
    var w := SkipWord(t, i);
    assert w < |t| ==> !IsWord(t[w]);
  }

  /** A name that is followed by `=` is not taken for `export`. */
  lemma NoExport(t: string, a: nat)
    requires a <= |t| && SkipSpaces(t, SkipWord(t, a)) < |t| && t[SkipSpaces(t, SkipWord(t, a))] == '='
    ensures !ExportAt(t, a)
  {
    if a + 6 < |t| && t[a..a + 6] == EXPORT && IsSpace(t[a + 6]) {
      assert forall k :: a <= k < a + 6 ==> t[k] == EXPORT[k - a];
      SkipWordIs(t, a, a + 6);
    }
  }

  /** What a line assigns to is settled by its text up to the `=`. */
  lemma {:induction false} KeyLocal(t: string, u: string, m: nat)
    requires FindKey(t).Some? && FindKey(t).value.equals < m && Agree(t, u, m)
    ensures FindKey(u) == FindKey(t)
  {
    hide IsSpace, IsLetter, IsWord, SkipSpaces, SkipWord, ExportAt;
    var k := FindKey(t).value;
    var a := SkipSpaces(t, 0);
    SkipSpacesLocal(t, u, m, 0);
    if ExportAt(t, a) {
      ExportLocal(t, u, m, a);
    } else {
      SkipWordLocal(t, u, m, a);
      SkipSpacesLocal(t, u, m, k.end);
      NoExport(u, a);
    }
    SkipWordLocal(t, u, m, k.start);
    SkipSpacesLocal(t, u, m, k.end);
    assert u[k.start] == t[k.start] && u[k.equals] == t[k.equals];
  }

  // ---------------------------------------------------------------- what precedes a value

  predicate GoodName(n: string) { n != "" && IsLetter(n[0]) && forall i :: 0 <= i < |n| ==> IsWord(n[i]) }

  predicate Blank(w: string) { forall i :: 0 <= i < |w| ==> IsSpace(w[i]) }

  /** Nothing, or `export` and white space. */
  predicate ExportPart(x: string) { x == "" || (|x| > 6 && x[..6] == "export" && Blank(x[6..])) }

  /** Up to `m`, `t` holds `w` from `i` on. */
  predicate HoldsAt(t: string, i: nat, w: string) { i + |w| <= |t| && forall k :: 0 <= k < |w| ==> t[i + k] == w[k] }

  lemma SpaceIsNoWord(c: char)
    ensures IsSpace(c) ==> !IsWord(c)
    ensures IsWord(c) || c == '=' || c == '#' ==> !IsSpace(c)
  {
  }

  lemma SkipsBlank(t: string, i: nat, w: string)
    requires HoldsAt(t, i, w) && Blank(w) && (i + |w| < |t| ==> !IsSpace(t[i + |w|]))
    ensures SkipSpaces(t, i) == i + |w|
  {
    assert forall k :: i <= k < i + |w| ==> t[k] == w[k - i];
    SkipSpacesIs(t, i, i + |w|);
  }

  /** From a name on: the name, white space, `=` and white space to the end. */
  lemma NameThenEquals(t: string, b: nat, name: string, w: string, v: string)
    requires GoodName(name) && Blank(w) && Blank(v) && |t| == b + |name| + |w| + 1 + |v|
    requires HoldsAt(t, b, name) && HoldsAt(t, b + |name|, w)
    requires t[b + |name| + |w|] == '=' && HoldsAt(t, b + |name| + |w| + 1, v)
    ensures IsLetter(t[b]) && SkipWord(t, b) == b + |name| && t[b..b + |name|] == name
    ensures SkipSpaces(t, b + |name|) == b + |name| + |w| && SkipSpaces(t, b + |name| + |w| + 1) == |t|
  {
    var e := b + |name|;
    assert t[b] == name[0];
    assert forall k :: b <= k < e ==> t[k] == name[k - b];
    SpaceIsNoWord(t[e]);
    assert t[e] == if w == "" then '=' else w[0];
    SkipWordIs(t, b, e);
    SpaceIsNoWord('=');
    SkipsBlank(t, e, w);
    SkipsBlank(t, e + |w| + 1, v);
  }

  /** Where the parts of a head stand. */
  lemma HeadPlaces(indent: string, x: string, name: string, w: string, v: string)
    ensures var t, a, b := indent + x + name + w + "=" + v, |indent|, |indent| + |x|;
            && |t| == b + |name| + |w| + 1 + |v|
            && HoldsAt(t, 0, indent) && HoldsAt(t, a, x) && HoldsAt(t, b, name) && HoldsAt(t, b + |name|, w)
            && t[b + |name| + |w|] == '=' && HoldsAt(t, b + |name| + |w| + 1, v)
  {
  }

  lemma KeyAt(t: string, a: nat, b: nat, e: nat, q: nat)
    requires a < |t| && SkipSpaces(t, 0) == a && b == if ExportAt(t, a) then SkipSpaces(t, a + 6) else a
    requires b < |t| && IsLetter(t[b]) && SkipWord(t, b) == e && SkipSpaces(t, e) == q < |t| && t[q] == '='
    ensures FindKey(t) == Some(Key(b, e, q))
  {
    hide SkipSpaces, SkipWord, ExportAt, IsLetter;
  }

  lemma HeadAt(t: string, indent: string, x: string, name: string, w: string, v: string)
    requires Blank(indent) && ExportPart(x) && GoodName(name) && Blank(w) && Blank(v)
    requires |t| == |indent| + |x| + |name| + |w| + 1 + |v|
    requires HoldsAt(t, 0, indent) && HoldsAt(t, |indent|, x) && HoldsAt(t, |indent| + |x|, name)
    requires HoldsAt(t, |indent| + |x| + |name|, w) && t[|indent| + |x| + |name| + |w|] == '='
    requires HoldsAt(t, |indent| + |x| + |name| + |w| + 1, v)
    ensures IsHead(t, name)
  {
    hide HoldsAt, SkipWord, SkipSpaces, FindKey, IsSpace, IsLetter, IsWord, Blank, GoodName;
    var a, b := |indent|, |indent| + |x|;
    NameThenEquals(t, b, name, w, v);
    HoldsStart(t, a, x, b, name);
    SkipsBlank(t, 0, indent);
    if x == "" {
      NoExport(t, a);
    } else {
      HoldsRest(t, a, x, 6);
      ExportHeld(t, a, x);
      SkipsBlank(t, a + 6, x[6..]);
    }
    KeyAt(t, a, b, b + |name|, b + |name| + |w|);
  }

  /** Any indent, `export` or not, a name and an `=`, with any white space, are a head. */
  lemma {:induction false} HeadBuilt(indent: string, x: string, name: string, w: string, v: string)
    requires Blank(indent) && ExportPart(x) && GoodName(name) && Blank(w) && Blank(v)
    ensures IsHead(indent + x + name + w + "=" + v, name)
  {
    hide HoldsAt, Blank, ExportPart, GoodName, IsHead;
    HeadPlaces(indent, x, name, w, v);
    HeadAt(indent + x + name + w + "=" + v, indent, x, name, w, v);
  }

  lemma HoldsStart(t: string, a: nat, x: string, b: nat, name: string)
    requires ExportPart(x) && GoodName(name) && HoldsAt(t, a, x) && HoldsAt(t, b, name) && b == a + |x|
    ensures a < |t| && b < |t| && IsWord(t[b]) && !IsSpace(t[b]) && !IsSpace(t[a])
  {
    assert t[b] == name[0];
    if x != "" {
      assert t[a] == x[0] == x[..6][0];
    }
  }

  lemma HoldsRest(t: string, i: nat, w: string, n: nat)
    requires HoldsAt(t, i, w) && n <= |w|
    ensures HoldsAt(t, i + n, w[n..])
  {
    forall k | 0 <= k < |w| - n ensures t[i + n + k] == w[n..][k] {
      assert w[n..][k] == w[n + k];
    }
  }

  lemma ExportHeld(t: string, a: nat, x: string)
    requires |x| > 6 && x[..6] == "export" && Blank(x[6..]) && HoldsAt(t, a, x) && a + |x| < |t|
    ensures t[a..a + 6] == EXPORT && IsSpace(t[a + 6])
  {
    assert forall k :: 0 <= k < 6 ==> t[a + k] == x[k] && x[k] == x[..6][k];
    assert t[a + 6] == x[6] == x[6..][0];
  }

  /** And a head is nothing else. */
  lemma {:induction false} HeadTaken(head: string, name: string)
    returns (indent: string, x: string, w: string, v: string)
    requires IsHead(head, name)
    ensures Blank(indent) && ExportPart(x) && GoodName(name) && Blank(w) && Blank(v)
    ensures head == indent + x + name + w + "=" + v
  {
    hide SkipSpaces, SkipWord, ExportAt, IsSpace, IsLetter, IsWord, Blank, ExportPart, GoodName;
    KeyPlaces(head);
    var k := FindKey(head).value;
    assert head[k.start..k.end] == name && SkipSpaces(head, k.equals + 1) == |head|;
    hide FindKey, IsHead;
    var a := SkipSpaces(head, 0);
    ExportOrNot(head, a, k.start);
    SkippedBlank(head, 0);
    SkippedName(head, k.start);
    SkippedBlank(head, k.end);
    SkippedBlank(head, k.equals + 1);
    Slices(head, a, k.start, k.end, k.equals);
    return head[0..a], head[a..k.start], head[k.end..k.equals], head[k.equals + 1..|head|];
  }

  lemma Slices(t: string, a: nat, b: nat, e: nat, q: nat)
    requires a <= b <= e <= q < |t| && t[q] == '='
    ensures t == t[0..a] + t[a..b] + t[b..e] + t[e..q] + "=" + t[q + 1..|t|]
  {
    assert t[0..a] + t[a..b] == t[0..b];
    assert t[0..b] + t[b..e] == t[0..e];
    assert t[0..e] + t[e..q] == t[0..q];
    assert t[0..q] + "=" == t[0..q + 1];
  }

  lemma SkippedBlank(t: string, i: nat)
    requires i <= |t|
    ensures Blank(t[i..SkipSpaces(t, i)])
  {
    hide IsSpace;
    var w := t[i..SkipSpaces(t, i)];
    assert forall k :: 0 <= k < |w| ==> w[k] == t[i + k];
  }

  lemma SkippedName(t: string, b: nat)
    requires b < |t| && IsLetter(t[b])
    ensures b < SkipWord(t, b) && GoodName(t[b..SkipWord(t, b)])
  {
    var n := t[b..SkipWord(t, b)];
    assert forall k :: 0 <= k < |n| ==> n[k] == t[b + k];
  }

  lemma ExportTaken(t: string, a: nat)
    requires ExportAt(t, a)
    ensures a <= SkipSpaces(t, a + 6) && ExportPart(t[a..SkipSpaces(t, a + 6)])
  {
    hide IsSpace, IsLetter, Blank;
    var x := t[a..SkipSpaces(t, a + 6)];
    SkippedBlank(t, a + 6);
    assert x[..6] == t[a..a + 6] && x[6..] == t[a + 6..SkipSpaces(t, a + 6)];
  }

  lemma KeyPlaces(t: string)
    requires FindKey(t).Some?
    ensures var k, a := FindKey(t).value, SkipSpaces(t, 0);
            && k.start == (if ExportAt(t, a) then SkipSpaces(t, a + 6) else a)
            && IsLetter(t[k.start]) && k.end == SkipWord(t, k.start) && k.equals == SkipSpaces(t, k.end)
  {
    hide ExportAt, IsLetter;
  }

  lemma ExportOrNot(t: string, a: nat, b: nat)
    requires a <= |t| && b == if ExportAt(t, a) then SkipSpaces(t, a + 6) else a
    ensures a <= b <= |t| && ExportPart(t[a..b])
  {
    hide ExportAt, SkipSpaces, Blank;
    if ExportAt(t, a) {
      ExportTaken(t, a);
    } else {
      assert t[a..a] == "";
    }
  }

  // ---------------------------------------------------------------- the value and the comment

  /** Nothing, or a comment: white space, `#` and the rest of the line. */
  predicate TailAt(t: string, i: nat)
    requires i <= |t|
  {
    i == |t| || (IsSpace(t[i]) && SkipSpaces(t, i) < |t| && t[SkipSpaces(t, i)] == '#')
  }

  /** Past the closing quote of `"(?:[^"\\]|\\.)*"`, from inside it. */
  function CloseDouble(t: string, i: nat): (e: Option<nat>)
    ensures e.Some? ==> i < e.value <= |t|
    decreases |t| - i
  {
    if i >= |t| then None
    else if t[i] == '"' then Some(i + 1)
    else if t[i] == '\\' then (if i + 1 < |t| then CloseDouble(t, i + 2) else None)
    else CloseDouble(t, i + 1)
  }

  function CloseSingle(t: string, i: nat): (e: Option<nat>)
    ensures e.Some? ==> i < e.value <= |t|
    decreases |t| - i
  {
    if i >= |t| then None else if t[i] == '\'' then Some(i + 1) else CloseSingle(t, i + 1)
  }

  /** The shortest text that leaves nothing or a comment. */
  function PlainEnd(t: string, i: nat): (e: nat)
    requires i <= |t|
    ensures i <= e <= |t| && TailAt(t, e)
    ensures forall k :: i <= k < e ==> !TailAt(t, k)
    decreases |t| - i
  {
    if TailAt(t, i) then i else PlainEnd(t, i + 1)
  }

  /** Where the value at `d` ends: a quoted text if nothing or a comment follows it, else the plain one. */
  function ValueEnd(t: string, d: nat): (e: nat)
    requires d <= |t|
    ensures d <= e <= |t| && TailAt(t, e)
  {
    var quoted :=
      if d < |t| && t[d] == '"' then CloseDouble(t, d + 1)
      else if d < |t| && t[d] == '\'' then CloseSingle(t, d + 1)
      else None;
    if quoted.Some? && TailAt(t, quoted.value) then quoted.value else PlainEnd(t, d)
  }

  datatype Assignment = Assignment(name: string, head: string, value: string, comment: string)

  /** `ASSIGNMENT_LINE.fullmatch`. */
  function Parse(t: string): Option<Assignment> {
    var k := FindKey(t);
    if k.None? then None
    else
      var d := SkipSpaces(t, k.value.equals + 1);
      var e := ValueEnd(t, d);
      Some(Assignment(t[k.value.start..k.value.end], t[..d], t[d..e], t[e..]))
  }

  /** `head` is all that precedes a value assigned to `name`. */
  predicate IsHead(head: string, name: string) {
    var k := FindKey(head);
    && k.Some? && head[k.value.start..k.value.end] == name
    && SkipSpaces(head, k.value.equals + 1) == |head|
  }

  predicate IsTail(c: string) { TailAt(c, 0) }

  /**
   * A value that stands for itself: one line, not empty, with no white space at its ends and none before a `#`, and not
   * begun with a quote.
   */
  predicate GoodValue(v: string) {
    && v != "" && NoBreak(v) && !IsSpace(v[0]) && !IsSpace(v[|v| - 1]) && v[0] != '"' && v[0] != '\''
    && forall i :: 0 <= i < |v| ==> !TailAt(v, i)
  }

  /** A value without white space and quotes stands for itself. */
  lemma PlainValueGood(v: string)
    requires v != "" && forall i :: 0 <= i < |v| ==> !IsSpace(v[i]) && v[i] != '"' && v[i] != '\''
    ensures GoodValue(v)
  {
    assert forall c: char :: IsBreak(c) ==> IsSpace(c);
  }

  lemma SkipSpacesIs(t: string, i: nat, j: nat)
    requires i <= j <= |t| && (j < |t| ==> !IsSpace(t[j])) && forall k :: i <= k < j ==> IsSpace(t[k])
    ensures SkipSpaces(t, i) == j
  {
    var s := SkipSpaces(t, i);
    assert s < |t| ==> !IsSpace(t[s]);
  }

  lemma TailShifts(t: string, i: nat, c: string)
    requires i <= |t| && t[i..] == c
    ensures TailAt(t, i) <==> IsTail(c)
  {
    if c != "" {
      assert t[i] == c[0];
      var j := SkipSpaces(c, 0);
      assert forall k :: 0 <= k < |c| ==> t[i + k] == c[k];
      assert forall k :: i <= k < i + j ==> t[k] == c[k - i];
      SkipSpacesIs(t, i, i + j);
    }
  }

  lemma SliceOfPrefix(t: string, d: nat, a: nat, b: nat)
    requires a <= b <= d <= |t|
    ensures t[..d][a..b] == t[a..b]
  {
  }

  lemma PrefixAgrees(t: string, d: nat, m: nat)
    requires m <= d <= |t|
    ensures Agree(t, t[..d], m)
  {
  }

  lemma SpacesOfPrefix(t: string, i: nat)
    requires i <= |t|
    ensures SkipSpaces(t[..SkipSpaces(t, i)], i) == SkipSpaces(t, i)
  {
    var d := SkipSpaces(t, i);
    assert forall k :: i <= k < d ==> t[..d][k] == t[k];
    SkipSpacesIs(t[..d], i, d);
  }

  lemma KeyedHead(head: string, name: string, k: Key)
    requires FindKey(head) == Some(k) && head[k.start..k.end] == name && SkipSpaces(head, k.equals + 1) == |head|
    ensures IsHead(head, name)
  {
    hide FindKey, SkipSpaces;
  }

  lemma HeadOf(t: string)
    requires FindKey(t).Some?
    ensures var k := FindKey(t).value; IsHead(t[..SkipSpaces(t, k.equals + 1)], t[k.start..k.end])
  {
    hide FindKey, SkipSpaces, IsSpace, Agree, IsHead;
    var k := FindKey(t).value;
    var d := SkipSpaces(t, k.equals + 1);
    var head := t[..d];
    PrefixAgrees(t, d, k.equals + 1);
    KeyLocal(t, head, k.equals + 1);
    SpacesOfPrefix(t, k.equals + 1);
    SliceOfPrefix(t, d, k.start, k.end);
    KeyedHead(head, t[k.start..k.end], k);
  }

  /** A line that assigns is its head, its value and its comment. */
  lemma {:induction false} ParseParts(t: string)
    requires Parse(t).Some?
    ensures var a := Parse(t).value; t == a.head + a.value + a.comment && IsHead(a.head, a.name) && IsTail(a.comment)
  {
    hide FindKey, SkipSpaces, ValueEnd, IsHead;
    var k := FindKey(t).value;
    var e := ValueEnd(t, SkipSpaces(t, k.equals + 1));
    HeadOf(t);
    TailShifts(t, e, t[e..]);
  }

  lemma PlainEndIs(t: string, d: nat, e: nat)
    requires d <= e <= |t| && TailAt(t, e) && forall k :: d <= k < e ==> !TailAt(t, k)
    ensures PlainEnd(t, d) == e
  {
    var p := PlainEnd(t, d);
    assert TailAt(t, p);
  }

  lemma KeyOfBuilt(head: string, name: string, t: string)
    requires IsHead(head, name) && |head| < |t| && t[..|head|] == head && !IsSpace(t[|head|])
    ensures FindKey(t) == FindKey(head) && SkipSpaces(t, FindKey(head).value.equals + 1) == |head|
  {
    assert forall i :: 0 <= i < |head| ==> t[i] == t[..|head|][i] == head[i];
    KeyLocal(head, t, |head|);
    hide FindKey;
    SkipSpacesIs(t, FindKey(head).value.equals + 1, |head|);
  }

  /** Inside a value that does not end with white space, a comment begins only where the value has one. */
  lemma TailInside(t: string, d: nat, e: nat, i: nat)
    requires d <= i < e <= |t| && !IsSpace(t[e - 1])
    ensures TailAt(t, i) <==> TailAt(t[d..e], i - d)
  {
    var v := t[d..e];
    var j := SkipSpaces(v, i - d);
    assert forall k :: 0 <= k < |v| ==> v[k] == t[d + k];
    assert v[|v| - 1] == t[e - 1];
    assert forall k :: i <= k < d + j ==> t[k] == v[k - d];
    SkipSpacesIs(t, i, d + j);
  }

  lemma ValueOfBuilt(t: string, d: nat, e: nat)
    requires d < e <= |t| && GoodValue(t[d..e]) && TailAt(t, e)
    ensures ValueEnd(t, d) == e
  {
    var v := t[d..e];
    assert t[d] == v[0] && t[e - 1] == v[|v| - 1];
    forall k | d <= k < e ensures !TailAt(t, k) {
      TailInside(t, d, e, k);
      assert !TailAt(v, k - d);
    }
    PlainEndIs(t, d, e);
  }

  /** A head, a good value and a comment are read back as they are. */
  lemma Builds(head: string, name: string, v: string, c: string)
    requires IsHead(head, name) && GoodValue(v) && IsTail(c)
    ensures Parse(head + v + c) == Some(Assignment(name, head, v, c))
  {
    hide FindKey, SkipSpaces, ValueEnd, TailAt, IsSpace;
    var t, d, e := head + v + c, |head|, |head| + |v|;
    assert t[..d] == head && t[d..e] == v && t[e..] == c;
    assert t[d] == v[0];
    KeyOfBuilt(head, name, t);
    TailShifts(t, e, c);
    ValueOfBuilt(t, d, e);
    var k := FindKey(head).value;
    assert t[k.start..k.end] == t[..d][k.start..k.end];
  }

  /** Past white space at the end of the line, the same name is assigned to, if any. */
  lemma KeyBeforeSpace(t: string, x: char)
    requires IsSpace(x)
    ensures FindKey(t + [x]) == FindKey(t)
  {
    var u := t + [x];
    if FindKey(t).Some? {
      KeyLocal(t, u, FindKey(t).value.equals + 1);
    } else if FindKey(u).Some? {
      var q := FindKey(u).value.equals;
      assert q < |t|;
      KeyLocal(u, t, q + 1);
    }
  }

  // ---------------------------------------------------------------- reading a line

  function TrimEnd(t: string): string {
    if t != "" && IsSpace(t[|t| - 1]) then TrimEnd(t[..|t| - 1]) else t
  }

  /** `str.strip`. */
  function Strip(t: string): string { TrimEnd(t[SkipSpaces(t, 0)..]) }

  /** Without the quotes around it. */
  function Unquote(v: string): string {
    if |v| >= 2 && v[0] == v[|v| - 1] && (v[0] == '\'' || v[0] == '"') then v[1..|v| - 1] else v
  }

  datatype Setting = Setting(name: string, value: string)

  /** What a line, without its break, sets. */
  function Reads(bare: string): Option<Setting> {
    var a := Parse(bare);
    if a.None? then None else Some(Setting(a.value.name, Unquote(Strip(a.value.value))))
  }

  lemma GoodReads(v: string)
    requires GoodValue(v)
    ensures Strip(v) == v && Unquote(v) == v
  {
    SkipSpacesIs(v, 0, 0);
    assert v[0..] == v;
  }

  lemma BuildsReads(head: string, name: string, v: string, c: string)
    requires IsHead(head, name) && GoodValue(v) && IsTail(c)
    ensures Reads(head + v + c) == Some(Setting(name, v))
  {
    Builds(head, name, v, c);
    GoodReads(v);
    hide Parse, Strip, Unquote;
  }

  /** `NAME=` is a head. */
  lemma NameIsHead(n: string)
    requires GoodName(n)
    ensures IsHead(n + "=", n)
  {
    var h := n + "=";
    assert forall i :: 0 <= i < |n| ==> h[i] == n[i];
    assert h[|n|] == '=';
    SkipSpacesIs(h, 0, 0);
    var e := SkipWord(h, 0);
    assert e == |n|;
    SkipSpacesIs(h, |n|, |n|);
    NoExport(h, 0);
    assert h[0..|n|] == n;
    SkipSpacesIs(h, |n| + 1, |n| + 1);
  }

  // ---------------------------------------------------------------- values in quotes

  /** What may stand between double quotes: a quote only behind a backslash, and no backslash alone at the end. */
  predicate DoubleBody(v: string) {
    v == "" || if v[0] == '\\' then |v| > 1 && DoubleBody(v[2..]) else v[0] != '"' && DoubleBody(v[1..])
  }

  predicate SingleBody(v: string) { '\'' !in v }

  lemma {:induction false} ClosesDouble(t: string, i: nat, v: string)
    requires DoubleBody(v) && HoldsAt(t, i, v) && i + |v| < |t| && t[i + |v|] == '"'
    ensures CloseDouble(t, i) == Some(i + |v| + 1)
    decreases |v|
  {
    if v != "" {
      assert t[i] == v[0];
      if v[0] == '\\' {
        HoldsRest(t, i, v, 2);
        ClosesDouble(t, i + 2, v[2..]);
      } else {
        HoldsRest(t, i, v, 1);
        ClosesDouble(t, i + 1, v[1..]);
      }
    }
  }

  lemma {:induction false} ClosesSingle(t: string, i: nat, v: string)
    requires SingleBody(v) && HoldsAt(t, i, v) && i + |v| < |t| && t[i + |v|] == '\''
    ensures CloseSingle(t, i) == Some(i + |v| + 1)
    decreases |v|
  {
    if v != "" {
      assert t[i] == v[0];
      HoldsRest(t, i, v, 1);
      assert forall k :: 0 <= k < |v[1..]| ==> v[1..][k] in v;
      ClosesSingle(t, i + 1, v[1..]);
    }
  }

  lemma QuotedReads(v: string, q: char)
    requires q == '"' || q == '\''
    ensures Unquote(Strip([q] + v + [q])) == v
  {
    var u := [q] + v + [q];
    assert !IsSpace(q);
    SkipSpacesIs(u, 0, 0);
    assert u[0..] == u && u[|u| - 1] == q && u[1..|u| - 1] == v;
  }

  lemma QuotedEnd(t: string, d: nat, v: string, q: char)
    requires (q == '"' && DoubleBody(v)) || (q == '\'' && SingleBody(v))
    requires d + |v| + 2 <= |t| && t[d] == q && HoldsAt(t, d + 1, v) && t[d + 1 + |v|] == q && TailAt(t, d + |v| + 2)
    ensures ValueEnd(t, d) == d + |v| + 2
  {
    hide TailAt, DoubleBody, SingleBody, HoldsAt;
    if q == '"' {
      ClosesDouble(t, d + 1, v);
    } else {
      ClosesSingle(t, d + 1, v);
    }
  }

  lemma QuoteIsNoSpace(q: char)
    requires q == '"' || q == '\''
    ensures !IsSpace(q)
  {
  }

  lemma QuotedTail(t: string, d: nat, v: string, q: char, c: string)
    requires d <= |t| && t[d..] == [q] + v + [q] + c && IsTail(c)
    ensures HoldsAt(t, d + 1, v) && t[d + 1 + |v|] == q && TailAt(t, d + |v| + 2)
  {
    hide TailAt;
    var u := [q] + v + [q] + c;
    assert forall k :: 0 <= k < |u| ==> t[d + k] == t[d..][k] == u[k];
    assert t[d + |v| + 2..] == t[d..][|v| + 2..] == c;
    TailShifts(t, d + |v| + 2, c);
  }

  lemma ParseIs(t: string, name: string, d: nat, e: nat)
    requires FindKey(t).Some? && t[FindKey(t).value.start..FindKey(t).value.end] == name
    requires SkipSpaces(t, FindKey(t).value.equals + 1) == d && ValueEnd(t, d) == e
    ensures Parse(t) == Some(Assignment(name, t[..d], t[d..e], t[e..]))
  {
    hide FindKey, SkipSpaces, ValueEnd;
  }

  lemma ReadsIs(t: string)
    requires Parse(t).Some?
    ensures Reads(t) == Some(Setting(Parse(t).value.name, Unquote(Strip(Parse(t).value.value))))
  {
    hide Parse, Unquote, Strip;
  }

  /** A value in quotes, which may hold white space and `#`, is read without them; the line keeps them. */
  lemma {:induction false} ReadsQuoted(head: string, name: string, v: string, q: char, c: string)
    requires IsHead(head, name) && IsTail(c)
    requires (q == '"' && DoubleBody(v)) || (q == '\'' && SingleBody(v))
    ensures Parse(head + ([q] + v + [q]) + c) == Some(Assignment(name, head, [q] + v + [q], c))
    ensures Reads(head + ([q] + v + [q]) + c) == Some(Setting(name, v))
  {
    hide *;
    var u := [q] + v + [q];
    var t, d, e := head + u + c, |head|, |head| + |u|;
    assert t[..d] == head && t[d..e] == u && t[e..] == c;
    assert t[d] == q && t[e - 1] == q;
    QuoteIsNoSpace(q);
    KeyOfBuilt(head, name, t);
    KeyOfHead(head, name, t);
    assert t[d..] == [q] + v + [q] + c;
    QuotedTail(t, d, v, q, c);
    QuotedEnd(t, d, v, q);
    ParseIs(t, name, d, e);
    QuotedReads(v, q);
    ReadsIs(t);
  }

  /** Other values keep their quotes. */
  lemma UnquoteOnly(v: string)
    requires forall w :: v != "\"" + w + "\"" && v != "'" + w + "'"
    ensures Unquote(v) == v
  {
    if |v| >= 2 && v[0] == v[|v| - 1] {
      var w := v[1..|v| - 1];
      assert v == [v[0]] + w + [v[0]];
    }
  }

  lemma {:induction false} TrimsBlank(v: string, w: string)
    requires v != "" && !IsSpace(v[|v| - 1]) && Blank(w)
    ensures TrimEnd(v + w) == v
  {
    var t := v + w;
    if w == "" {
      assert t == v;
    } else {
      assert t[|t| - 1] == w[|w| - 1] && t[..|t| - 1] == v + w[..|w| - 1];
      TrimsBlank(v, w[..|w| - 1]);
    }
  }

  lemma NoTailBefore(t: string, d: nat, v: string, w: string, k: nat)
    requires d <= |t| && t[d..] == v + w && GoodValue(v) && Blank(w) && d <= k < |t|
    ensures !TailAt(t, k)
  {
    var e := d + |v|;
    assert forall i :: 0 <= i < |v| ==> t[d + i] == t[d..][i] == v[i];
    assert forall i :: 0 <= i < |w| ==> t[e + i] == t[d..][|v| + i] == w[i];
    if k < e {
      assert t[d..e] == v;
      assert t[e - 1] == v[|v| - 1];
      TailInside(t, d, e, k);
    } else {
      SkipSpacesIs(t, k, |t|);
    }
  }

  /** White space behind a value is no part of it. */
  lemma {:induction false} ReadsTrimmed(head: string, name: string, v: string, w: string)
    requires IsHead(head, name) && GoodValue(v) && Blank(w)
    ensures Reads(head + (v + w)) == Some(Setting(name, v))
  {
    var t, d := head + (v + w), |head|;
    assert t[..d] == head && t[d..] == v + w && t[d] == v[0];
    hide FindKey, SkipSpaces, TailAt, IsHead;
    KeyOfBuilt(head, name, t);
    KeyOfHead(head, name, t);
    forall k | d <= k < |t| ensures !TailAt(t, k) {
      NoTailBefore(t, d, v, w, k);
    }
    EndOfPlain(t, d);
    ParseIs(t, name, d, |t|);
    assert t[d..|t|] == v + w;
    TrimsBlank(v, w);
    GoodReads(v);
    StripsStart(v + w);
    ReadsIs(t);
  }

  lemma StripsStart(u: string)
    requires u != "" && !IsSpace(u[0])
    ensures Strip(u) == TrimEnd(u)
  {
    SkipSpacesIs(u, 0, 0);
    assert u[0..] == u;
  }

  lemma EndOfPlain(t: string, d: nat)
    requires d < |t| && t[d] != '"' && t[d] != '\'' && forall k :: d <= k < |t| ==> !TailAt(t, k)
    ensures ValueEnd(t, d) == |t|
  {
    assert TailAt(t, |t|);
    hide TailAt;
    PlainEndIs(t, d, |t|);
  }

  // ---------------------------------------------------------------- empty values

  lemma {:induction false} TrimKeepsStart(t: string)
    requires t != "" && !IsSpace(t[0])
    ensures TrimEnd(t) != "" && TrimEnd(t)[0] == t[0]
  {
    if IsSpace(t[|t| - 1]) {
      TrimKeepsStart(t[..|t| - 1]);
    }
  }

  lemma HashReads(v: string)
    requires v != "" && v[0] == '#'
    ensures Unquote(Strip(v)) != ""
  {
    SkipSpacesIs(v, 0, 0);
    assert v[0..] == v;
    TrimKeepsStart(v);
  }

  lemma KeyOfHead(head: string, name: string, t: string)
    requires IsHead(head, name) && |head| <= |t| && t[..|head|] == head
    ensures FindKey(t) == FindKey(head) && FindKey(t).Some?
    ensures t[FindKey(t).value.start..FindKey(t).value.end] == name
    ensures SkipSpaces(t, FindKey(t).value.equals + 1) >= |head|
  {
    hide FindKey;
    var k := FindKey(head).value;
    assert forall i :: 0 <= i < |head| ==> t[i] == t[..|head|][i];
    KeyLocal(head, t, |head|);
    assert t[k.start..k.end] == t[..|head|][k.start..k.end];
    assert forall i :: k.equals < i < |head| ==> IsSpace(head[i]) && t[i] == head[i];
  }

  lemma HeadReads(head: string, name: string)
    requires IsHead(head, name)
    ensures Reads(head) == Some(Setting(name, ""))
  {
    hide FindKey;
    assert head[..|head|] == head && head[|head|..] == "";
    assert TailAt(head, |head|);
    assert Strip("") == "";
  }

  lemma ValueFrom(t: string, d: nat)
    requires d < |t| && t[d] == '#'
    ensures ValueEnd(t, d) > d
  {
    assert !TailAt(t, d);
  }

  lemma SpacesToHash(head: string, name: string, c: string)
    requires IsHead(head, name) && IsTail(c) && c != ""
    ensures var t := head + c;
            && FindKey(t) == FindKey(head) && FindKey(head).Some?
            && SkipSpaces(t, FindKey(head).value.equals + 1) < |t|
            && t[SkipSpaces(t, FindKey(head).value.equals + 1)] == '#'
  {
    hide FindKey;
    var t := head + c;
    assert t[..|head|] == head;
    KeyOfHead(head, name, t);
    var j := |head| + SkipSpaces(c, 0);
    assert t[j] == '#' && forall k :: |head| <= k < j ==> t[k] == c[k - |head|];
    assert forall k :: FindKey(head).value.equals < k < |head| ==> t[k] == head[k];
    SkipSpacesIs(t, FindKey(head).value.equals + 1, j);
  }

  lemma CommentReads(head: string, name: string, c: string)
    requires IsHead(head, name) && IsTail(c) && c != ""
    ensures var r := Reads(head + c); r.Some? && r.value.name == name && r.value.value != ""
  {
    hide FindKey, SkipSpaces, ValueEnd, IsTail, Strip, Unquote;
    var t := head + c;
    assert t[..|head|] == head;
    KeyOfHead(head, name, t);
    SpacesToHash(head, name, c);
    var d := SkipSpaces(t, FindKey(t).value.equals + 1);
    ValueFrom(t, d);
    assert t[d..ValueEnd(t, d)][0] == '#';
    HashReads(t[d..ValueEnd(t, d)]);
  }

  /** Without a value, a comment becomes the value; without a comment, the value is empty. */
  lemma EmptyReads(head: string, name: string, c: string)
    requires IsHead(head, name) && IsTail(c)
    ensures Reads(head + c).Some? && Reads(head + c).value.name == name
    ensures Reads(head + c) == Some(Setting(name, "")) <==> c == ""
  {
    hide Reads, IsHead, IsTail;
    if c == "" {
      assert head + c == head;
      HeadReads(head, name);
    } else {
      CommentReads(head, name, c);
    }
  }

  // ---------------------------------------------------------------- placeholders

  const ENTER_VALUE := "=<enter your value>"

  /** `NAME=<enter your value>\s*` from `i` to the end. */
  predicate AsksAt(body: string, i: nat, name: string) {
    var n := |name| + |ENTER_VALUE|;
    i + n <= |body| && body[i..i + n] == name + ENTER_VALUE && SkipSpaces(body, i + n) == |body|
  }

  /** `# NAME=<enter your value>`, with or without `export`. */
  predicate IsPlaceholder(body: string, name: string) {
    var a := SkipSpaces(body, 0);
    && a < |body| && body[a] == '#'
    && var b := SkipSpaces(body, a + 1);
       || AsksAt(body, b, name)
       || (ExportFollows(body, b) && AsksAt(body, SkipSpaces(body, b + 6), name))
  }

  lemma AsksName(body: string, i: nat, name: string)
    requires AsksAt(body, i, name) && GoodName(name)
    ensures SkipWord(body, i) == i + |name| < |body| && body[i + |name|] == '=' && body[i..SkipWord(body, i)] == name
  {
    var n := |name| + |ENTER_VALUE|;
    var asked := body[i..i + n];
    assert forall k :: 0 <= k < n ==> body[i + k] == asked[k];
    assert asked[..|name|] == name && asked[|name|] == ENTER_VALUE[0];
    assert body[i..i + |name|] == asked[..|name|];
    assert forall k :: i <= k < i + |name| ==> body[k] == name[k - i];
    SkipWordIs(body, i, i + |name|);
  }

  predicate ExportFollows(body: string, b: nat) {
    b + 6 < |body| && body[b..b + 6] == EXPORT && IsSpace(body[b + 6])
  }

  /** A name asked for in a place is not also an `export` there. */
  lemma ExportedApart(body: string, b: nat, name: string)
    requires AsksAt(body, b, name) && GoodName(name)
    ensures !ExportFollows(body, b)
  {
    AsksName(body, b, name);
    if b + 6 < |body| && body[b..b + 6] == EXPORT && !IsWord(body[b + 6]) {
      assert forall k :: b <= k < b + 6 ==> body[k] == EXPORT[k - b];
      SkipWordIs(body, b, b + 6);
    }
  }

  /** Where a placeholder has its name. */
  function AskedPlace(body: string): nat
    requires SkipSpaces(body, 0) < |body|
  {
    var b := SkipSpaces(body, SkipSpaces(body, 0) + 1);
    if ExportFollows(body, b) then SkipSpaces(body, b + 6) else b
  }

  lemma AskedThere(body: string, name: string)
    requires IsPlaceholder(body, name) && GoodName(name)
    ensures AsksAt(body, AskedPlace(body), name)
  {
    hide AsksAt, GoodName, SkipSpaces;
    var b := SkipSpaces(body, SkipSpaces(body, 0) + 1);
    if AsksAt(body, b, name) {
      ExportedApart(body, b, name);
    }
  }

  /** A line is the placeholder of one name at most. */
  lemma PlaceholderOnce(body: string, name: string, other: string)
    requires IsPlaceholder(body, name) && IsPlaceholder(body, other) && GoodName(name) && GoodName(other)
    ensures name == other
  {
    hide AsksAt, GoodName, AskedPlace;
    AskedThere(body, name);
    AskedThere(body, other);
    AsksName(body, AskedPlace(body), name);
    AsksName(body, AskedPlace(body), other);
  }

  /** Where the parts of a placeholder stand. */
  lemma PlaceholderPlaces(indent: string, gap: string, x: string, asked: string, tail: string)
    ensures var t, a := indent + "#" + gap + x + asked + tail, |indent|;
            && |t| == a + 1 + |gap| + |x| + |asked| + |tail| && t[a] == '#'
            && HoldsAt(t, 0, indent) && HoldsAt(t, a + 1, gap) && HoldsAt(t, a + 1 + |gap|, x)
            && HoldsAt(t, a + 1 + |gap| + |x|, asked) && HoldsAt(t, a + 1 + |gap| + |x| + |asked|, tail)
  {
  }

  lemma AsksThere(t: string, b: nat, name: string, tail: string)
    requires HoldsAt(t, b, name + "=<enter your value>") && Blank(tail)
    requires HoldsAt(t, b + |name| + 19, tail) && |t| == b + |name| + 19 + |tail|
    ensures AsksAt(t, b, name)
  {
    var asked := name + "=<enter your value>";
    assert |ENTER_VALUE| == 19;
    assert t[b..b + |name| + 19] == asked;
    SkipsBlank(t, b + |name| + 19, tail);
  }

  lemma PlaceholderAt(t: string, indent: string, gap: string, x: string, name: string, tail: string)
    requires Blank(indent) && Blank(gap) && ExportPart(x) && GoodName(name) && Blank(tail)
    requires |t| == |indent| + 1 + |gap| + |x| + |name| + 19 + |tail| && t[|indent|] == '#'
    requires HoldsAt(t, 0, indent) && HoldsAt(t, |indent| + 1, gap) && HoldsAt(t, |indent| + 1 + |gap|, x)
    requires HoldsAt(t, |indent| + 1 + |gap| + |x|, name + "=<enter your value>")
    requires HoldsAt(t, |indent| + 1 + |gap| + |x| + |name| + 19, tail)
    ensures IsPlaceholder(t, name)
  {
    hide HoldsAt, SkipSpaces, IsSpace, IsWord, IsLetter, Blank, GoodName, AsksAt, IsPlaceholder, ExportFollows;
    var a, b := |indent|, |indent| + 1 + |gap|;
    SpaceIsNoWord('#');
    SkipsBlank(t, 0, indent);
    AsksThere(t, b + |x|, name, tail);
    HeldName(t, b + |x|, name);
    HoldsStart(t, b, x, b + |x|, name);
    SkipsBlank(t, a + 1, gap);
    if x != "" {
      HoldsRest(t, b, x, 6);
      ExportHeld(t, b, x);
      FollowsThere(t, b);
      SkipsBlank(t, b + 6, x[6..]);
    }
    PlaceholderIs(t, a, b, b + |x|, name);
  }

  lemma FollowsThere(t: string, b: nat)
    requires b + 6 < |t| && t[b..b + 6] == EXPORT && IsSpace(t[b + 6])
    ensures ExportFollows(t, b)
  {
    hide IsSpace;
  }

  lemma PlaceholderIs(t: string, a: nat, b: nat, c: nat, name: string)
    requires a < |t| && SkipSpaces(t, 0) == a && t[a] == '#' && SkipSpaces(t, a + 1) == b && AsksAt(t, c, name)
    requires c == b || (ExportFollows(t, b) && SkipSpaces(t, b + 6) == c)
    ensures IsPlaceholder(t, name)
  {
    hide SkipSpaces, AsksAt;
  }

  lemma HeldName(t: string, b: nat, name: string)
    requires HoldsAt(t, b, name + "=<enter your value>")
    ensures HoldsAt(t, b, name)
  {
    var asked := name + "=<enter your value>";
    forall k | 0 <= k < |name| ensures t[b + k] == name[k] {
      assert asked[k] == name[k];
    }
  }

  /** A `#`, `export` or not, and a name with `=<enter your value>`, with any white space, are a placeholder. */
  lemma {:induction false} PlaceholderBuilt(indent: string, gap: string, x: string, name: string, tail: string)
    requires Blank(indent) && Blank(gap) && ExportPart(x) && GoodName(name) && Blank(tail)
    ensures IsPlaceholder(indent + "#" + gap + x + (name + "=<enter your value>") + tail, name)
  {
    hide HoldsAt, Blank, ExportPart, GoodName, IsPlaceholder;
    PlaceholderPlaces(indent, gap, x, name + "=<enter your value>", tail);
    PlaceholderAt(indent + "#" + gap + x + (name + "=<enter your value>") + tail, indent, gap, x, name, tail);
  }

  lemma SixSlices(t: string, a: nat, b: nat, c: nat, n: nat)
    requires a < b <= c <= c + n <= |t| && t[a] == '#'
    ensures t == t[0..a] + "#" + t[a + 1..b] + t[b..c] + t[c..c + n] + t[c + n..|t|]
  {
    assert t[0..a] + "#" == t[0..a + 1];
    assert t[0..a + 1] + t[a + 1..b] == t[0..b];
    assert t[0..b] + t[b..c] == t[0..c];
    assert t[0..c] + t[c..c + n] == t[0..c + n];
  }

  lemma ExportOf(t: string, b: nat)
    requires ExportFollows(t, b)
    ensures b <= SkipSpaces(t, b + 6) && ExportPart(t[b..SkipSpaces(t, b + 6)])
  {
    hide IsSpace, Blank;
    var x := t[b..SkipSpaces(t, b + 6)];
    SkippedBlank(t, b + 6);
    assert x[..6] == t[b..b + 6] && x[6..] == t[b + 6..SkipSpaces(t, b + 6)];
  }

  /** And a placeholder is nothing else. */
  lemma {:induction false} PlaceholderTaken(body: string, name: string)
    returns (indent: string, gap: string, x: string, tail: string)
    requires IsPlaceholder(body, name)
    ensures Blank(indent) && Blank(gap) && ExportPart(x) && Blank(tail)
    ensures body == indent + "#" + gap + x + (name + "=<enter your value>") + tail
  {
    hide *;
    PlaceholderWhere(body, name);
    var a := SkipSpaces(body, 0);
    var b := SkipSpaces(body, a + 1);
    var c := if AsksAt(body, b, name) then b else SkipSpaces(body, b + 6);
    SkippedBlank(body, 0);
    SkippedBlank(body, a + 1);
    AskedSlice(body, c, name);
    SixSlices(body, a, b, c, |name| + |ENTER_VALUE|);
    return body[0..a], body[a + 1..b], body[b..c], body[c + |name| + |ENTER_VALUE|..|body|];
  }

  lemma PlaceholderWhere(body: string, name: string)
    requires IsPlaceholder(body, name)
    ensures SkipSpaces(body, 0) < |body| && body[SkipSpaces(body, 0)] == '#'
    ensures var b := SkipSpaces(body, SkipSpaces(body, 0) + 1);
            && (!AsksAt(body, b, name) ==> b + 6 <= |body|)
            && var c := if AsksAt(body, b, name) then b else SkipSpaces(body, b + 6);
               AsksAt(body, c, name) && b <= c <= |body| && ExportPart(body[b..c])
  {
    hide SkipSpaces, IsSpace, Blank, AsksAt, ExportPart;
    var b := SkipSpaces(body, SkipSpaces(body, 0) + 1);
    if AsksAt(body, b, name) {
      NoPart();
      assert body[b..b] == "";
    } else {
      ExportOf(body, b);
    }
  }

  lemma AskedSlice(body: string, c: nat, name: string)
    requires AsksAt(body, c, name)
    ensures var n := |name| + |ENTER_VALUE|;
            c + n <= |body| && body[c..c + n] == name + "=<enter your value>" && Blank(body[c + n..|body|])
  {
    hide SkipSpaces, Blank;
    SkippedBlank(body, c + |name| + |ENTER_VALUE|);
  }

  lemma NoPart()
    ensures ExportPart("")
  {
  }

  /** A placeholder assigns nothing. */
  lemma {:induction false} PlaceholderReadsNothing(body: string, name: string)
    requires IsPlaceholder(body, name)
    ensures FindKey(body).None?
  {
    assert !IsLetter('#');
  }
}
