/**
 * Masking secret values in an execution's output: every form of every value, longest first, leftmost first, in one
 * pass.
 */
module SecretScrubber {
  import opened Options

  const MASK := "[REDACTED]"

  // ---------------------------------------------------------------- the literals to mask

  function LowerHex(v: nat): char
    requires v < 16
  {
    if v < 10 then ('0' as int + v) as char else ('a' as int + v - 10) as char
  }

  /** `\uXXXX`. */
  function UnicodeEscape(unit: nat): string
    requires unit < 0x1_0000
  {
    ['\\', 'u', LowerHex(unit / 0x1000), LowerHex(unit / 0x100 % 16), LowerHex(unit / 0x10 % 16), LowerHex(unit % 16)]
  }

  /** One character of a JSON string, escaped to ASCII; a character beyond U+FFFF is its surrogate pair. */
  function JsonChar(c: char): (r: string)
    ensures r != ""
  {
    var n := c as int;
    if c == '"' then "\\\""
    else if c == '\\' then "\\\\"
    else if n == 0x0A then "\\n"
    else if n == 0x0D then "\\r"
    else if n == 0x09 then "\\t"
    else if n == 0x0C then "\\f"
    else if n == 0x08 then "\\b"
    else if ' ' <= c <= '~' then [c]
    else if n < 0x1_0000 then UnicodeEscape(n)
    else UnicodeEscape(0xD800 + (n - 0x1_0000) / 0x400 % 0x400) + UnicodeEscape(0xDC00 + (n - 0x1_0000) % 0x400)
  }

  /** `json.dumps(value)[1:-1]`. */
  function JsonForm(value: string): (r: string)
    ensures value != "" ==> r != ""
  {
    if value == "" then "" else JsonChar(value[0]) + JsonForm(value[1..])
  }

  // ---------------------------------------------------------------- a JSON form, read back

  function HexOf(c: char): Option<nat> {
    if '0' <= c <= '9' then Some(c as int - '0' as int)
    else if 'a' <= c <= 'f' then Some(c as int - 'a' as int + 10)
    else if 'A' <= c <= 'F' then Some(c as int - 'A' as int + 10)
    else None
  }

  /** The unit of an escape `\uXXXX` that the text begins with. */
  function UnitAt(t: string): Option<nat> {
    if |t| < 6 || t[0] != '\\' || t[1] != 'u' then None
    else
      var a, b, c, d := HexOf(t[2]), HexOf(t[3]), HexOf(t[4]), HexOf(t[5]);
      if a.None? || b.None? || c.None? || d.None? then None
      else Some(((a.value * 16 + b.value) * 16 + c.value) * 16 + d.value)
  }

  /** What a letter behind a backslash stands for. */
  function Unescaped(c: char): Option<char> {
    if c == '"' || c == '\\' || c == '/' then Some(c)
    else if c == 'b' then Some(8 as char)
    else if c == 'f' then Some(12 as char)
    else if c == 'n' then Some(10 as char)
    else if c == 'r' then Some(13 as char)
    else if c == 't' then Some(9 as char)
    else None
  }

  function Prepend(c: char, rest: Option<string>): Option<string> {
    if rest.None? then None else Some([c] + rest.value)
  }

  /** The value of a JSON string, from inside its quotes (section 7 of RFC 8259). */
  function Unjson(t: string): Option<string>
    decreases |t|
  {
    if t == "" then Some("")
    else if t[0] != '\\' then (if t[0] == '"' || t[0] as int < 0x20 then None else Prepend(t[0], Unjson(t[1..])))
    else if UnitAt(t).Some? then
      var u := UnitAt(t).value;
      if 0xD800 <= u < 0xDC00 then
        var l := UnitAt(t[6..]);
        if l.None? || !(0xDC00 <= l.value < 0xE000) then None
        else Prepend((0x1_0000 + (u - 0xD800) * 0x400 + (l.value - 0xDC00)) as char, Unjson(t[12..]))
      else if 0xDC00 <= u < 0xE000 || u >= 0x1_0000 then None
      else Prepend(u as char, Unjson(t[6..]))
    else if |t| < 2 || Unescaped(t[1]).None? then None
    else Prepend(Unescaped(t[1]).value, Unjson(t[2..]))
  }

  lemma HexReads(v: nat)
    requires v < 16
    ensures HexOf(LowerHex(v)) == Some(v)
  {
  }

  lemma Nibbles(unit: nat)
    requires unit < 0x1_0000
    ensures ((unit / 0x1000 * 16 + unit / 0x100 % 16) * 16 + unit / 0x10 % 16) * 16 + unit % 16 == unit
  {
    var x := unit / 0x10;
    var y := x / 0x10;
    assert unit == x * 16 + unit % 16 && x == y * 16 + x % 16 && y == y / 16 * 16 + y % 16;
    assert unit / 0x100 == y && unit / 0x1000 == y / 16;
  }

  lemma UnitReads(unit: nat, rest: string)
    requires unit < 0x1_0000
    ensures UnitAt(UnicodeEscape(unit) + rest) == Some(unit) && (UnicodeEscape(unit) + rest)[6..] == rest
  {
    var t := UnicodeEscape(unit) + rest;
    HexReads(unit / 0x1000);
    HexReads(unit / 0x100 % 16);
    HexReads(unit / 0x10 % 16);
    HexReads(unit % 16);
    Nibbles(unit);
    hide HexOf, LowerHex;
    assert t[2] == LowerHex(unit / 0x1000) && t[3] == LowerHex(unit / 0x100 % 16);
    assert t[4] == LowerHex(unit / 0x10 % 16) && t[5] == LowerHex(unit % 16);
  }

  lemma SurrogatesRead(n: nat, rest: string)
    requires 0x1_0000 <= n < 0x11_0000
    ensures var high, low := 0xD800 + (n - 0x1_0000) / 0x400 % 0x400, 0xDC00 + (n - 0x1_0000) % 0x400;
            Unjson(UnicodeEscape(high) + UnicodeEscape(low) + rest) == Prepend(n as char, Unjson(rest))
  {
    hide UnicodeEscape, UnitAt;
    var high, low := 0xD800 + (n - 0x1_0000) / 0x400 % 0x400, 0xDC00 + (n - 0x1_0000) % 0x400;
    var tail := UnicodeEscape(low) + rest;
    var t := UnicodeEscape(high) + tail;
    UnitReads(high, tail);
    UnitReads(low, rest);
    assert UnicodeEscape(high) + UnicodeEscape(low) + rest == t;
    EscapeBegins(high, tail);
    EscapeBegins(low, rest);
    assert t[12..] == t[6..][6..];
    assert (high - 0xD800) * 0x400 + (low - 0xDC00) == n - 0x1_0000;
  }

  lemma EscapeBegins(unit: nat, rest: string)
    requires unit < 0x1_0000
    ensures |UnicodeEscape(unit)| == 6 && (UnicodeEscape(unit) + rest)[0] == '\\'
  {
  }

  lemma UnitCharReads(n: nat, rest: string)
    requires n < 0xD800 || 0xE000 <= n < 0x1_0000
    ensures Unjson(UnicodeEscape(n) + rest) == Prepend(n as char, Unjson(rest))
  {
    hide UnicodeEscape, UnitAt;
    UnitReads(n, rest);
    EscapeBegins(n, rest);
  }

  lemma ShortReads(e: char, c: char, rest: string)
    requires Unescaped(e) == Some(c) && e != 'u'
    ensures Unjson(['\\', e] + rest) == Prepend(c, Unjson(rest))
  {
    var t := ['\\', e] + rest;
    assert t[0] == '\\' && t[1] == e && t[2..] == rest;
  }

  lemma CharReads(c: char, rest: string)
    ensures Unjson(JsonChar(c) + rest) == Prepend(c, Unjson(rest))
  {
    var n := c as int;
    if c == '"' || c == '\\' {
      ShortReads(c, c, rest);
    } else if n == 0x0A {
      ShortReads('n', c, rest);
    } else if n == 0x0D {
      ShortReads('r', c, rest);
    } else if n == 0x09 {
      ShortReads('t', c, rest);
    } else if n == 0x0C {
      ShortReads('f', c, rest);
    } else if n == 0x08 {
      ShortReads('b', c, rest);
    } else if ' ' <= c <= '~' {
      assert ([c] + rest)[1..] == rest;
    } else if n < 0x1_0000 {
      UnitCharReads(n, rest);
    } else {
      SurrogatesRead(n, rest);
    }
  }

  /** The JSON form of a value is a JSON string's text for that value. */
  lemma {:induction false} JsonFormReads(value: string)
    ensures Unjson(JsonForm(value)) == Some(value)
  {
    hide JsonChar, Unjson;
    if value == "" {
      UnjsonNothing();
    } else {
      JsonFormReads(value[1..]);
      CharReads(value[0], JsonForm(value[1..]));
      assert [value[0]] + value[1..] == value;
    }
  }

  lemma UnjsonNothing()
    ensures Unjson("") == Some("")
  {
  }

  predicate Printable(c: char) { 0x20 <= c as int <= 0x7E }

  /** It is printable ASCII; and a value of that, without quotes and backslashes, is its own JSON form. */
  lemma {:induction false} JsonFormPrintable(value: string)
    ensures forall i :: 0 <= i < |JsonForm(value)| ==> Printable(JsonForm(value)[i])
    ensures (forall i :: 0 <= i < |value| ==> Printable(value[i]) && value[i] != '"' && value[i] != '\\') ==>
              JsonForm(value) == value
  {
    if value != "" {
      CharPrintable(value[0]);
      JsonFormPrintable(value[1..]);
      hide JsonChar;
      assert forall i :: 0 <= i < |value| - 1 ==> value[1..][i] == value[i + 1];
      assert [value[0]] + value[1..] == value;
    }
  }

  lemma CharPrintable(c: char)
    ensures forall i :: 0 <= i < |JsonChar(c)| ==> Printable(JsonChar(c)[i])
    ensures Printable(c) && c != '"' && c != '\\' ==> JsonChar(c) == [c]
  {
  }

  /** The white space that has a short escape is written so. */
  lemma ShortEscapes()
    ensures JsonForm("\n\r\t") == "\\n\\r\\t" && JsonChar(12 as char) == "\\f" && JsonChar(8 as char) == "\\b"
  {
    assert "\n\r\t"[1..] == "\r\t" && "\r\t"[1..] == "\t" && "\t"[1..] == "";
  }

  /** Every form of every non-empty value. */
  function Literals(values: seq<string>): set<string> {
    if values == [] then {}
    else
      Literals(values[..|values| - 1]) +
      if values[|values| - 1] == "" then {} else {values[|values| - 1], JsonForm(values[|values| - 1])}
  }

  /** `sorted(literals, key=len, reverse=True)`: any order of the set by falling length. */
  ghost predicate IsOrder(ordered: seq<string>, literals: set<string>) {
    && (forall l :: l in ordered <==> l in literals)
    && (forall i, j :: 0 <= i < j < |ordered| ==> |ordered[i]| >= |ordered[j]|)
  }

  lemma {:induction false} LiteralsNonEmpty(values: seq<string>)
    ensures "" !in Literals(values)
  {
    hide JsonChar;
    if values != [] {
      LiteralsNonEmpty(values[..|values| - 1]);
    }
  }

  lemma {:induction false} LiteralsCover(values: seq<string>, value: string)
    requires value in values && value != ""
    ensures value in Literals(values) && JsonForm(value) in Literals(values)
  {
    hide JsonForm;
    var init, last := values[..|values| - 1], values[|values| - 1];
    if value != last {
      assert values == init + [last];
      LiteralsCover(init, value);
    }
  }

  // ---------------------------------------------------------------- one pass over the text

  datatype Piece = Kept(c: char) | Masked(literal: string)

  predicate PrefixOf(l: string, t: string) { |l| <= |t| && t[..|l|] == l }

  /** The first alternative that matches here. */
  function FirstMatch(ordered: seq<string>, t: string): (m: Option<string>)
    ensures m.Some? ==> m.value in ordered && PrefixOf(m.value, t)
    ensures m.None? ==> forall l | l in ordered :: !PrefixOf(l, t)
  {
    if ordered == [] then None
    else if PrefixOf(ordered[0], t) then Some(ordered[0])
    else FirstMatch(ordered[1..], t)
  }

  /** `pattern.sub`: at each position, mask the first alternative that matches, else keep the character. */
  function Pieces(t: string, ordered: seq<string>): seq<Piece>
    requires "" !in ordered
    decreases |t|
  {
    if t == "" then []
    else
      var m := FirstMatch(ordered, t);
      if m.None? then [Kept(t[0])] + Pieces(t[1..], ordered)
      else [Masked(m.value)] + Pieces(t[|m.value|..], ordered)
  }

  function Render(pieces: seq<Piece>): string {
    if pieces == [] then ""
    else (if pieces[0].Kept? then [pieces[0].c] else MASK) + Render(pieces[1..])
  }

  /** `scrub(text, secrets)`, with the alternatives in the order given. */
  function Scrub(text: Option<string>, ordered: seq<string>): Option<string>
    requires "" !in ordered
  {
    if text.None? || text.value == "" || ordered == [] then text else Some(Render(Pieces(text.value, ordered)))
  }

  // ---------------------------------------------------------------- what the pieces say about the text

  function Width(p: Piece): nat { if p.Kept? then 1 else |p.literal| }

  /** The text the pieces came from. */
  function Original(pieces: seq<Piece>): string {
    if pieces == [] then ""
    else (if pieces[0].Kept? then [pieces[0].c] else pieces[0].literal) + Original(pieces[1..])
  }

  /** Position `at` of the original text lies in a masked piece. */
  predicate MaskedAt(pieces: seq<Piece>, at: int) {
    pieces != [] &&
    ((pieces[0].Masked? && 0 <= at < Width(pieces[0])) || MaskedAt(pieces[1..], at - Width(pieces[0])))
  }

  /** `l` occurs in `t` at `at`. */
  predicate OccursAt(l: string, t: string, at: nat) { at + |l| <= |t| && t[at..at + |l|] == l }

  /** The pieces are the text, cut up: nothing is lost, and every mask stands for a literal. */
  lemma {:induction false} PiecesCutTheText(t: string, ordered: seq<string>)
    requires "" !in ordered
    ensures Original(Pieces(t, ordered)) == t
    ensures forall p | p in Pieces(t, ordered) && p.Masked? :: p.literal in ordered
    decreases |t|
  {
    if t != "" {
      var m := FirstMatch(ordered, t);
      if m.None? {
        PiecesCutTheText(t[1..], ordered);
      } else {
        PiecesCutTheText(t[|m.value|..], ordered);
      }
    }
  }

  /** The first match is the longest literal that begins here, whatever the order among equal lengths. */
  lemma {:induction false} FirstMatchIsLongest(ordered: seq<string>, t: string)
    requires forall i, j :: 0 <= i < j < |ordered| ==> |ordered[i]| >= |ordered[j]|
    ensures var m := FirstMatch(ordered, t);
            m.Some? ==> forall l | l in ordered && PrefixOf(l, t) :: |l| <= |m.value|
  {
    if ordered != [] {
      if PrefixOf(ordered[0], t) {
        forall l | l in ordered ensures |l| <= |ordered[0]| {
          var i :| 0 <= i < |ordered| && ordered[i] == l;
        }
      } else {
        FirstMatchIsLongest(ordered[1..], t);
      }
    }
  }

  /** The first match is the longest literal of the set that begins here: a description without the order. */
  lemma FirstMatchDescribed(ordered: seq<string>, literals: set<string>, t: string)
    requires IsOrder(ordered, literals)
    ensures var m := FirstMatch(ordered, t);
            && (m.None? <==> forall l | l in literals :: !PrefixOf(l, t))
            && (m.Some? ==> m.value in literals && PrefixOf(m.value, t))
            && (m.Some? ==> forall l | l in literals && PrefixOf(l, t) :: |l| <= |m.value|)
  {
    FirstMatchIsLongest(ordered, t);
    hide FirstMatch, PrefixOf;
  }

  lemma PrefixesOfOneLength(l: string, m: string, t: string)
    requires PrefixOf(l, t) && PrefixOf(m, t) && |l| == |m|
    ensures l == m
  {
  }

  lemma SameFirstMatch(a: seq<string>, b: seq<string>, literals: set<string>, t: string)
    requires IsOrder(a, literals) && IsOrder(b, literals)
    ensures FirstMatch(a, t) == FirstMatch(b, t)
  {
    FirstMatchDescribed(a, literals, t);
    FirstMatchDescribed(b, literals, t);
    var m, n := FirstMatch(a, t), FirstMatch(b, t);
    if m.Some? && n.Some? {
      PrefixesOfOneLength(m.value, n.value, t);
    }
    hide IsOrder, FirstMatch, PrefixOf;
  }

  /** The result does not depend on the order the set yields. */
  lemma {:induction false} OrderIrrelevant(a: seq<string>, b: seq<string>, literals: set<string>, t: string)
    requires IsOrder(a, literals) && IsOrder(b, literals) && "" !in literals
    ensures Pieces(t, a) == Pieces(t, b)
    decreases |t|
  {
    if t != "" {
      SameFirstMatch(a, b, literals, t);
      var m := FirstMatch(a, t);
      OrderIrrelevant(a, b, literals, if m.None? then t[1..] else t[|m.value|..]);
    }
  }

  lemma OccursFurther(l: string, t: string, at: nat, w: nat)
    requires OccursAt(l, t, at) && w <= at
    ensures OccursAt(l, t[w..], at - w)
  {
    assert t[w..][at - w..at - w + |l|] == t[at..at + |l|];
  }

  /** Every occurrence of a literal begins inside a mask. */
  lemma {:induction false} OccurrencesMasked(t: string, ordered: seq<string>, l: string, at: nat)
    requires "" !in ordered && l in ordered && OccursAt(l, t, at)
    ensures MaskedAt(Pieces(t, ordered), at)
    decreases |t|
  {
    var m := FirstMatch(ordered, t);
    var w := if m.None? then 1 else |m.value|;
    if at == 0 {
      assert PrefixOf(l, t);
    } else if at >= w {
      OccursFurther(l, t, at, w);
      OccurrencesMasked(t[w..], ordered, l, at - w);
    }
  }

  /** How much of the text the first piece takes. */
  function FirstWidth(t: string, ordered: seq<string>): nat {
    var m := FirstMatch(ordered, t);
    if m.None? then 1 else |m.value|
  }

  lemma PiecesTail(t: string, ordered: seq<string>)
    requires "" !in ordered && Pieces(t, ordered) != []
    ensures FirstWidth(t, ordered) <= |t| && Pieces(t, ordered)[1..] == Pieces(t[FirstWidth(t, ordered)..], ordered)
  {
  }

  /** Dropping whole pieces drops the text they came from. */
  lemma {:induction false} PiecesFrom(t: string, ordered: seq<string>, i: nat) returns (n: nat)
    requires "" !in ordered && i <= |Pieces(t, ordered)|
    ensures n <= |t| && Pieces(t, ordered)[i..] == Pieces(t[n..], ordered)
    decreases i
  {
    hide Pieces, FirstWidth;
    if i == 0 {
      n := 0;
      assert t[0..] == t;
    } else {
      var w := FirstWidth(t, ordered);
      PiecesTail(t, ordered);
      var k := PiecesFrom(t[w..], ordered, i - 1);
      n := w + k;
      assert Pieces(t, ordered)[i..] == Pieces(t, ordered)[1..][i - 1..];
      assert t[w..][k..] == t[n..];
    }
  }

  predicate AllKept(pieces: seq<Piece>) { forall i :: 0 <= i < |pieces| ==> pieces[i].Kept? }

  lemma OccursLater(l: string, t: string, at: nat)
    requires t != ""
    ensures OccursAt(l, t, at + 1) <==> OccursAt(l, t[1..], at)
  {
    if at + 1 + |l| <= |t| {
      assert t[at + 1..at + 1 + |l|] == t[1..][at..at + |l|];
    }
  }

  lemma OccursBetween(a: string, l: string, b: string)
    ensures OccursAt(l, a + l + b, |a|)
  {
  }

  /** While characters are kept, the chunk is the text and no literal begins at any of them. */
  lemma {:induction false} KeptRunText(t: string, ordered: seq<string>, n: nat)
    requires "" !in ordered && n <= |Pieces(t, ordered)| && AllKept(Pieces(t, ordered)[..n])
    ensures n <= |t| && Original(Pieces(t, ordered)[..n]) == t[..n]
    decreases n
  {
    if n > 0 {
      var pieces := Pieces(t, ordered);
      assert pieces[..n][0].Kept?;
      assert pieces[..n][1..] == pieces[1..][..n - 1];
      KeptRunText(t[1..], ordered, n - 1);
      assert t[..n] == [t[0]] + t[1..][..n - 1];
    }
  }

  lemma {:induction false} KeptRunClean(t: string, ordered: seq<string>, n: nat, l: string, at: nat)
    requires "" !in ordered && n <= |Pieces(t, ordered)| && AllKept(Pieces(t, ordered)[..n])
    requires l in ordered && at < n
    ensures !OccursAt(l, t, at)
    decreases n
  {
    var pieces := Pieces(t, ordered);
    assert pieces[..n][0].Kept?;
    if at == 0 {
      assert !PrefixOf(l, t);
    } else {
      assert pieces[..n][1..] == pieces[1..][..n - 1];
      KeptRunClean(t[1..], ordered, n - 1, l, at - 1);
      OccursLater(l, t, at - 1);
    }
  }

  /** No run of kept characters contains a literal. */
  lemma KeptChunksClean(t: string, ordered: seq<string>, i: nat, j: nat, l: string, at: nat)
    requires "" !in ordered && i < j <= |Pieces(t, ordered)| && AllKept(Pieces(t, ordered)[i..j]) && l in ordered
    ensures !OccursAt(l, Original(Pieces(t, ordered)[i..j]), at)
  {
    hide FirstMatch;
    var n := PiecesFrom(t, ordered, i);
    var rest, len := t[n..], j - i;
    assert Pieces(t, ordered)[i..j] == Pieces(rest, ordered)[..len];
    KeptRunText(rest, ordered, len);
    if at < len {
      KeptRunClean(rest, ordered, len, l, at);
      OccursOnlyInside(l, rest, len, at);
    }
  }

  lemma OccursOnlyInside(l: string, t: string, n: nat, at: nat)
    requires n <= |t| && !OccursAt(l, t, at)
    ensures !OccursAt(l, t[..n], at)
  {
    if at + |l| <= n {
      assert t[at..at + |l|] == t[..n][at..at + |l|];
    }
  }

  // ---------------------------------------------------------------- what the output shows

  lemma {:induction false} RenderConcat(a: seq<Piece>, b: seq<Piece>)
    ensures Render(a + b) == Render(a) + Render(b)
  {
    if a == [] {
      assert a + b == b;
    } else {
      assert (a + b)[1..] == a[1..] + b;
      RenderConcat(a[1..], b);
    }
  }

  lemma {:induction false} RenderKept(pieces: seq<Piece>)
    requires AllKept(pieces)
    ensures Render(pieces) == Original(pieces)
  {
    if pieces != [] {
      assert AllKept(pieces[1..]) by {
        assert forall i :: 0 <= i < |pieces[1..]| ==> pieces[1..][i] == pieces[i + 1];
      }
      RenderKept(pieces[1..]);
    }
  }

  lemma RenderSplit(pieces: seq<Piece>, i: nat)
    requires i <= |pieces|
    ensures Render(pieces) == Render(pieces[..i]) + Render(pieces[i..])
  {
    hide Render;
    RenderConcat(pieces[..i], pieces[i..]);
    assert pieces == pieces[..i] + pieces[i..];
  }

  lemma RenderChunk(pieces: seq<Piece>, i: nat, j: nat)
    requires i <= j <= |pieces|
    ensures Render(pieces) == Render(pieces[..i]) + Render(pieces[i..j]) + Render(pieces[j..])
  {
    hide Render;
    RenderSplit(pieces, j);
    RenderSplit(pieces[..j], i);
    assert pieces[..j][..i] == pieces[..i];
    assert pieces[..j][i..] == pieces[i..j];
  }

  /** The output shows a run of kept characters as it was, in place. */
  lemma {:induction false} OutputShowsKept(pieces: seq<Piece>, i: nat, j: nat)
    requires i <= j <= |pieces| && AllKept(pieces[i..j])
    ensures Render(pieces) == Render(pieces[..i]) + Original(pieces[i..j]) + Render(pieces[j..])
  {
    hide Render, Original;
    RenderChunk(pieces, i, j);
    RenderKept(pieces[i..j]);
  }

  lemma RenderMask(literal: string)
    ensures Render([Masked(literal)]) == MASK
  {
    var piece := [Masked(literal)];
    assert piece[1..] == [];
  }

  /** The output shows the mask for a masked literal, in place. */
  lemma OutputShowsMask(pieces: seq<Piece>, i: nat)
    requires i < |pieces| && pieces[i].Masked?
    ensures Render(pieces) == Render(pieces[..i]) + "[REDACTED]" + Render(pieces[i + 1..])
  {
    hide Render;
    RenderChunk(pieces, i, i + 1);
    assert pieces[i..i + 1] == [Masked(pieces[i].literal)];
    RenderMask(pieces[i].literal);
  }

  /** The two cuts differ at most in what is masked. */
  predicate SameButMasked(a: seq<Piece>, b: seq<Piece>) {
    |a| == |b| && forall i :: 0 <= i < |a| ==> a[i] == b[i] || (a[i].Masked? && b[i].Masked?)
  }

  lemma {:induction false} SameRendering(a: seq<Piece>, b: seq<Piece>)
    requires SameButMasked(a, b)
    ensures Render(a) == Render(b)
  {
    if a != [] {
      assert SameButMasked(a[1..], b[1..]) by {
        assert forall i :: 0 <= i < |a[1..]| ==> a[1..][i] == a[i + 1] && b[1..][i] == b[i + 1];
      }
      assert a[0] == b[0] || (a[0].Masked? && b[0].Masked?);
      SameRendering(a[1..], b[1..]);
    }
  }

  /** With nothing to mask, the pieces are the text. */
  lemma {:induction false} NothingMasked(t: string)
    ensures Render(Pieces(t, [])) == t
    decreases |t|
  {
    if t != "" {
      NothingMasked(t[1..]);
    }
  }

  lemma ScrubIsRendering(t: string, ordered: seq<string>)
    requires "" !in ordered
    ensures Scrub(Some(t), ordered) == Some(Render(Pieces(t, ordered)))
  {
    if ordered == [] {
      NothingMasked(t);
    }
    hide FirstMatch;
  }

  /**
   * The output says nothing about a masked literal: not its text, its length or its form. Two texts, each with its own
   * secrets, that are cut alike but for what is masked give the same output.
   */
  lemma {:induction false} OutputHidesSecrets(t: string, ordered: seq<string>, u: string, others: seq<string>)
    requires "" !in ordered && "" !in others && SameButMasked(Pieces(t, ordered), Pieces(u, others))
    ensures Scrub(Some(t), ordered) == Scrub(Some(u), others)
  {
    hide Pieces, Render, Scrub, SameButMasked;
    SameRendering(Pieces(t, ordered), Pieces(u, others));
    ScrubIsRendering(t, ordered);
    ScrubIsRendering(u, others);
  }

  // ---------------------------------------------------------------- the main results, for the secrets themselves

  /** Every occurrence of a secret value, plain or JSON-escaped, begins inside a mask, whatever order the set yields. */
  lemma {:induction false} SecretsMasked(text: string, values: seq<string>, ordered: seq<string>, value: string,
      at: nat)
    requires IsOrder(ordered, Literals(values)) && value in values && value != ""
    requires OccursAt(value, text, at) || OccursAt(JsonForm(value), text, at)
    ensures "" !in ordered && MaskedAt(Pieces(text, ordered), at)
  {
    hide JsonForm, Pieces;
    LiteralsNonEmpty(values);
    LiteralsCover(values, value);
    OccurrencesMasked(text, ordered, if OccursAt(value, text, at) then value else JsonForm(value), at);
  }

  /** No kept chunk contains a secret value or its JSON-escaped form. */
  lemma {:induction false} KeptTextClean(text: string, values: seq<string>, ordered: seq<string>, value: string,
      i: nat, j: nat, at: nat)
    requires IsOrder(ordered, Literals(values)) && value in values && value != "" && "" !in ordered
    requires i < j <= |Pieces(text, ordered)| && AllKept(Pieces(text, ordered)[i..j])
    ensures !OccursAt(value, Original(Pieces(text, ordered)[i..j]), at)
    ensures !OccursAt(JsonForm(value), Original(Pieces(text, ordered)[i..j]), at)
  {
    hide JsonForm, Pieces;
    LiteralsCover(values, value);
    KeptChunksClean(text, ordered, i, j, value, at);
    KeptChunksClean(text, ordered, i, j, JsonForm(value), at);
  }

  lemma {:induction false} JsonFormConcat(a: string, b: string)
    ensures JsonForm(a + b) == JsonForm(a) + JsonForm(b)
  {
    if a == "" {
      assert a + b == b;
    } else {
      assert (a + b)[1..] == a[1..] + b;
      JsonFormConcat(a[1..], b);
    }
  }

  /** A returned string that holds a secret is masked where its JSON encoding holds it. */
  lemma {:induction false} JsonPayloadMasked(before: string, prefix: string, value: string, suffix: string,
      after: string, values: seq<string>, ordered: seq<string>)
    requires IsOrder(ordered, Literals(values)) && value in values && value != ""
    ensures "" !in ordered
    ensures MaskedAt(Pieces(before + JsonForm(prefix + value + suffix) + after, ordered), |before| + |JsonForm(prefix)|)
  {
    hide Pieces, Literals;
    JsonFormConcat(prefix + value, suffix);
    JsonFormConcat(prefix, value);
    hide JsonForm;
    var lead, tail := before + JsonForm(prefix), JsonForm(suffix) + after;
    assert before + JsonForm(prefix + value + suffix) + after == lead + JsonForm(value) + tail;
    OccursBetween(lead, JsonForm(value), tail);
    SecretsMasked(lead + JsonForm(value) + tail, values, ordered, value, |lead|);
  }

  /** The scrubbed text is the same for every order the set may yield. */
  lemma ScrubDetermined(text: Option<string>, values: seq<string>, a: seq<string>, b: seq<string>)
    requires IsOrder(a, Literals(values)) && IsOrder(b, Literals(values))
    ensures "" !in a && "" !in b && Scrub(text, a) == Scrub(text, b)
  {
    LiteralsNonEmpty(values);
    if text.Some? {
      OrderIrrelevant(a, b, Literals(values), text.value);
    }
    assert a == [] ==> Literals(values) == {};
    assert b == [] ==> Literals(values) == {};
    if a != [] { assert a[0] in a; }
    if b != [] { assert b[0] in b; }
  }

  // ---------------------------------------------------------------- building the pattern

  function InsertByLength(l: string, ordered: seq<string>): seq<string> {
    if ordered == [] || |l| >= |ordered[0]| then [l] + ordered else [ordered[0]] + InsertByLength(l, ordered[1..])
  }

  lemma {:induction false} InsertKeepsOrder(l: string, ordered: seq<string>, literals: set<string>)
    requires IsOrder(ordered, literals)
    ensures IsOrder(InsertByLength(l, ordered), literals + {l})
    decreases |ordered|
  {
    if ordered != [] && |l| < |ordered[0]| {
      var rest := set x | x in ordered[1..];
      InsertKeepsOrder(l, ordered[1..], rest);
      var r := InsertByLength(l, ordered[1..]);
      forall j | 0 <= j < |r| ensures |ordered[0]| >= |r[j]| {
        assert r[j] in r;
        if r[j] != l {
          var k :| 0 <= k < |ordered[1..]| && ordered[1..][k] == r[j];
          assert ordered[k + 1] == r[j];
        }
      }
    }
  }

  /** `_pattern`: collects the literals of every non-empty value, then orders them by falling length. */
  method BuildPattern(values: seq<string>) returns (ordered: seq<string>)
    ensures IsOrder(ordered, Literals(values))
  {
    var literals: set<string> := {};
    for i := 0 to |values|
      invariant literals == Literals(values[..i])
    {
      var value := values[i];
      assert values[..i + 1][..i] == values[..i];
      if value != "" {
        literals := literals + {value};
        literals := literals + {JsonForm(value)};
      }
    }
    assert values[..|values|] == values;
    ordered := [];
    var left := literals;
    while left != {}
      invariant left <= literals
      invariant IsOrder(ordered, literals - left)
      decreases left
    {
      var l :| l in left;
      InsertKeepsOrder(l, ordered, literals - left);
      ordered := InsertByLength(l, ordered);
      assert literals - left + {l} == literals - (left - {l});
      left := left - {l};
    }
    assert literals - left == literals;
  }

  // ---------------------------------------------------------------- the masking set of one execution

  /** `build_masking_values`: the user's secrets, then the non-empty extra values. */
  function MaskingValues(secrets: map<string, string>, extra: map<string, string>): map<string, string> {
    secrets + map k | k in extra && extra[k] != "" :: extra[k]
  }

  /**
   * Every non-empty extra value is masked; a user's secret keeps its place exactly when no other non-empty extra value
   * has the same name, so a clash of names would leave the user's value unmasked.
   */
  lemma {:induction false} MaskingValuesKept(secrets: map<string, string>, extra: map<string, string>, k: string)
    ensures k in extra && extra[k] != "" ==>
            k in MaskingValues(secrets, extra) && MaskingValues(secrets, extra)[k] == extra[k]
    ensures k in secrets ==>
      (MaskingValues(secrets, extra)[k] == secrets[k] <==> (k in extra && extra[k] != "" ==> extra[k] == secrets[k]))
  {
  }

  /** A user's secret with the name of a storage credential is replaced by it, and is masked no more. */
  lemma {:induction false} CredentialReplacesSecret()
    ensures var values := MaskingValues(map["STORAGE_ACCESS_KEY" := "a"], map["STORAGE_ACCESS_KEY" := "b"]);
            values == map["STORAGE_ACCESS_KEY" := "b"] && "a" !in values.Values
  {
  }
}
