/**
 * Text as the bytes of its UTF-8 form: splitting, joining, percent escapes and UTF-8 validity.
 *
 * A JavaScript string is represented by its UTF-8 bytes, each byte being a character below U+0100. Paths that match the
 * navigation grammar are ASCII, so for them one byte is one character and `|t|` is the string's length. `ValidUtf8`
 * implies that every character is a byte.
 */
module Text {
  import opened Options

  type Byte = char
  type Text = seq<Byte>

  lemma Associative<T>(a: seq<T>, b: seq<T>, c: seq<T>)
    ensures a + (b + c) == (a + b) + c
  {
  }

  lemma Regroup<T>(x: seq<T>, a: seq<T>, c: T, b: seq<T>)
    ensures x + (a + [c] + b) == (x + a) + [c] + b
  {
    Associative(x, a + [c], b);
    Associative(x, a, [c]);
  }

  // ---------------------------------------------------------------- splitting and joining

  /** `text.split(separator)`: never empty. */
  function Split(t: Text, sep: Byte): (r: seq<Text>)
    ensures |r| >= 1
  {
    if t == [] then [[]]
    else if t[0] == sep then [[]] + Split(t[1..], sep)
    else
      var rest := Split(t[1..], sep);
      [[t[0]] + rest[0]] + rest[1..]
  }

  /** `parts.join(separator)`. */
  function Join(parts: seq<Text>, sep: Byte): Text {
    if parts == [] then []
    else if |parts| == 1 then parts[0]
    else parts[0] + [sep] + Join(parts[1..], sep)
  }

  /** `text.indexOf(c)`, with the length standing for -1. */
  function IndexOf(t: Text, c: Byte): (i: nat)
    ensures i <= |t|
    ensures i < |t| ==> t[i] == c
    ensures forall j :: 0 <= j < i ==> t[j] != c
  {
    if t == [] || t[0] == c then 0 else 1 + IndexOf(t[1..], c)
  }

  lemma IndexOfUnique(t: Text, c: Byte, i: nat)
    requires i < |t| && t[i] == c && c !in t[..i]
    ensures IndexOf(t, c) == i
  {
    assert forall j :: 0 <= j < i ==> t[j] == t[..i][j];
  }

  lemma IndexOfAbsent(t: Text, c: Byte)
    requires c !in t
    ensures IndexOf(t, c) == |t|
  {
    assert forall i :: 0 <= i < |t| ==> t[i] != c;
  }

  lemma SplitsAt(a: Text, c: Byte, b: Text)
    requires c !in a
    ensures var t := a + [c] + b; IndexOf(t, c) == |a| && t[..|a|] == a && t[|a| + 1..] == b
  {
    var t := a + [c] + b;
    assert t[..|a|] == a;
    IndexOfUnique(t, c, |a|);
  }

  lemma {:induction false} SplitPrefix(a: Text, sep: Byte, rest: Text)
    requires sep !in a
    ensures Split(a + [sep] + rest, sep) == [a] + Split(rest, sep)
  {
    if a == [] {
      assert [] + [sep] + rest == [sep] + rest;
      assert ([sep] + rest)[1..] == rest;
    } else {
      SplitPrefix(a[1..], sep, rest);
      assert (a + [sep] + rest)[1..] == a[1..] + [sep] + rest;
      assert [a[0]] + a[1..] == a;
    }
  }

  lemma {:induction false} SplitWhole(a: Text, sep: Byte)
    requires sep !in a
    ensures Split(a, sep) == [a]
  {
    if a != [] {
      SplitWhole(a[1..], sep);
      assert [a[0]] + a[1..] == a;
    }
  }

  /** Splitting undoes joining when no part holds the separator. */
  lemma {:induction false} SplitJoin(parts: seq<Text>, sep: Byte)
    requires parts != []
    requires forall p | p in parts :: sep !in p
    ensures Split(Join(parts, sep), sep) == parts
  {
    if |parts| == 1 {
      SplitWhole(parts[0], sep);
    } else {
      assert forall p | p in parts[1..] :: p in parts;
      SplitJoin(parts[1..], sep);
      SplitPrefix(parts[0], sep, Join(parts[1..], sep));
    }
  }

  lemma JoinPrepend(x: Byte, parts: seq<Text>, sep: Byte)
    requires parts != []
    ensures Join([[x] + parts[0]] + parts[1..], sep) == [x] + Join(parts, sep)
  {
    var longer := [[x] + parts[0]] + parts[1..];
    assert longer[1..] == parts[1..];
    if |parts| > 1 {
      Associative([x], parts[0], [sep]);
      Associative([x], parts[0] + [sep], Join(parts[1..], sep));
    }
  }

  /** Joining undoes splitting, always. */
  lemma {:induction false} JoinSplit(t: Text, sep: Byte)
    ensures Join(Split(t, sep), sep) == t
  {
    if t != [] {
      var rest := Split(t[1..], sep);
      JoinSplit(t[1..], sep);
      if t[0] == sep {
        assert Split(t, sep)[1..] == rest;
      } else {
        JoinPrepend(t[0], rest, sep);
      }
    }
  }

  /** The parts hold no separator and no byte the text does not hold. */
  lemma {:induction false} SplitBytes(t: Text, sep: Byte)
    ensures forall p, c | p in Split(t, sep) && c in p :: c in t && c != sep
  {
    if t != [] {
      SplitBytes(t[1..], sep);
      forall p, c | p in Split(t, sep) && c in p ensures c in t && c != sep {
        var rest := Split(t[1..], sep);
        if t[0] != sep && p == [t[0]] + rest[0] {
          assert c == t[0] || c in rest[0];
        }
      }
    }
  }

  lemma {:induction false} JoinBytes(parts: seq<Text>, sep: Byte)
    ensures forall c | c in Join(parts, sep) :: c == sep || exists p :: p in parts && c in p
  {
    if |parts| > 1 {
      JoinBytes(parts[1..], sep);
      forall c | c in Join(parts, sep) ensures c == sep || exists p :: p in parts && c in p {
        if c in parts[0] {
        } else if c != sep {
          assert c in Join(parts[1..], sep);
          var p :| p in parts[1..] && c in p;
          assert p in parts;
        }
      }
    }
  }

  /** A separator at the end, or before another: an empty part follows it. */
  predicate EmptyAt(t: Text, sep: Byte, i: nat) { i < |t| && t[i] == sep && (i + 1 == |t| || t[i + 1] == sep) }

  predicate EmptyAfter(t: Text, sep: Byte) { exists i :: 0 <= i < |t| && EmptyAt(t, sep, i) }

  lemma EmptyFurther(t: Text, sep: Byte)
    requires t != []
    ensures EmptyAfter(t, sep) <==> EmptyAt(t, sep, 0) || EmptyAfter(t[1..], sep)
  {
    if EmptyAfter(t[1..], sep) {
      var i :| 0 <= i < |t[1..]| && EmptyAt(t[1..], sep, i);
      assert EmptyAt(t, sep, i + 1);
    }
    if EmptyAfter(t, sep) && !EmptyAt(t, sep, 0) {
      var i :| 0 <= i < |t| && EmptyAt(t, sep, i);
      assert EmptyAt(t[1..], sep, i - 1);
    }
  }

  /** The first part is empty if the text begins with a separator, another if a separator ends it or precedes one. */
  lemma {:induction false} EmptyParts(t: Text, sep: Byte)
    ensures Split(t, sep)[0] == [] <==> t == [] || t[0] == sep
    ensures [] in Split(t, sep)[1..] <==> EmptyAfter(t, sep)
  {
    if t != [] {
      var rest := Split(t[1..], sep);
      EmptyParts(t[1..], sep);
      EmptyFurther(t, sep);
      hide EmptyAfter;
      assert rest == [rest[0]] + rest[1..];
      assert Split(t, sep)[1..] == if t[0] == sep then rest else rest[1..];
    }
  }

  // ---------------------------------------------------------------- UTF-8

  predicate Continuation(c: Byte) { 0x80 <= c as int <= 0xBF }

  /** Length of the well-formed UTF-8 sequence `t` begins with (section 4 of RFC 3629), or 0 if there is none. */
  function Utf8Lead(t: Text): (n: nat)
    ensures n <= |t|
  {
    if t == [] then 0
    else
      var b0 := t[0] as int;
      var b1 := if |t| > 1 then t[1] as int else 0;
      var tail2 := |t| > 2 && Continuation(t[2]);
      var tail3 := tail2 && |t| > 3 && Continuation(t[3]);
      if b0 < 0x80 then 1
      else if 0xC2 <= b0 <= 0xDF && 0x80 <= b1 <= 0xBF then 2
      else if b0 == 0xE0 && 0xA0 <= b1 <= 0xBF && tail2 then 3
      else if (0xE1 <= b0 <= 0xEC || 0xEE <= b0 <= 0xEF) && 0x80 <= b1 <= 0xBF && tail2 then 3
      else if b0 == 0xED && 0x80 <= b1 <= 0x9F && tail2 then 3
      else if b0 == 0xF0 && 0x90 <= b1 <= 0xBF && tail3 then 4
      else if 0xF1 <= b0 <= 0xF3 && 0x80 <= b1 <= 0xBF && tail3 then 4
      else if b0 == 0xF4 && 0x80 <= b1 <= 0x8F && tail3 then 4
      else 0
  }

  predicate ValidUtf8(t: Text)
    decreases |t|
  {
    t == [] || (Utf8Lead(t) > 0 && ValidUtf8(t[Utf8Lead(t)..]))
  }

  predicate Bytes(t: Text) { forall i :: 0 <= i < |t| ==> t[i] as int < 256 }

  lemma {:induction false} Utf8Bytes(t: Text)
    requires ValidUtf8(t)
    ensures Bytes(t)
    decreases |t|
  {
    if t != [] {
      var n := Utf8Lead(t);
      Utf8Bytes(t[n..]);
      assert forall i :: n <= i < |t| ==> t[i] == t[n..][i - n];
    }
  }

  lemma Utf8LeadLocal(t: Text, rest: Text)
    requires rest != [] ==> rest[0] as int < 0x80
    requires t != []
    ensures Utf8Lead(t + rest) == Utf8Lead(t)
  {
    var u := t + rest;
    assert u[0] == t[0];
    assert |t| > 1 ==> u[1] == t[1];
    assert |t| == 1 && |u| > 1 ==> u[1] == rest[0];
    assert |t| > 2 ==> u[2] == t[2];
    assert |t| == 2 && |u| > 2 ==> u[2] == rest[0];
    assert |t| > 3 ==> u[3] == t[3];
    assert |t| == 3 && |u| > 3 ==> u[3] == rest[0];
  }

  /** An ASCII byte separates: text around it is valid exactly when both sides are. */
  lemma {:induction false} Utf8AroundAscii(a: Text, c: Byte, b: Text)
    requires c as int < 0x80
    ensures ValidUtf8(a + [c] + b) <==> ValidUtf8(a) && ValidUtf8(b)
    decreases |a|
  {
    var t := a + [c] + b;
    if a == [] {
      assert t[0] == c && t[1..] == b;
    } else {
      assert t == a + ([c] + b);
      Utf8LeadLocal(a, [c] + b);
      var n := Utf8Lead(a);
      if n > 0 {
        Utf8AroundAscii(a[n..], c, b);
        assert t[n..] == a[n..] + [c] + b;
      }
    }
  }

  // What the table says, from the code points.

  /** A Unicode scalar value: any code point but a surrogate. */
  predicate ScalarValue(n: int) { 0 <= n < 0xD800 || 0xE000 <= n < 0x110000 }

  function ByteOf(n: int): Byte
    requires 0 <= n < 256
  {
    n as char
  }

  /** The bytes of a code point (section 3 of RFC 3629): six bits in each byte but the first. */
  function Utf8(n: int): (r: Text)
    requires ScalarValue(n)
    ensures r != []
  {
    if n < 0x80 then [ByteOf(n)]
    else if n < 0x800 then [ByteOf(0xC0 + n / 64), ByteOf(0x80 + n % 64)]
    else if n < 0x1_0000 then [ByteOf(0xE0 + n / 4096), ByteOf(0x80 + n / 64 % 64), ByteOf(0x80 + n % 64)]
    else
      [ByteOf(0xF0 + n / 262144), ByteOf(0x80 + n / 4096 % 64), ByteOf(0x80 + n / 64 % 64), ByteOf(0x80 + n % 64)]
  }

  /** The bytes of a code point are one well-formed sequence, whatever follows them. */
  lemma Utf8Leads(n: int, rest: Text)
    requires ScalarValue(n)
    ensures Utf8Lead(Utf8(n) + rest) == |Utf8(n)|
  {
    var u := Utf8(n);
    var t := u + rest;
    assert forall i :: 0 <= i < |u| ==> t[i] == u[i];
    if 0x800 <= n < 0x1_0000 {
      SecondOfThree(n);
      hide ScalarValue;
    } else if 0x1_0000 <= n {
      SecondOfFour(n);
      hide ScalarValue;
    }
  }

  lemma SecondOfThree(n: int)
    requires 0x800 <= n < 0x1_0000 && ScalarValue(n)
    ensures 0 <= n / 4096 < 16 && 0 <= n / 64 % 64 < 64
    ensures n / 4096 == 0 ==> n / 64 % 64 >= 32
    ensures n / 4096 == 13 ==> n / 64 % 64 < 32
  {
  }

  lemma SecondOfFour(n: int)
    requires 0x1_0000 <= n < 0x11_0000
    ensures 0 <= n / 262144 <= 4 && 0 <= n / 4096 % 64 < 64
    ensures n / 262144 == 0 ==> n / 4096 % 64 >= 16
    ensures n / 262144 == 4 ==> n / 4096 % 64 < 16
  {
  }

  lemma SixBits(x: nat, y: nat)
    requires y < 64
    ensures (x * 64 + y) / 64 == x && (x * 64 + y) % 64 == y
  {
  }

  lemma Lead2(t: Text) returns (n: int)
    requires |t| >= 2 && 0xC2 <= t[0] as int <= 0xDF && Continuation(t[1])
    ensures ScalarValue(n) && Utf8(n) == [t[0], t[1]]
  {
    var x, y := t[0] as int - 0xC0, t[1] as int - 0x80;
    SixBits(x, y);
    n := x * 64 + y;
  }

  lemma Lead3(t: Text) returns (n: int)
    requires |t| >= 3 && 0xE0 <= t[0] as int <= 0xEF && Continuation(t[1]) && Continuation(t[2])
    requires t[0] as int == 0xE0 ==> t[1] as int >= 0xA0
    requires t[0] as int == 0xED ==> t[1] as int < 0xA0
    ensures ScalarValue(n) && Utf8(n) == [t[0], t[1], t[2]]
  {
    var x, y, z := t[0] as int - 0xE0, t[1] as int - 0x80, t[2] as int - 0x80;
    SixBits(x, y);
    SixBits(x * 64 + y, z);
    n := (x * 64 + y) * 64 + z;
    assert n / 4096 == x;
  }

  lemma Lead4(t: Text) returns (n: int)
    requires |t| >= 4 && 0xF0 <= t[0] as int <= 0xF4 && Continuation(t[1]) && Continuation(t[2]) && Continuation(t[3])
    requires t[0] as int == 0xF0 ==> t[1] as int >= 0x90
    requires t[0] as int == 0xF4 ==> t[1] as int < 0x90
    ensures ScalarValue(n) && Utf8(n) == [t[0], t[1], t[2], t[3]]
  {
    var w, x, y, z := t[0] as int - 0xF0, t[1] as int - 0x80, t[2] as int - 0x80, t[3] as int - 0x80;
    SixBits(w, x);
    SixBits(w * 64 + x, y);
    SixBits((w * 64 + x) * 64 + y, z);
    n := ((w * 64 + x) * 64 + y) * 64 + z;
    assert n / 262144 == w && n / 4096 == w * 64 + x;
  }

  /** A well-formed sequence is the bytes of a code point. */
  lemma LeadIsUtf8(t: Text) returns (n: int)
    requires Utf8Lead(t) > 0
    ensures ScalarValue(n) && t[..Utf8Lead(t)] == Utf8(n)
  {
    hide Utf8, ScalarValue;
    match Utf8Lead(t)
    case 1 => n := Lead1(t);
    case 2 => n := Lead2(t);
    case 3 => n := Lead3(t);
    case 4 => n := Lead4(t);
  }

  lemma Lead1(t: Text) returns (n: int)
    requires t != [] && t[0] as int < 0x80
    ensures ScalarValue(n) && Utf8(n) == [t[0]]
  {
    n := t[0] as int;
  }

  predicate Scalars(points: seq<int>) { forall i :: 0 <= i < |points| ==> ScalarValue(points[i]) }

  function Utf8All(points: seq<int>): Text
    requires Scalars(points)
  {
    if points == [] then [] else Utf8(points[0]) + Utf8All(points[1..])
  }

  /** The bytes of any code points are valid, */
  lemma {:induction false} Utf8AllValid(points: seq<int>)
    requires Scalars(points)
    ensures ValidUtf8(Utf8All(points))
  {
    if points != [] {
      var rest := Utf8All(points[1..]);
      Utf8AllValid(points[1..]);
      Utf8Leads(points[0], rest);
      assert (Utf8(points[0]) + rest)[|Utf8(points[0])|..] == rest;
    }
  }

  /** and valid bytes are those of some code points. */
  lemma {:induction false} ValidIsUtf8(t: Text) returns (points: seq<int>)
    requires ValidUtf8(t)
    ensures Scalars(points) && t == Utf8All(points)
    decreases |t|
  {
    hide Utf8Lead, Utf8, ScalarValue;
    if t == [] {
      points := [];
    } else {
      var n := LeadIsUtf8(t);
      var rest := ValidIsUtf8(t[Utf8Lead(t)..]);
      points := [n] + rest;
      assert points[1..] == rest;
    }
  }

  // ---------------------------------------------------------------- percent escapes

  predicate IsDigit(c: Byte) { '0' <= c <= '9' }

  predicate IsHex(c: Byte) { IsDigit(c) || 'A' <= c <= 'F' || 'a' <= c <= 'f' }

  /** Unreserved characters: section 2.3 of RFC 3986. */
  predicate Unreserved(c: Byte) {
    'A' <= c <= 'Z' || 'a' <= c <= 'z' || IsDigit(c) || c == '-' || c == '.' || c == '_' || c == '~'
  }

  function HexValue(c: Byte): (v: nat)
    requires IsHex(c)
    ensures v < 16
  {
    if IsDigit(c) then c as int - '0' as int
    else if 'A' <= c <= 'F' then c as int - 'A' as int + 10
    else c as int - 'a' as int + 10
  }

  function HexDigit(v: nat): (c: Byte)
    requires v < 16
    ensures IsHex(c) && !('a' <= c <= 'f') && HexValue(c) == v
  {
    if v < 10 then ('0' as int + v) as char else ('A' as int + v - 10) as char
  }

  /** The uppercase escape of one byte (section 2.1 of RFC 3986). */
  function Escape(c: Byte): (e: Text)
    ensures |e| == 3
  {
    ['%', HexDigit(c as int / 16 % 16), HexDigit(c as int % 16)]
  }

  predicate StartsWithEscape(t: Text) { |t| >= 3 && t[0] == '%' && IsHex(t[1]) && IsHex(t[2]) }

  function EscapedByte(t: Text): (c: Byte)
    requires StartsWithEscape(t)
  {
    (HexValue(t[1]) * 16 + HexValue(t[2])) as char
  }

  /** The bytes `t` stands for, or None for a malformed escape. */
  function Unescape(t: Text): (r: Option<Text>)
    ensures r.Some? && t != [] ==> r.value != []
  {
    if t == [] then Some([])
    else if t[0] != '%' then
      var rest := Unescape(t[1..]);
      if rest.None? then None else Some([t[0]] + rest.value)
    else if !StartsWithEscape(t) then None
    else
      var rest := Unescape(t[3..]);
      if rest.None? then None else Some([EscapedByte(t)] + rest.value)
  }

  /** `decodeURIComponent`: None for a malformed escape or for bytes that are not UTF-8. */
  function Decode(t: Text): (r: Option<Text>)
    ensures r.Some? && t != [] ==> r.value != []
  {
    var bytes := Unescape(t);
    if bytes.Some? && ValidUtf8(bytes.value) then bytes else None
  }

  /** Every byte outside the unreserved ones becomes its uppercase escape. */
  function Encode(t: Text): (r: Text)
    ensures t != [] ==> r != []
  {
    if t == [] then [] else EncodeByte(t[0]) + Encode(t[1..])
  }

  function EncodeByte(c: Byte): (r: Text)
    ensures r != []
  {
    if Unreserved(c) then [c] else Escape(c)
  }

  lemma EscapeReadsBack(c: Byte, rest: Text)
    requires c as int < 256
    ensures StartsWithEscape(Escape(c) + rest) && EscapedByte(Escape(c) + rest) == c
    ensures (Escape(c) + rest)[3..] == rest
  {
    var t := Escape(c) + rest;
    assert t[0] == '%' && t[1] == HexDigit(c as int / 16 % 16) && t[2] == HexDigit(c as int % 16);
    var h, l := c as int / 16, c as int % 16;
    assert HexValue(t[1]) == h && HexValue(t[2]) == l;
    assert h * 16 + l == c as int;
  }

  function UpperHex(c: Byte): Byte { if 'a' <= c <= 'f' then (c as int - 32) as char else c }

  /** An escape in any case is that of its byte, in capitals. */
  lemma EscapeAnyCase(t: Text)
    requires StartsWithEscape(t)
    ensures Escape(EscapedByte(t)) == ['%', UpperHex(t[1]), UpperHex(t[2])]
  {
    HexUpper(t[1]);
    HexUpper(t[2]);
    hide HexValue, HexDigit, UpperHex;
    FourBits(HexValue(t[1]), HexValue(t[2]));
  }

  lemma FourBits(h: nat, l: nat)
    requires h < 16 && l < 16
    ensures (h * 16 + l) / 16 % 16 == h && (h * 16 + l) % 16 == l
  {
  }

  lemma HexUpper(c: Byte)
    requires IsHex(c)
    ensures HexDigit(HexValue(c)) == UpperHex(c)
  {
  }

  /** A hex digit is one of the sixteen, small or capital, and its value is its place. */
  lemma HexIs(c: Byte, v: nat)
    requires v < 16
    ensures IsHex(c) && HexValue(c) == v <==> c == "0123456789abcdef"[v] || c == "0123456789ABCDEF"[v]
  {
    if v < 10 {
      assert "0123456789abcdef"[v] as int == '0' as int + v == "0123456789ABCDEF"[v] as int;
    } else {
      assert "0123456789abcdef"[v] as int == 'a' as int + v - 10;
      assert "0123456789ABCDEF"[v] as int == 'A' as int + v - 10;
    }
  }

  /** The digits of an escape are `0` to `9` and `A` to `F`. */
  lemma HexDigitIs(v: nat)
    requires v < 16
    ensures HexDigit(v) == "0123456789ABCDEF"[v]
  {
  }

  lemma {:induction false} UnescapeEncode(t: Text)
    requires Bytes(t)
    ensures Unescape(Encode(t)) == Some(t)
  {
    if t != [] {
      UnescapeEncode(t[1..]);
      var rest := Encode(t[1..]);
      if Unreserved(t[0]) {
        assert ([t[0]] + rest)[1..] == rest;
      } else {
        EscapeReadsBack(t[0], rest);
      }
      assert [t[0]] + t[1..] == t;
    }
  }

  lemma {:induction false} UnescapePlain(t: Text)
    requires '%' !in t
    ensures Unescape(t) == Some(t)
  {
    if t != [] {
      UnescapePlain(t[1..]);
      assert [t[0]] + t[1..] == t;
    }
  }

  /** Letters, digits, `-`, `.`, `_` and `~` stay; their codes are those of ASCII. */
  lemma EncodeKeeps(c: Byte)
    ensures var n := c as int;
            EncodeByte(c) == [c] <==>
            65 <= n <= 90 || 97 <= n <= 122 || 48 <= n <= 57 || n == 45 || n == 46 || n == 95 || n == 126
  {
  }

  /** Encoded text holds unreserved bytes and escapes only. */
  lemma {:induction false} EncodeBytes(t: Text)
    ensures forall c | c in Encode(t) :: Unreserved(c) || c == '%'
  {
    if t != [] {
      EncodeBytes(t[1..]);
    }
  }

  lemma PrependUnescaped(x: Byte, a: Text, c: Byte, b: Text)
    ensures Unescape(a).Some? && Unescape(b).Some?
            ==> [x] + (Unescape(a).value + [c] + Unescape(b).value)
                == ([x] + Unescape(a).value) + [c] + Unescape(b).value
  {
    if Unescape(a).Some? && Unescape(b).Some? {
      Regroup([x], Unescape(a).value, c, Unescape(b).value);
    }
  }

  /** A byte that is neither `%` nor a hex digit cannot be inside an escape, so the two sides unescape on their own. */
  lemma {:induction false} UnescapeAround(a: Text, c: Byte, b: Text)
    requires c != '%' && !IsHex(c)
    ensures var whole := Unescape(a + [c] + b);
            if Unescape(a).Some? && Unescape(b).Some?
            then whole == Some(Unescape(a).value + [c] + Unescape(b).value)
            else whole.None?
    decreases |a|
  {
    var t := a + [c] + b;
    if a == [] {
      assert t[0] == c && t[1..] == b;
      assert Unescape(a).value + [c] == [c];
    } else if a[0] != '%' {
      UnescapeAround(a[1..], c, b);
      assert t[1..] == a[1..] + [c] + b;
      PrependUnescaped(a[0], a[1..], c, b);
    } else if StartsWithEscape(a) {
      UnescapeAround(a[3..], c, b);
      assert t[3..] == a[3..] + [c] + b;
      PrependUnescaped(EscapedByte(a), a[3..], c, b);
    } else {
      assert |a| == 1 ==> t[1] == c;
      assert |a| == 2 ==> t[2] == c;
      assert !StartsWithEscape(t);
    }
  }

  /** Decoding splits at an ASCII byte that no escape can hold. */
  lemma DecodeAround(a: Text, c: Byte, b: Text)
    requires c != '%' && !IsHex(c) && c as int < 0x80
    ensures var whole := Decode(a + [c] + b);
            if Decode(a).Some? && Decode(b).Some?
            then whole == Some(Decode(a).value + [c] + Decode(b).value)
            else whole.None?
  {
    UnescapeAround(a, c, b);
    if Unescape(a).Some? && Unescape(b).Some? {
      Utf8AroundAscii(Unescape(a).value, c, Unescape(b).value);
    }
  }

  lemma DecodeEncode(t: Text)
    requires ValidUtf8(t)
    ensures Decode(Encode(t)) == Some(t)
  {
    Utf8Bytes(t);
    UnescapeEncode(t);
  }
}
