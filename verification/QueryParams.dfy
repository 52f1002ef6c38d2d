/**
 * The query of a navigation path: reading its parts into a multimap that remembers first-seen order, listing the keys
 * the way a JavaScript object does, and printing them back.
 */
module QueryParams {
  import opened Options
  import opened Text

  /** A JavaScript `Map<string, string[]>`: its keys in insertion order and each key's values. */
  datatype Params = Params(order: seq<Text>, values: map<Text, seq<Text>>)

  const NO_PARAMS := Params([], map[])

  // ---------------------------------------------------------------- reading

  /** `text.replaceAll('+', '%20')`. */
  function PlusAsSpace(t: Text): Text {
    if t == [] then [] else (if t[0] == '+' then "%20" else [t[0]]) + PlusAsSpace(t[1..])
  }

  /** `decodeNavComponent(text) ?? ''`. */
  function DecodeOrEmpty(t: Text): Text {
    var d := Decode(t);
    if d.Some? then d.value else []
  }

  /** A param without a name is dropped. */
  predicate Named(part: Text) { part != [] && part[0] != '=' }

  function KeyText(part: Text): Text { part[..IndexOf(part, '=')] }

  function ValueText(part: Text): Text {
    var i := IndexOf(part, '=');
    if i == |part| then [] else part[i + 1..]
  }

  function Key(part: Text): Text { DecodeOrEmpty(PlusAsSpace(KeyText(part))) }

  function Value(part: Text): Text { DecodeOrEmpty(PlusAsSpace(ValueText(part))) }

  /** What `isValidNavPath` asks of one part of the query. */
  predicate PartOk(part: Text) { Named(part) ==> Decode(PlusAsSpace(part)).Some? }

  /** One named part: its decoded key and value. */
  datatype Pair = Pair(key: Text, value: Text)

  function ParsePart(part: Text): seq<Pair> {
    if Named(part) then [Pair(Key(part), Value(part))] else []
  }

  /** The named parts of the query, left to right. */
  function ParseParts(parts: seq<Text>): seq<Pair> {
    if parts == [] then [] else ParseParts(parts[..|parts| - 1]) + ParsePart(parts[|parts| - 1])
  }

  /** `params.set(key, [...(params.get(key) ?? []), value])`. */
  function Put(p: Params, k: Text, v: Text): Params {
    Params(if k in p.values then p.order else p.order + [k],
           p.values[k := (if k in p.values then p.values[k] else []) + [v]])
  }

  function ValuesIn(values: map<Text, seq<Text>>, k: Text): seq<Text> { if k in values then values[k] else [] }

  /** The multimap after every pair, left to right. */
  function Group(pairs: seq<Pair>): Params {
    if pairs == [] then NO_PARAMS
    else
      var last := pairs[|pairs| - 1];
      Put(Group(pairs[..|pairs| - 1]), last.key, last.value)
  }

  predicate Distinct(keys: seq<Text>) { forall i, j :: 0 <= i < j < |keys| ==> keys[i] != keys[j] }

  predicate ProperKey(k: Text) { k != [] && ValidUtf8(k) }

  predicate ProperPair(p: Pair) { ProperKey(p.key) && ValidUtf8(p.value) }

  predicate ProperValues(vs: seq<Text>) { vs != [] && forall v | v in vs :: ValidUtf8(v) }

  /** What reading guarantees: the order lists each key once, and every key has at least one value. */
  ghost predicate Proper(p: Params) {
    && Distinct(p.order)
    && (forall k :: k in p.order <==> k in p.values)
    && (forall k | k in p.values :: ProperKey(k) && ProperValues(p.values[k]))
  }

  lemma {:induction false} PlusAround(a: Text, c: Byte, b: Text)
    requires c != '+'
    ensures PlusAsSpace(a + [c] + b) == PlusAsSpace(a) + [c] + PlusAsSpace(b)
  {
    var t := a + [c] + b;
    if a == [] {
      assert t[0] == c && t[1..] == b;
    } else {
      assert t[0] == a[0] && t[1..] == a[1..] + [c] + b;
      PlusAround(a[1..], c, b);
      Regroup(if a[0] == '+' then "%20" else [a[0]], PlusAsSpace(a[1..]), c, PlusAsSpace(b));
    }
  }

  // ---------------------------------------------------------------- `+` is a space

  /** The space a `+` stands for is never part of an escape. */
  lemma {:induction false} PlusUnescapes(t: Text)
    requires Unescape(PlusAsSpace(t)).Some?
    ensures Unescape(t).Some?
    decreases |t|
  {
    if t != [] {
      var u := PlusAsSpace(t);
      if t[0] == '+' {
        assert u == ['%', '2', '0'] + PlusAsSpace(t[1..]);
        assert u[3..] == PlusAsSpace(t[1..]);
        PlusUnescapes(t[1..]);
      } else {
        assert u == [t[0]] + PlusAsSpace(t[1..]);
        assert u[1..] == PlusAsSpace(t[1..]);
        if t[0] == '%' {
          EscapePlus(t);
          PlusUnescapes(t[3..]);
        } else {
          PlusUnescapes(t[1..]);
        }
      }
    }
  }

  lemma PlusHead(t: Text)
    ensures t == [] ==> PlusAsSpace(t) == []
    ensures t != [] && t[0] == '+' ==> PlusAsSpace(t) == "%20" + PlusAsSpace(t[1..])
    ensures t != [] && t[0] != '+' ==> PlusAsSpace(t) == [t[0]] + PlusAsSpace(t[1..])
  {
  }

  lemma EscapePlus(t: Text)
    requires t != [] && t[0] == '%' && StartsWithEscape(PlusAsSpace(t))
    ensures StartsWithEscape(t) && PlusAsSpace(t)[3..] == PlusAsSpace(t[3..])
  {
    hide PlusAsSpace;
    var u := t[1..];
    PlusHead(t);
    PlusHead(u);
    assert !IsHex('%');
    assert u != [] && u[0] != '+';
    var v := t[2..];
    assert PlusAsSpace(t) == [t[0], t[1]] + PlusAsSpace(v) by {
      assert u[1..] == v;
    }
    PlusHead(v);
    assert v != [] && v[0] != '+';
    assert PlusAsSpace(t) == [t[0], t[1], t[2]] + PlusAsSpace(t[3..]) by {
      assert v[1..] == t[3..];
    }
  }

  /** What a lenient reader of a form sees: `+` is a space, a sound escape is its byte, all else is itself. */
  function FormBytes(t: Text): Text
    decreases |t|
  {
    if t == [] then []
    else if t[0] == '+' then [' '] + FormBytes(t[1..])
    else if StartsWithEscape(t) then [EscapedByte(t)] + FormBytes(t[3..])
    else [t[0]] + FormBytes(t[1..])
  }

  /** Decoding a key or a value gives what the lenient reader sees. */
  lemma {:induction false} PlusMeans(t: Text)
    requires Unescape(PlusAsSpace(t)).Some?
    ensures Unescape(PlusAsSpace(t)) == Some(FormBytes(t))
    decreases |t|
  {
    if t != [] {
      var u := PlusAsSpace(t);
      PlusHead(t);
      if t[0] == '+' {
        assert u[3..] == PlusAsSpace(t[1..]);
        assert StartsWithEscape(u) && EscapedByte(u) == ' ';
        PlusMeans(t[1..]);
      } else if t[0] == '%' {
        EscapePlus(t);
        assert EscapedByte(u) == EscapedByte(t) by { EscapeKept(t); }
        PlusMeans(t[3..]);
      } else {
        assert u[1..] == PlusAsSpace(t[1..]);
        PlusMeans(t[1..]);
      }
    }
  }

  lemma EscapeKept(t: Text)
    requires StartsWithEscape(t)
    ensures StartsWithEscape(PlusAsSpace(t)) && PlusAsSpace(t)[..3] == t[..3]
    ensures EscapedByte(PlusAsSpace(t)) == EscapedByte(t)
  {
    hide PlusAsSpace;
    PlusHead(t);
    PlusHead(t[1..]);
    PlusHead(t[2..]);
    assert t[1..][1..] == t[2..] && t[2..][1..] == t[3..];
    assert PlusAsSpace(t) == t[..3] + PlusAsSpace(t[3..]);
  }

  lemma DecodeFormBytes(t: Text)
    requires Decode(PlusAsSpace(t)).Some?
    ensures DecodeOrEmpty(PlusAsSpace(t)) == FormBytes(t)
  {
    PlusMeans(t);
  }

  /** A named part gives its key and its value as the lenient reader sees them; a nameless one gives nothing. */
  lemma PartMeans(k: Text, v: Text)
    requires '=' !in k
    ensures k == [] ==> ParsePart(k) == [] && ParsePart(k + ['='] + v) == []
    ensures k != [] && PartOk(k) ==> ParsePart(k) == [Pair(FormBytes(k), [])]
    ensures k != [] && PartOk(k + ['='] + v) ==> ParsePart(k + ['='] + v) == [Pair(FormBytes(k), FormBytes(v))]
  {
    hide Decode, PlusAsSpace;
    var part := k + ['='] + v;
    PairSplits(k, v);
    if k != [] {
      assert part[0] == k[0] && k[0] in k;
      if PartOk(part) {
        PartDecodes(part);
        DecodeFormBytes(k);
        DecodeFormBytes(v);
      }
      if PartOk(k) {
        IndexOfAbsent(k, '=');
        assert k[..|k|] == k;
        PartDecodes(k);
        DecodeFormBytes(k);
        DecodeNothing();
      }
    }
  }

  lemma DecodeNothing()
    ensures DecodeOrEmpty(PlusAsSpace([])) == []
  {
  }

  lemma {:induction false} PlusFreeAfter(t: Text)
    ensures '+' !in PlusAsSpace(t) && (forall c | c in PlusAsSpace(t) :: c in t || c in "%20")
    ensures |t| <= |PlusAsSpace(t)| && forall c | c in t :: c == '+' || c in PlusAsSpace(t)
  {
    if t != [] {
      PlusFreeAfter(t[1..]);
    }
  }

  lemma PlusTwice(t: Text)
    ensures PlusAsSpace(PlusAsSpace(t)) == PlusAsSpace(t)
  {
    PlusFreeAfter(t);
    PlusFree(PlusAsSpace(t));
  }

  lemma PlusTexts(part: Text)
    ensures KeyText(PlusAsSpace(part)) == PlusAsSpace(KeyText(part))
    ensures ValueText(PlusAsSpace(part)) == PlusAsSpace(ValueText(part))
  {
    hide PlusAsSpace;
    var i := IndexOf(part, '=');
    var k, v := KeyText(part), ValueText(part);
    PlusFreeAfter(k);
    PlusHead([]);
    if i < |part| {
      assert part == k + ['='] + v;
      PlusAround(k, '=', v);
      PairSplits(PlusAsSpace(k), PlusAsSpace(v));
    } else {
      assert k == part;
      IndexOfAbsent(PlusAsSpace(k), '=');
      assert PlusAsSpace(k)[..|PlusAsSpace(k)|] == PlusAsSpace(k);
    }
  }

  /** A part whose `+` are written `%20` reads the same. */
  lemma PlusEscapedPart(part: Text)
    ensures ParsePart(PlusAsSpace(part)) == ParsePart(part) && (PartOk(PlusAsSpace(part)) <==> PartOk(part))
  {
    hide Decode, PlusAsSpace, KeyText, ValueText;
    PlusHead(part);
    PlusTexts(part);
    PlusTwice(part);
    PlusTwice(KeyText(part));
    PlusTwice(ValueText(part));
  }

  function PlusAll(parts: seq<Text>): (r: seq<Text>)
    ensures |r| == |parts| && forall i :: 0 <= i < |parts| ==> r[i] == PlusAsSpace(parts[i])
  {
    seq(|parts|, i requires 0 <= i < |parts| => PlusAsSpace(parts[i]))
  }

  lemma SplitHead(x: Byte, t: Text, sep: Byte)
    requires x != sep
    ensures Split([x] + t, sep) == [[x] + Split(t, sep)[0]] + Split(t, sep)[1..]
  {
    assert ([x] + t)[1..] == t;
  }

  lemma SplitEscapedSpace(t: Text)
    ensures Split("%20" + t, '&') == ["%20" + Split(t, '&')[0]] + Split(t, '&')[1..]
  {
    var parts := Split(t, '&');
    assert "%20" + t == ['%'] + (['2'] + (['0'] + t));
    hide Split;
    SplitHead('0', t, '&');
    SplitHead('2', ['0'] + t, '&');
    SplitHead('%', ['2'] + (['0'] + t), '&');
    assert ['%'] + (['2'] + (['0'] + parts[0])) == "%20" + parts[0];
  }

  lemma PlusAllCons(head: Text, rest: seq<Text>)
    ensures PlusAll([head] + rest) == [PlusAsSpace(head)] + PlusAll(rest)
  {
    hide PlusAsSpace, PlusAll;
    var r, s := PlusAll([head] + rest), PlusAll(rest);
    forall i | 0 <= i < |r| ensures r[i] == ([PlusAsSpace(head)] + s)[i] {
      if i > 0 {
        assert ([head] + rest)[i] == rest[i - 1];
      }
    }
  }

  lemma {:induction false} PlusSplits(query: Text)
    ensures Split(PlusAsSpace(query), '&') == PlusAll(Split(query, '&'))
  {
    PlusHead(query);
    if query == [] {
      assert PlusAll([[]]) == [[]] by { PlusAllCons([], []); }
    } else {
      var x, t := query[0], query[1..];
      var rest, plus := Split(t, '&'), PlusAsSpace(t);
      PlusSplits(t);
      assert query == [x] + t && rest == [rest[0]] + rest[1..];
      PlusAllCons(rest[0], rest[1..]);
      if x == '&' {
        assert ([x] + plus)[1..] == plus;
        PlusAllCons([], rest);
        PlusHead([]);
      } else {
        SplitHead(x, t, '&');
        PlusHead([x] + rest[0]);
        assert ([x] + rest[0])[1..] == rest[0];
        PlusAllCons([x] + rest[0], rest[1..]);
        hide Split, PlusAsSpace, PlusAll;
        if x == '+' {
          SplitEscapedSpace(plus);
        } else {
          SplitHead(x, plus, '&');
        }
      }
    }
  }

  lemma {:induction false} PlusEscapedParts(parts: seq<Text>)
    ensures ParseParts(PlusAll(parts)) == ParseParts(parts)
    ensures (forall p | p in PlusAll(parts) :: PartOk(p)) <==> (forall p | p in parts :: PartOk(p))
  {
    hide PartOk, ParsePart, PlusAsSpace;
    if parts != [] {
      var init, last := parts[..|parts| - 1], parts[|parts| - 1];
      assert PlusAll(parts) == PlusAll(init) + [PlusAsSpace(last)];
      assert parts == init + [last];
      PlusEscapedParts(init);
      PlusEscapedPart(last);
    }
  }

  /**
   * A part that decodes as a whole has a key and a value that decode, so the empty-string fallbacks are never taken.
   */
  lemma PartDecodes(part: Text)
    requires Named(part) && PartOk(part)
    ensures Decode(PlusAsSpace(KeyText(part))).Some? && Decode(PlusAsSpace(ValueText(part))).Some?
    ensures ProperKey(Key(part)) && ValidUtf8(Value(part))
  {
    var i := IndexOf(part, '=');
    var k, v := KeyText(part), ValueText(part);
    if i < |part| {
      assert part == k + ['='] + v;
      PlusAround(k, '=', v);
      DecodeAround(PlusAsSpace(k), '=', PlusAsSpace(v));
    } else {
      assert k == part;
      assert Decode([]) == Some([]);
    }
    assert PlusAsSpace(k) != [];
  }

  lemma {:induction false} ParsedProper(parts: seq<Text>)
    requires forall part | part in parts :: PartOk(part)
    ensures forall p | p in ParseParts(parts) :: ProperPair(p)
  {
    if parts != [] {
      var part := parts[|parts| - 1];
      ParsedProper(parts[..|parts| - 1]);
      if Named(part) {
        PartDecodes(part);
      }
    }
  }

  lemma {:induction false} GroupProper(pairs: seq<Pair>)
    requires forall p | p in pairs :: ProperPair(p)
    ensures Proper(Group(pairs))
  {
    if pairs != [] {
      var init, last := pairs[..|pairs| - 1], pairs[|pairs| - 1];
      GroupProper(init);
      assert last in pairs;
      var before, after := Group(init), Group(pairs);
      assert forall j :: j in after.order <==> j in before.order || j == last.key;
    }
  }

  // ---------------------------------------------------------------- what the pairs say, read directly

  /** The values the pairs give `key`, in order. */
  function ValuesOf(pairs: seq<Pair>, key: Text): seq<Text> {
    if pairs == [] then []
    else
      var last := pairs[|pairs| - 1];
      ValuesOf(pairs[..|pairs| - 1], key) + (if last.key == key then [last.value] else [])
  }

  /** The keys of the pairs, each at its first position. */
  function FirstSeen(pairs: seq<Pair>): seq<Text> {
    if pairs == [] then []
    else
      var seen, last := FirstSeen(pairs[..|pairs| - 1]), pairs[|pairs| - 1];
      if last.key in seen then seen else seen + [last.key]
  }

  lemma {:induction false} GroupKeys(pairs: seq<Pair>)
    ensures forall k :: k in Group(pairs).order <==> k in Group(pairs).values
  {
    if pairs != [] {
      GroupKeys(pairs[..|pairs| - 1]);
    }
  }

  /** The multimap's order is the first-seen order. */
  lemma {:induction false} GroupOrder(pairs: seq<Pair>)
    ensures Group(pairs).order == FirstSeen(pairs)
  {
    if pairs != [] {
      GroupOrder(pairs[..|pairs| - 1]);
      GroupKeys(pairs[..|pairs| - 1]);
    }
  }

  /** The multimap holds every key's values. */
  lemma {:induction false} GroupValues(pairs: seq<Pair>, k: Text)
    ensures ValuesOf(pairs, k) == ValuesIn(Group(pairs).values, k)
  {
    if pairs != [] {
      GroupValues(pairs[..|pairs| - 1], k);
    }
  }

  lemma {:induction false} GroupNonEmpty(pairs: seq<Pair>)
    ensures forall k | k in Group(pairs).values :: Group(pairs).values[k] != []
  {
    if pairs != [] {
      GroupNonEmpty(pairs[..|pairs| - 1]);
    }
  }

  lemma SameMap(p: map<Text, seq<Text>>, q: map<Text, seq<Text>>)
    requires (forall k | k in p :: p[k] != []) && (forall k | k in q :: q[k] != [])
    ensures p == q <==> forall k :: ValuesIn(p, k) == ValuesIn(q, k)
  {
    if forall k :: ValuesIn(p, k) == ValuesIn(q, k) {
      forall k ensures k in p <==> k in q {
        assert ValuesIn(p, k) == ValuesIn(q, k);
      }
      forall k | k in p ensures p[k] == q[k] {
        assert ValuesIn(p, k) == ValuesIn(q, k);
      }
    }
  }

  /** The pairs give every key the same values. */
  ghost predicate AgreeOnValues(a: seq<Pair>, b: seq<Pair>) { forall key :: ValuesOf(a, key) == ValuesOf(b, key) }

  /** Two multimaps hold the same values exactly when the pairs give every key the same values. */
  lemma SameValues(a: seq<Pair>, b: seq<Pair>)
    ensures Group(a).values == Group(b).values <==> AgreeOnValues(a, b)
  {
    var p, q := Group(a).values, Group(b).values;
    GroupNonEmpty(a);
    GroupNonEmpty(b);
    SameMap(p, q);
    if p == q {
      forall k ensures ValuesOf(a, k) == ValuesOf(b, k) {
        GroupValues(a, k);
        GroupValues(b, k);
      }
    } else {
      var k :| ValuesIn(p, k) != ValuesIn(q, k);
      GroupValues(a, k);
      GroupValues(b, k);
    }
  }

  // ---------------------------------------------------------------- the order of an object's keys

  function DigitValue(c: Byte): nat { if IsDigit(c) then c as int - '0' as int else 0 }

  /** The number a string of digits spells. */
  function Decimal(k: Text): nat {
    if k == [] then 0 else 10 * Decimal(k[..|k| - 1]) + DigitValue(k[|k| - 1])
  }

  predicate Digits(k: Text) { forall c | c in k :: IsDigit(c) }

  predicate CanonicalDigits(k: Text) { k != [] && Digits(k) && (|k| == 1 || k[0] != '0') }

  /** An array index (section 10.1.11.1 of ECMA-262): a canonical decimal below 2^32 - 1. */
  predicate IsIndexKey(k: Text) {
    CanonicalDigits(k) && Decimal(k) < 0xFFFF_FFFF
  }

  function IndexKeys(keys: seq<Text>): (r: seq<Text>)
    ensures forall k :: k in r <==> k in keys && IsIndexKey(k)
  {
    if keys == [] then []
    else (if IsIndexKey(keys[0]) then [keys[0]] else []) + IndexKeys(keys[1..])
  }

  function OtherKeys(keys: seq<Text>): (r: seq<Text>)
    ensures forall k :: k in r <==> k in keys && !IsIndexKey(k)
  {
    if keys == [] then []
    else (if IsIndexKey(keys[0]) then [] else [keys[0]]) + OtherKeys(keys[1..])
  }

  function InsertByNumber(k: Text, sorted: seq<Text>): (r: seq<Text>)
    requires IsIndexKey(k) && forall j | j in sorted :: IsIndexKey(j)
    ensures forall j :: j in r <==> j == k || j in sorted
  {
    if sorted == [] || Decimal(k) <= Decimal(sorted[0]) then [k] + sorted
    else [sorted[0]] + InsertByNumber(k, sorted[1..])
  }

  function SortByNumber(keys: seq<Text>): (r: seq<Text>)
    requires forall k | k in keys :: IsIndexKey(k)
    ensures forall k :: k in r <==> k in keys
  {
    if keys == [] then [] else InsertByNumber(keys[0], SortByNumber(keys[1..]))
  }

  /** The order in which a plain object lists these keys. */
  function ObjectOrder(keys: seq<Text>): (r: seq<Text>)
    ensures forall k :: k in r <==> k in keys
  {
    SortByNumber(IndexKeys(keys)) + OtherKeys(keys)
  }

  predicate Ascending(keys: seq<Text>) {
    forall i, j :: 0 <= i < j < |keys| ==> Decimal(keys[i]) < Decimal(keys[j])
  }

  /** Canonical decimals spell different numbers. */
  lemma {:induction false} DecimalInjective(a: Text, b: Text)
    requires CanonicalDigits(a) && CanonicalDigits(b) && Decimal(a) == Decimal(b)
    ensures a == b
    decreases |a|
  {
    var a', b' := a[..|a| - 1], b[..|b| - 1];
    var x, y := a[|a| - 1], b[|b| - 1];
    assert x in a && y in b;
    assert Decimal(a') == Decimal(b') && x == y;
    assert a == a' + [x] && b == b' + [y];
    if a' != [] {
      DecimalPositive(a');
    }
    if b' != [] {
      DecimalPositive(b');
    }
    if a' != [] && b' != [] {
      DecimalInjective(a', b');
    }
  }

  lemma {:induction false} DecimalPositive(a: Text)
    requires a != [] && Digits(a) && a[0] != '0'
    ensures Decimal(a) > 0
  {
    if |a| > 1 {
      DecimalPositive(a[..|a| - 1]);
    } else {
      assert a[0] in a;
    }
  }

  lemma {:induction false} InsertAscends(k: Text, sorted: seq<Text>)
    requires IsIndexKey(k) && k !in sorted && (forall j | j in sorted :: IsIndexKey(j)) && Ascending(sorted)
    ensures Ascending(InsertByNumber(k, sorted))
  {
    if sorted != [] {
      assert sorted[0] in sorted;
      if Decimal(k) == Decimal(sorted[0]) {
        DecimalInjective(k, sorted[0]);
      } else if Decimal(k) > Decimal(sorted[0]) {
        InsertAscends(k, sorted[1..]);
        var r := InsertByNumber(k, sorted[1..]);
        forall j | 0 <= j < |r| ensures Decimal(sorted[0]) < Decimal(r[j]) {
          assert r[j] in r;
          if r[j] != k {
            var i :| 0 <= i < |sorted[1..]| && sorted[1..][i] == r[j];
            assert sorted[i + 1] == r[j];
          }
        }
      }
    }
  }

  lemma {:induction false} SortAscends(keys: seq<Text>)
    requires Distinct(keys) && forall k | k in keys :: IsIndexKey(k)
    ensures Ascending(SortByNumber(keys))
  {
    if keys != [] {
      assert Distinct(keys[1..]);
      assert keys[0] !in keys[1..];
      SortAscends(keys[1..]);
      InsertAscends(keys[0], SortByNumber(keys[1..]));
    }
  }

  lemma {:induction false} FilteredDistinct(keys: seq<Text>)
    requires Distinct(keys)
    ensures Distinct(IndexKeys(keys)) && Distinct(OtherKeys(keys))
  {
    if keys != [] {
      assert Distinct(keys[1..]) && keys[0] !in keys[1..];
      FilteredDistinct(keys[1..]);
    }
  }

  lemma SomeMember(keys: seq<Text>)
    ensures keys == [] || exists k :: k in keys
  {
    if keys != [] {
      assert keys[0] in keys;
    }
  }

  /** A set of numbers has one ascending list. */
  lemma {:induction false} AscendingUnique(a: seq<Text>, b: seq<Text>)
    requires (forall k | k in a :: IsIndexKey(k)) && (forall k | k in b :: IsIndexKey(k))
    requires Ascending(a) && Ascending(b)
    requires forall k :: k in a <==> k in b
    ensures a == b
  {
    if a == [] {
      SomeMember(b);
    } else {
      assert a[0] in b;
      assert b[0] in a;
      assert a[0] == b[0];
      forall k ensures k in a[1..] <==> k in b[1..] {
        assert k in a[1..] ==> k in a && k != a[0];
        assert k in b[1..] ==> k in b && k != b[0];
        assert k in a && k != a[0] ==> k in a[1..];
        assert k in b && k != b[0] ==> k in b[1..];
      }
      AscendingUnique(a[1..], b[1..]);
    }
  }

  lemma {:induction false} OtherKeysAppend(a: seq<Text>, b: seq<Text>)
    ensures OtherKeys(a + b) == OtherKeys(a) + OtherKeys(b)
  {
    if a == [] {
      assert a + b == b;
    } else {
      assert (a + b)[1..] == a[1..] + b;
      OtherKeysAppend(a[1..], b);
    }
  }

  lemma {:induction false} OtherKeysFixed(keys: seq<Text>, all: bool)
    requires forall k | k in keys :: IsIndexKey(k) == !all
    ensures OtherKeys(keys) == if all then keys else []
  {
    if keys != [] {
      assert keys[0] in keys;
      OtherKeysFixed(keys[1..], all);
    }
  }

  /** Array indices come first, ascending; the others follow. */
  predicate IndexFirst(keys: seq<Text>) {
    forall i, j :: 0 <= i < j < |keys| && IsIndexKey(keys[j])
      ==> IsIndexKey(keys[i]) && Decimal(keys[i]) < Decimal(keys[j])
  }

  lemma IndexFirstConcat(idx: seq<Text>, others: seq<Text>)
    requires (forall k | k in idx :: IsIndexKey(k)) && (forall k | k in others :: !IsIndexKey(k))
    requires Ascending(idx) && Distinct(others)
    ensures IndexFirst(idx + others) && Distinct(idx + others)
  {
    var all := idx + others;
    forall i, j | 0 <= i < j < |all|
      ensures all[i] != all[j]
      ensures IsIndexKey(all[j]) ==> IsIndexKey(all[i]) && Decimal(all[i]) < Decimal(all[j])
    {
      if j < |idx| {
        assert all[i] in idx;
      } else {
        assert all[j] == others[j - |idx|] && all[j] in others;
        if i < |idx| {
          assert all[i] in idx;
        } else {
          assert all[i] == others[i - |idx|];
        }
      }
    }
  }

  /** An object lists every key once, the array indices first and ascending, then the others in the order they had. */
  lemma ObjectOrderShape(keys: seq<Text>)
    requires Distinct(keys)
    ensures Distinct(ObjectOrder(keys)) && IndexFirst(ObjectOrder(keys))
    ensures OtherKeys(ObjectOrder(keys)) == OtherKeys(keys)
  {
    FilteredDistinct(keys);
    var idx, others := SortByNumber(IndexKeys(keys)), OtherKeys(keys);
    SortAscends(IndexKeys(keys));
    IndexFirstConcat(idx, others);
    OtherKeysAppend(idx, others);
    OtherKeysFixed(idx, false);
    OtherKeysFixed(others, true);
  }

  /** The order depends only on which keys there are and on the order of those that are not array indices. */
  lemma ObjectOrderDetermined(a: seq<Text>, b: seq<Text>)
    requires Distinct(a) && Distinct(b)
    requires forall k :: k in a <==> k in b
    ensures ObjectOrder(a) == ObjectOrder(b) <==> OtherKeys(a) == OtherKeys(b)
  {
    FilteredDistinct(a);
    FilteredDistinct(b);
    SortAscends(IndexKeys(a));
    SortAscends(IndexKeys(b));
    AscendingUnique(SortByNumber(IndexKeys(a)), SortByNumber(IndexKeys(b)));
    ObjectOrderShape(a);
    ObjectOrderShape(b);
  }

  /** Listing an object's keys again changes nothing. */
  lemma ObjectOrderFixed(keys: seq<Text>)
    requires Distinct(keys)
    ensures ObjectOrder(ObjectOrder(keys)) == ObjectOrder(keys)
  {
    ObjectOrderShape(keys);
    ObjectOrderDetermined(ObjectOrder(keys), keys);
  }

  // ---------------------------------------------------------------- printing

  function ListKey(k: Text, vs: seq<Text>): seq<Pair> {
    if vs == [] then [] else ListKey(k, vs[..|vs| - 1]) + [Pair(k, vs[|vs| - 1])]
  }

  /** One pair per value, keys in the given order. */
  function List(order: seq<Text>, values: map<Text, seq<Text>>): seq<Pair> {
    if order == [] then []
    else
      var k := order[|order| - 1];
      List(order[..|order| - 1], values) + ListKey(k, ValuesIn(values, k))
  }

  function Select(values: map<Text, seq<Text>>, keys: seq<Text>): map<Text, seq<Text>> {
    map k | k in keys && k in values :: values[k]
  }

  lemma GroupLast(pairs: seq<Pair>, last: Pair)
    ensures Group(pairs + [last]) == Put(Group(pairs), last.key, last.value)
  {
    assert (pairs + [last])[..|pairs|] == pairs;
  }

  lemma PutTwice(p: Params, k: Text, vs: seq<Text>, v: Text)
    requires k !in p.values
    ensures Put(if vs == [] then p else Params(p.order + [k], p.values[k := vs]), k, v)
            == Params(p.order + [k], p.values[k := vs + [v]])
  {
    assert p.values[k := vs][k := vs + [v]] == p.values[k := vs + [v]];
  }

  lemma {:induction false} KeyGroupsBack(pairs: seq<Pair>, k: Text, vs: seq<Text>)
    requires k !in Group(pairs).values
    ensures Group(pairs + ListKey(k, vs)) ==
            if vs == [] then Group(pairs)
            else Params(Group(pairs).order + [k], Group(pairs).values[k := vs])
  {
    if vs == [] {
      assert pairs + [] == pairs;
    } else {
      var init, v := vs[..|vs| - 1], vs[|vs| - 1];
      assert init + [v] == vs;
      KeyGroupsBack(pairs, k, init);
      Associative(pairs, ListKey(k, init), [Pair(k, v)]);
      GroupLast(pairs + ListKey(k, init), Pair(k, v));
      PutTwice(Group(pairs), k, init, v);
    }
  }

  /** Listing every key and grouping the pairs gives the same multimap, in the listed order. */
  lemma {:induction false} GroupList(order: seq<Text>, values: map<Text, seq<Text>>)
    requires Distinct(order)
    requires forall k | k in order :: k in values && values[k] != []
    ensures Group(List(order, values)) == Params(order, Select(values, order))
  {
    if order == [] {
      assert Select(values, order) == map[];
    } else {
      var init, k := order[..|order| - 1], order[|order| - 1];
      assert order == init + [k];
      assert k !in init;
      assert Select(values, init)[k := values[k]] == Select(values, order);
      GroupList(init, values);
      KeyGroupsBack(List(init, values), k, values[k]);
    }
  }

  lemma {:induction false} ListKeyProper(k: Text, vs: seq<Text>)
    requires ProperKey(k) && forall v | v in vs :: ValidUtf8(v)
    ensures forall p | p in ListKey(k, vs) :: ProperPair(p)
  {
    if vs != [] {
      ListKeyProper(k, vs[..|vs| - 1]);
    }
  }

  lemma {:induction false} ListProper(order: seq<Text>, values: map<Text, seq<Text>>)
    requires forall k | k in order :: k in values && ProperKey(k) && ProperValues(values[k])
    ensures forall p | p in List(order, values) :: ProperPair(p)
    ensures List(order, values) == [] ==> order == []
  {
    if order != [] {
      var k := order[|order| - 1];
      assert k in order;
      ListProper(order[..|order| - 1], values);
      ListKeyProper(k, values[k]);
    }
  }

  function PrintPair(p: Pair): Text { Encode(p.key) + ['='] + Encode(p.value) }

  function PrintPairs(pairs: seq<Pair>): seq<Text> {
    if pairs == [] then [] else PrintPairs(pairs[..|pairs| - 1]) + [PrintPair(pairs[|pairs| - 1])]
  }

  /** A printed part: it is checked and kept, and holds unreserved bytes, escapes and `=` only. */
  predicate Plain(part: Text) {
    PartOk(part) && Named(part) && forall c | c in part :: Unreserved(c) || c == '%' || c == '='
  }

  lemma {:induction false} PlusFree(t: Text)
    requires '+' !in t
    ensures PlusAsSpace(t) == t
  {
    if t != [] {
      PlusFree(t[1..]);
    }
  }

  lemma PairSplits(k: Text, v: Text)
    requires '=' !in k
    ensures KeyText(k + ['='] + v) == k && ValueText(k + ['='] + v) == v
  {
    SplitsAt(k, '=', v);
  }

  lemma EncodedPlain(t: Text)
    requires ValidUtf8(t)
    ensures '=' !in Encode(t) && PlusAsSpace(Encode(t)) == Encode(t) && Decode(Encode(t)) == Some(t)
  {
    assert '=' !in Encode(t) && '+' !in Encode(t) by {
      EncodeBytes(t);
    }
    PlusFree(Encode(t));
    DecodeEncode(t);
  }

  /** Reading one printed pair gives it back. */
  lemma PairReadsBack(p: Pair)
    requires ProperPair(p)
    ensures Plain(PrintPair(p)) && ParsePart(PrintPair(p)) == [p]
  {
    var part := PrintPair(p);
    var ek, ev := Encode(p.key), Encode(p.value);
    EncodedPlain(p.key);
    EncodedPlain(p.value);
    PairSplits(ek, ev);
    assert Named(part) by {
      assert part[0] == ek[0] && ek[0] in ek;
    }
    assert PartOk(part) by {
      PlusAround(ek, '=', ev);
      DecodeAround(ek, '=', ev);
    }
    assert Plain(part) by {
      EncodeBytes(p.key);
      EncodeBytes(p.value);
    }
  }

  lemma ParseLast(parts: seq<Text>, part: Text)
    ensures ParseParts(parts + [part]) == ParseParts(parts) + ParsePart(part)
  {
    assert (parts + [part])[..|parts|] == parts;
  }

  lemma {:induction false} PrintedPlain(pairs: seq<Pair>)
    requires forall p | p in pairs :: ProperPair(p)
    ensures forall part | part in PrintPairs(pairs) :: Plain(part)
    ensures |PrintPairs(pairs)| == |pairs|
  {
    if pairs != [] {
      PrintedPlain(pairs[..|pairs| - 1]);
      PairReadsBack(pairs[|pairs| - 1]);
    }
  }

  function AddPart(p: Params, part: Text): Params {
    if Named(part) then Put(p, Key(part), Value(part)) else p
  }

  /** Each part is read into the multimap after the ones before it. */
  lemma GroupAddPart(parts: seq<Text>, part: Text)
    ensures Group(ParseParts(parts + [part])) == AddPart(Group(ParseParts(parts)), part)
  {
    ParseLast(parts, part);
    if Named(part) {
      GroupLast(ParseParts(parts), Pair(Key(part), Value(part)));
    } else {
      assert ParseParts(parts) + [] == ParseParts(parts);
    }
  }

  /** The loop that fills the params map part by part. */
  method ReadParams(parts: seq<Text>) returns (params: Params)
    ensures params == Group(ParseParts(parts))
  {
    params := NO_PARAMS;
    for i := 0 to |parts|
      invariant params == Group(ParseParts(parts[..i]))
    {
      var part := parts[i];
      assert parts[..i + 1] == parts[..i] + [part];
      GroupAddPart(parts[..i], part);
      if part != [] {
        var separator := IndexOf(part, '=');
        var rawKey := part[..separator];
        if rawKey != [] {
          var key := DecodeOrEmpty(PlusAsSpace(rawKey));
          var value := if separator == |part| then [] else DecodeOrEmpty(PlusAsSpace(part[separator + 1..]));
          params := Put(params, key, value);
        }
      }
    }
    assert parts[..|parts|] == parts;
  }

  /** Reading printed pairs gives them back. */
  lemma {:induction false} PairsReadBack(pairs: seq<Pair>)
    requires forall p | p in pairs :: ProperPair(p)
    ensures ParseParts(PrintPairs(pairs)) == pairs
  {
    if pairs != [] {
      var init, last := pairs[..|pairs| - 1], pairs[|pairs| - 1];
      assert pairs == init + [last];
      PairsReadBack(init);
      assert ParsePart(PrintPair(last)) == [last] by {
        PairReadsBack(last);
      }
      ParseLast(PrintPairs(init), PrintPair(last));
    }
  }
}
