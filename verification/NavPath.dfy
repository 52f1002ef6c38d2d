/**
 * Canonical navigation paths: one spelling per page, so that comparing spellings compares pages.
 */
module NavPath {
  import opened Options
  import opened Text
  import opened QueryParams

  const MAX_NAV_PATH_LENGTH := 1024

  // ---------------------------------------------------------------- the grammar

  predicate PathChar(c: Byte) { Unreserved(c) || c == '%' }

  predicate QueryChar(c: Byte) { PathChar(c) || c == '=' || c == '&' || c == '+' }

  function Pathname(path: Text): Text { path[..IndexOf(path, '?')] }

  function Query(path: Text): Text {
    var i := IndexOf(path, '?');
    if i == |path| then [] else path[i + 1..]
  }

  predicate SegmentChars(s: Text) { s != [] && forall c | c in s :: PathChar(c) }

  predicate MatchesPathname(pathname: Text) {
    && pathname != [] && pathname[0] == '/'
    && (pathname == ['/'] || forall s | s in Split(pathname[1..], '/') :: SegmentChars(s))
  }

  /** `NAV_PATH_PATTERN`: non-empty segments of path characters, then an optional query. */
  predicate MatchesPattern(path: Text) {
    MatchesPathname(Pathname(path)) && forall c | c in Query(path) :: QueryChar(c)
  }

  predicate IsDotSegment(s: Text) { s == "." || s == ".." }

  predicate SegmentOk(s: Text) {
    s == [] || (Decode(s).Some? && !IsDotSegment(s) && !IsDotSegment(Decode(s).value))
  }

  predicate SegmentsOk(pathname: Text) { forall s | s in Split(pathname, '/')[1..] :: SegmentOk(s) }

  function Parts(path: Text): seq<Text> { Split(Query(path), '&') }

  /** A path EpicStaff accepts. */
  predicate Valid(path: Text) {
    && |path| <= MAX_NAV_PATH_LENGTH
    && MatchesPattern(path)
    && SegmentsOk(Pathname(path))
    && (forall part | part in Parts(path) :: PartOk(part))
  }

  // ---------------------------------------------------------------- the canonical spelling

  function NonEmpty(parts: seq<Text>): (r: seq<Text>)
    ensures forall s :: s in r <==> s in parts && s != []
  {
    if parts == [] then [] else (if parts[0] == [] then [] else [parts[0]]) + NonEmpty(parts[1..])
  }

  function DecodeAll(parts: seq<Text>): seq<Text> {
    if parts == [] then [] else [DecodeOrEmpty(parts[0])] + DecodeAll(parts[1..])
  }

  function EncodeAll(parts: seq<Text>): seq<Text> {
    if parts == [] then [] else [Encode(parts[0])] + EncodeAll(parts[1..])
  }

  /** The decoded segments of the path. */
  function Segments(path: Text): seq<Text> { DecodeAll(NonEmpty(Split(Pathname(path), '/'))) }

  /** The decoded params of the path, in order. */
  function QueryPairs(path: Text): seq<Pair> { ParseParts(Parts(path)) }

  function PrintPathname(segments: seq<Text>): Text { ['/'] + Join(EncodeAll(segments), '/') }

  function PrintQuery(parts: seq<Text>): Text { if parts == [] then [] else ['?'] + Join(parts, '&') }

  /** The pairs of a query as a plain object lists them: grouped by key, keys in object order. */
  function Entries(pairs: seq<Pair>): seq<Pair> {
    var params := Group(pairs);
    List(ObjectOrder(params.order), params.values)
  }

  function Print(segments: seq<Text>, pairs: seq<Pair>): Text {
    PrintPathname(segments) + PrintQuery(PrintPairs(pairs))
  }

  function Spelling(path: Text): Text { Print(Segments(path), Entries(QueryPairs(path))) }

  /** The one canonical spelling, or None. */
  function Canonical(path: Text): Option<Text> {
    if Valid(path) && Valid(Spelling(path)) then Some(Spelling(path)) else None
  }

  // ---------------------------------------------------------------- what a valid path means

  predicate ProperSegment(s: Text) { s != [] && ValidUtf8(s) && !IsDotSegment(s) }

  lemma {:induction false} DecodedProper(parts: seq<Text>)
    requires forall s | s in parts :: s != [] && SegmentOk(s)
    ensures forall s | s in DecodeAll(parts) :: ProperSegment(s)
  {
    if parts != [] {
      assert forall s | s in parts[1..] :: s in parts;
      DecodedProper(parts[1..]);
      assert parts[0] in parts;
    }
  }

  /** Every segment and param of a valid path decodes, so no `?? ''` fallback is ever taken. */
  lemma FallbacksNeverTaken(path: Text)
    requires Valid(path)
    ensures forall s | s in Split(Pathname(path), '/') && s != [] :: Decode(s).Some?
    ensures forall part | part in Parts(path) && Named(part) ::
              Decode(PlusAsSpace(KeyText(part))).Some? && Decode(PlusAsSpace(ValueText(part))).Some?
  {
    PathnameHead(path);
    forall part | part in Parts(path) && Named(part)
      ensures Decode(PlusAsSpace(KeyText(part))).Some? && Decode(PlusAsSpace(ValueText(part))).Some?
    {
      PartDecodes(part);
    }
  }

  /** The pathname begins with `/`, so its first part is empty and the rest are the segments. */
  lemma PathnameHead(path: Text)
    requires MatchesPattern(path)
    ensures Split(Pathname(path), '/') == [[]] + Split(Pathname(path)[1..], '/')
    ensures forall s | s in Split(Pathname(path), '/') && s != [] :: s in Split(Pathname(path), '/')[1..]
  {
    var parts := Split(Pathname(path), '/');
    forall s | s in parts && s != [] ensures s in parts[1..] {
      var i :| 0 <= i < |parts| && parts[i] == s;
      assert parts[1..][i - 1] == s;
    }
  }

  lemma ValidMeaning(path: Text)
    requires Valid(path)
    ensures forall s | s in Segments(path) :: ProperSegment(s)
    ensures forall p | p in QueryPairs(path) :: ProperPair(p)
  {
    PathnameHead(path);
    DecodedProper(NonEmpty(Split(Pathname(path), '/')));
    ParsedProper(Parts(path));
  }

  // ---------------------------------------------------------------- which paths are valid

  /** Byte by byte: segments between single slashes, with none at the end but for the root, and a query. */
  predicate PathGrammar(path: Text) {
    var i := IndexOf(path, '?');
    && i > 0 && path[0] == '/'
    && (forall k :: 0 <= k < i ==> path[k] == '/' || path[k] == '%' || Unreserved(path[k]))
    && (i > 1 ==> path[1] != '/' && path[i - 1] != '/')
    && (forall k :: 0 < k < i - 1 && path[k] == '/' ==> path[k + 1] != '/')
    && (forall k :: i < k < |path| ==> QueryByte(path[k]))
  }

  lemma SegmentsChars(t: Text)
    ensures (forall s | s in Split(t, '/') :: SegmentChars(s)) <==>
            && t != [] && t[0] != '/' && !EmptyAfter(t, '/')
            && forall c | c in t :: c == '/' || PathChar(c)
  {
    hide EmptyAfter, PathChar, Split;
    var parts := Split(t, '/');
    EmptyParts(t, '/');
    SplitBytes(t, '/');
    JoinSplit(t, '/');
    JoinBytes(parts, '/');
    assert parts == [parts[0]] + parts[1..];
    if forall s | s in parts :: SegmentChars(s) {
      assert parts[0] in parts && forall s | s in parts[1..] :: s in parts;
      forall c | c in t ensures c == '/' || PathChar(c) {
        if c != '/' {
          var p :| p in parts && c in p;
          assert SegmentChars(p);
        }
      }
    }
  }

  predicate QueryByte(c: Byte) { c == '%' || c == '=' || c == '&' || c == '+' || Unreserved(c) }

  lemma QueryGrammar(path: Text)
    ensures (forall c | c in Query(path) :: QueryChar(c)) <==>
            (forall k :: IndexOf(path, '?') < k < |path| ==> QueryByte(path[k]))
  {
    var i, query := IndexOf(path, '?'), Query(path);
    forall c ensures QueryChar(c) <==> QueryByte(c) {
    }
    hide QueryChar, QueryByte, IndexOf;
    assert forall k :: 0 <= k < |query| ==> query[k] == path[i + 1 + k];
    assert forall k :: i < k < |path| ==> path[k] == query[k - i - 1];
  }

  /** Past the first slash: none comes next, none at the end, and no two in a row. */
  lemma SlashesApart(pathname: Text)
    requires |pathname| > 1
    ensures !EmptyAfter(pathname[1..], '/') <==>
            && pathname[|pathname| - 1] != '/'
            && forall k :: 0 < k < |pathname| - 1 && pathname[k] == '/' ==> pathname[k + 1] != '/'
  {
    var t := pathname[1..];
    assert forall k :: 0 <= k < |t| ==> t[k] == pathname[k + 1];
    if EmptyAfter(t, '/') {
      var k :| 0 <= k < |t| && EmptyAt(t, '/', k);
      assert pathname[k + 1] == '/';
    } else {
      assert !EmptyAt(t, '/', |t| - 1);
      forall k | 0 < k < |pathname| - 1 && pathname[k] == '/' ensures pathname[k + 1] != '/' {
        assert !EmptyAt(t, '/', k - 1);
      }
    }
  }

  lemma PathnameGrammar(pathname: Text)
    ensures MatchesPathname(pathname) <==>
            && pathname != [] && pathname[0] == '/'
            && (forall k :: 0 <= k < |pathname| ==> pathname[k] == '/' || pathname[k] == '%' || Unreserved(pathname[k]))
            && (|pathname| > 1 ==> pathname[1] != '/' && pathname[|pathname| - 1] != '/')
            && (forall k :: 0 < k < |pathname| - 1 && pathname[k] == '/' ==> pathname[k + 1] != '/')
  {
    hide Split, Unreserved, EmptyAfter, SegmentChars;
    if |pathname| > 1 && pathname[0] == '/' {
      var t := pathname[1..];
      SegmentsChars(t);
      SlashesApart(pathname);
      assert pathname != ['/'] && t[0] == pathname[1];
      if forall c | c in t :: c == '/' || PathChar(c) {
        forall k | 0 <= k < |pathname| ensures pathname[k] == '/' || PathChar(pathname[k]) {
          if k > 0 {
            assert pathname[k] == t[k - 1];
          }
        }
      }
      assert forall k :: 0 <= k < |t| ==> t[k] == pathname[k + 1];
    }
  }

  /** The pattern is that grammar. */
  lemma {:induction false} PatternIsGrammar(path: Text)
    ensures MatchesPattern(path) <==> PathGrammar(path)
  {
    hide MatchesPathname, Unreserved;
    var pathname := Pathname(path);
    PathnameGrammar(pathname);
    QueryGrammar(path);
    assert |pathname| == IndexOf(path, '?') && forall k :: 0 <= k < |pathname| ==> pathname[k] == path[k];
    hide QueryChar;
  }

  /**
   * A path is valid if it is at most 1024 bytes of that grammar, every escape decodes, and no segment stands for `.` or
   * `..`; a param without a name may be anything.
   */
  lemma {:induction false} ValidMeans(path: Text)
    ensures Valid(path) <==>
            && |path| <= 1024 && PathGrammar(path)
            && (forall s | s in Split(Pathname(path), '/') && s != [] ::
                  Decode(s).Some? && Decode(s).value != "." && Decode(s).value != "..")
            && (forall part | part in Split(Query(path), '&') && part != [] && part[0] != '=' ::
                  Decode(PlusAsSpace(part)).Some?)
  {
    PatternIsGrammar(path);
    PartsMean(path);
    hide PathGrammar, Decode, Split, MatchesPattern, PlusAsSpace, PartOk, SegmentsOk;
    if MatchesPattern(path) {
      SegmentsMean(path);
    }
  }

  lemma PartsMean(path: Text)
    ensures (forall part | part in Parts(path) :: PartOk(part)) <==>
            forall part | part in Split(Query(path), '&') && part != [] && part[0] != '=' ::
              Decode(PlusAsSpace(part)).Some?
  {
    hide Split, Decode, PlusAsSpace;
    forall part: Text
      ensures PartOk(part) <==> (part != [] && part[0] != '=' ==> Decode(PlusAsSpace(part)).Some?)
    {
    }
    hide PartOk;
  }

  lemma SegmentsMean(path: Text)
    requires MatchesPattern(path)
    ensures SegmentsOk(Pathname(path)) <==>
            forall s | s in Split(Pathname(path), '/') && s != [] ::
              Decode(s).Some? && Decode(s).value != "." && Decode(s).value != ".."
  {
    PathnameHead(path);
    DotDecodes();
    hide Decode, Split, MatchesPattern;
    var parts := Split(Pathname(path), '/');
    assert forall s :: s in parts[1..] ==> s in parts;
  }

  lemma DotDecodes()
    ensures Decode(".") == Some(".") && Decode("..") == Some("..")
  {
    UnescapePlain(".");
    UnescapePlain("..");
    assert "."[1..] == [] && ".."[1..] == ".";
  }

  // ---------------------------------------------------------------- reading a printed path

  lemma {:induction false} EncodedSegments(segments: seq<Text>)
    requires forall s | s in segments :: ProperSegment(s)
    ensures DecodeAll(EncodeAll(segments)) == segments
    ensures forall e | e in EncodeAll(segments) :: SegmentChars(e) && SegmentOk(e)
    ensures |EncodeAll(segments)| == |segments|
  {
    if segments != [] {
      var s := segments[0];
      assert s in segments;
      assert forall x | x in segments[1..] :: x in segments;
      EncodedSegments(segments[1..]);
      EncodedPlain(s);
      EncodeBytes(s);
      EncodedDot(s);
    }
  }

  lemma EncodedDot(s: Text)
    requires ProperSegment(s)
    ensures !IsDotSegment(Encode(s))
  {
    DecodeEncode(s);
    if '%' !in Encode(s) {
      UnescapePlain(Encode(s));
    }
  }

  lemma {:induction false} NonEmptyFixed(parts: seq<Text>)
    requires forall s | s in parts :: s != []
    ensures NonEmpty(parts) == parts
  {
    if parts != [] {
      assert parts[0] in parts;
      assert forall s | s in parts[1..] :: s in parts;
      NonEmptyFixed(parts[1..]);
    }
  }

  lemma RootPathname()
    ensures Split(['/'], '/') == [[], []] && NonEmpty(Split(['/'], '/')) == []
  {
    var blank: seq<Text> := [[], []];
    assert Split(['/'], '/') == blank && blank[1..] == [[]];
  }

  /** What the validator and the reader ask of a pathname. */
  predicate PathnameReads(pathname: Text, encoded: seq<Text>) {
    MatchesPathname(pathname) && SegmentsOk(pathname) && NonEmpty(Split(pathname, '/')) == encoded
  }

  lemma JoinedPathnameReads(encoded: seq<Text>)
    requires encoded != [] && forall e | e in encoded :: SegmentChars(e) && SegmentOk(e)
    ensures PathnameReads(['/'] + Join(encoded, '/'), encoded)
  {
    var pathname := ['/'] + Join(encoded, '/');
    assert pathname[1..] == Join(encoded, '/');
    SplitJoin(encoded, '/');
    NonEmptyFixed(encoded);
    assert Split(pathname, '/')[1..] == encoded;
  }

  lemma PrintedPathnameReads(segments: seq<Text>)
    requires forall s | s in segments :: ProperSegment(s)
    ensures PathnameReads(PrintPathname(segments), EncodeAll(segments))
    ensures DecodeAll(EncodeAll(segments)) == segments
    ensures '?' !in PrintPathname(segments)
  {
    var encoded := EncodeAll(segments);
    EncodedSegments(segments);
    JoinBytes(encoded, '/');
    if segments == [] {
      assert PrintPathname(segments) == ['/'];
      RootPathname();
    } else {
      JoinedPathnameReads(encoded);
    }
  }

  lemma PrintedQueryReads(parts: seq<Text>)
    requires forall part | part in parts :: Plain(part)
    ensures parts != [] ==> Join(parts, '&') != [] && Split(Join(parts, '&'), '&') == parts
    ensures forall c | c in Join(parts, '&') :: QueryChar(c) && c != '+'
  {
    JoinBytes(parts, '&');
    if parts != [] {
      assert parts[0] in parts;
      SplitJoin(parts, '&');
    }
  }

  lemma PrintedSplits(pathname: Text, parts: seq<Text>)
    requires '?' !in pathname
    ensures var path := pathname + PrintQuery(parts);
            Pathname(path) == pathname && Query(path) == if parts == [] then [] else Join(parts, '&')
  {
    var path := pathname + PrintQuery(parts);
    if parts == [] {
      assert path == pathname;
    } else {
      SplitsAt(pathname, '?', Join(parts, '&'));
      Associative(pathname, ['?'], Join(parts, '&'));
    }
  }

  lemma PrintedPartsRead(pairs: seq<Pair>)
    requires forall p | p in pairs :: ProperPair(p)
    ensures var query := Join(PrintPairs(pairs), '&');
            && (forall c | c in query :: QueryChar(c))
            && (forall part | part in Split(query, '&') :: PartOk(part))
            && ParseParts(Split(query, '&')) == pairs
    ensures PrintPairs(pairs) == [] <==> pairs == []
  {
    PairsReadBack(pairs);
    PrintedPlain(pairs);
    PrintedQueryReads(PrintPairs(pairs));
    var blank: seq<Text> := [[]];
    assert blank[..0] == [];
  }

  /** Reading a printed page gives the page back, and only its length can make it invalid. */
  lemma PrintReadsBack(segments: seq<Text>, pairs: seq<Pair>)
    requires forall s | s in segments :: ProperSegment(s)
    requires forall p | p in pairs :: ProperPair(p)
    ensures var path := Print(segments, pairs);
            Segments(path) == segments && QueryPairs(path) == pairs && (Valid(path) <==> |path| <= MAX_NAV_PATH_LENGTH)
  {
    PrintedPartsRead(pairs);
    PrintedPathnameReads(segments);
    PrintedSplits(PrintPathname(segments), PrintPairs(pairs));
  }

  // ---------------------------------------------------------------- the main results

  /**
   * Listing a multimap the way an object lists it, and grouping again, keeps the values and takes the object's order.
   */
  lemma ShownGroupsBack(p: Params)
    requires Proper(p)
    ensures Group(List(ObjectOrder(p.order), p.values)) == Params(ObjectOrder(p.order), p.values)
    ensures forall x | x in List(ObjectOrder(p.order), p.values) :: ProperPair(x)
  {
    var order := ObjectOrder(p.order);
    ObjectOrderShape(p.order);
    assert Select(p.values, order) == p.values;
    ListProper(order, p.values);
    GroupList(order, p.values);
  }

  /** Listing and grouping again changes nothing, and the list is of proper pairs. */
  lemma EntriesFixed(pairs: seq<Pair>)
    requires forall p | p in pairs :: ProperPair(p)
    ensures Entries(Entries(pairs)) == Entries(pairs)
    ensures Group(Entries(pairs)) == Params(ObjectOrder(Group(pairs).order), Group(pairs).values)
    ensures forall p | p in Entries(pairs) :: ProperPair(p)
  {
    GroupProper(pairs);
    ShownGroupsBack(Group(pairs));
    ObjectOrderFixed(Group(pairs).order);
  }

  /** A page printed from its own reading prints the same. */
  lemma SpellingFixed(path: Text)
    requires Valid(path)
    ensures Segments(Spelling(path)) == Segments(path)
    ensures QueryPairs(Spelling(path)) == Entries(QueryPairs(path))
    ensures Spelling(Spelling(path)) == Spelling(path)
    ensures Valid(Spelling(path)) <==> |Spelling(path)| <= MAX_NAV_PATH_LENGTH
  {
    ValidMeaning(path);
    EntriesFixed(QueryPairs(path));
    PrintReadsBack(Segments(path), Entries(QueryPairs(path)));
  }

  lemma NoEntries()
    ensures Entries([]) == []
  {
  }

  /** A page without params that is short enough is printed as its own canonical form. */
  lemma PlainPageCanonical(segments: seq<Text>)
    requires forall s | s in segments :: ProperSegment(s)
    requires |Print(segments, [])| <= MAX_NAV_PATH_LENGTH
    ensures Canonical(Print(segments, [])) == Some(Print(segments, []))
  {
    hide Print, Valid, Segments, QueryPairs, Entries;
    NoEntries();
    PrintReadsBack(segments, []);
  }

  /** Canonicalisation is idempotent. */
  lemma {:induction false} CanonicalIdempotent(path: Text)
    ensures Canonical(path).Some? ==> Canonical(Canonical(path).value) == Canonical(path)
  {
    if Canonical(path).Some? {
      SpellingFixed(path);
    }
  }

  /** A valid path has no canonical form only when its spelling is too long. */
  lemma {:induction false} CanonicalUnlessTooLong(path: Text)
    requires Valid(path)
    ensures Canonical(path).None? <==> |Spelling(path)| > MAX_NAV_PATH_LENGTH
  {
    SpellingFixed(path);
  }

  /**
   * The two queries give every key the same values, and the keys that are not array indices appear in the same order.
   */
  ghost predicate SameQuery(a: seq<Pair>, b: seq<Pair>) {
    AgreeOnValues(a, b) && OtherKeys(FirstSeen(a)) == OtherKeys(FirstSeen(b))
  }

  /** The two paths name the same page. */
  ghost predicate SamePage(a: Text, b: Text) {
    Segments(a) == Segments(b) && SameQuery(QueryPairs(a), QueryPairs(b))
  }

  lemma EntriesDetermined(a: seq<Pair>, b: seq<Pair>)
    requires (forall p | p in a :: ProperPair(p)) && (forall p | p in b :: ProperPair(p))
    ensures Entries(a) == Entries(b) <==>
            Group(a).values == Group(b).values && ObjectOrder(Group(a).order) == ObjectOrder(Group(b).order)
  {
    EntriesFixed(a);
    EntriesFixed(b);
  }

  lemma SameShownOrder(p: Params, q: Params)
    requires Proper(p) && Proper(q)
    ensures p.values == q.values && ObjectOrder(p.order) == ObjectOrder(q.order)
       <==> p.values == q.values && OtherKeys(p.order) == OtherKeys(q.order)
  {
    if p.values == q.values {
      assert forall k :: k in p.values <==> k in q.values;
      ObjectOrderDetermined(p.order, q.order);
    }
  }

  /** Two queries list the same entries exactly when they agree on every key's values and on the order that shows. */
  lemma SameEntries(a: seq<Pair>, b: seq<Pair>)
    requires (forall p | p in a :: ProperPair(p)) && (forall p | p in b :: ProperPair(p))
    ensures Entries(a) == Entries(b) <==> SameQuery(a, b)
  {
    var p, q := Group(a), Group(b);
    assert Entries(a) == Entries(b) <==> p.values == q.values && OtherKeys(p.order) == OtherKeys(q.order) by {
      EntriesDetermined(a, b);
      GroupProper(a);
      GroupProper(b);
      SameShownOrder(p, q);
    }
    GroupOrder(a);
    GroupOrder(b);
    SameValues(a, b);
  }

  /** Two printed pages are the same text exactly when they are the same page. */
  lemma PrintInjective(s: seq<Text>, p: seq<Pair>, t: seq<Text>, q: seq<Pair>)
    requires (forall x | x in s :: ProperSegment(x)) && (forall x | x in t :: ProperSegment(x))
    requires (forall x | x in p :: ProperPair(x)) && (forall x | x in q :: ProperPair(x))
    ensures Print(s, Entries(p)) == Print(t, Entries(q)) <==> s == t && SameQuery(p, q)
  {
    EntriesFixed(p);
    EntriesFixed(q);
    PrintReadsBack(s, Entries(p));
    PrintReadsBack(t, Entries(q));
    SameEntries(p, q);
  }

  /** Two valid paths are spelled the same exactly when they name the same page. */
  lemma {:induction false} SameSpellingIffSamePage(a: Text, b: Text)
    requires Valid(a) && Valid(b)
    ensures Spelling(a) == Spelling(b) <==> SamePage(a, b)
  {
    ValidMeaning(a);
    ValidMeaning(b);
    PrintInjective(Segments(a), QueryPairs(a), Segments(b), QueryPairs(b));
  }

  /** Two paths with canonical forms have the same one exactly when they name the same page. */
  lemma {:induction false} SameCanonicalIffSamePage(a: Text, b: Text)
    requires Canonical(a).Some? && Canonical(b).Some?
    ensures Canonical(a) == Canonical(b) <==> SamePage(a, b)
  {
    SameSpellingIffSamePage(a, b);
  }

  /** Two paths with the same pathname and equal params have the same canonical form, if both are valid. */
  lemma SameReading(a: Text, b: Text)
    requires Pathname(a) == Pathname(b) && QueryPairs(a) == QueryPairs(b) && Valid(a) && Valid(b)
    ensures Canonical(a) == Canonical(b)
  {
  }

  /** The path with every `+` of its query written `%20`. */
  function PlusEscaped(path: Text): Text {
    var i := IndexOf(path, '?');
    if i == |path| then path else path[..i + 1] + PlusAsSpace(path[i + 1..])
  }

  lemma PlusEscapedSplits(path: Text)
    ensures Pathname(PlusEscaped(path)) == Pathname(path) && Query(PlusEscaped(path)) == PlusAsSpace(Query(path))
  {
    hide PlusAsSpace;
    PlusHead([]);
    var i := IndexOf(path, '?');
    if i < |path| {
      assert '?' !in path[..i];
      SplitsAt(path[..i], '?', PlusAsSpace(path[i + 1..]));
      assert path[..i + 1] == path[..i] + ['?'];
    }
  }

  lemma PlusEscapedLength(path: Text)
    ensures |path| <= |PlusEscaped(path)|
  {
    hide PlusAsSpace;
    var i := IndexOf(path, '?');
    if i < |path| {
      PlusFreeAfter(path[i + 1..]);
    }
  }

  lemma PlusEscapedValid(path: Text)
    requires |PlusEscaped(path)| <= MAX_NAV_PATH_LENGTH
    ensures Valid(PlusEscaped(path)) <==> Valid(path)
  {
    PlusEscapedSplits(path);
    PlusSplits(Query(path));
    PlusEscapedParts(Parts(path));
    PlusFreeAfter(Query(path));
    hide PlusAsSpace, Split, PartOk, SegmentsOk, MatchesPathname, Pathname, Query, PlusEscaped;
    PlusEscapedLength(path);
  }

  /** A `+` in the query is a space: written as `%20`, it gives the same canonical form. */
  lemma {:induction false} PlusIsSpace(path: Text)
    requires |PlusEscaped(path)| <= MAX_NAV_PATH_LENGTH
    ensures Canonical(PlusEscaped(path)) == Canonical(path)
  {
    PlusEscapedValid(path);
    if Valid(path) {
      PlusEscapedSplits(path);
      PlusSplits(Query(path));
      PlusEscapedParts(Parts(path));
      hide PlusAsSpace, Split, Valid, ParseParts, PlusEscaped;
      SameReading(PlusEscaped(path), path);
    }
  }

  lemma EntriesOfOne(p: Pair)
    ensures Entries([p]) == [p]
  {
    hide IsIndexKey;
    assert [p][..0] == [] && Group([p]) == Put(Group([]), p.key, p.value);
    var keys, values := [p.key], Group([p]).values;
    assert keys[1..] == [] && keys[..0] == [];
    assert ObjectOrder(keys) == keys by {
      assert IndexKeys([]) == [] && OtherKeys([]) == [] && SortByNumber([]) == [];
    }
    assert Group([p]).order == keys;
    assert ValuesIn(values, p.key) == [p.value] && [p.value][..0] == [];
    assert ListKey(p.key, [p.value]) == ListKey(p.key, []) + [Pair(p.key, p.value)];
    assert List(keys, values) == List([], values) + ListKey(p.key, [p.value]);
  }

  lemma EncodedSpace()
    ensures Encode("s") == "s" && Encode("q") == "q" && Encode("a b") == "a%20b"
  {
    assert "a b"[1..] == " b" && " b"[1..] == "b" && "b"[1..] == [] && "s"[1..] == [] && "q"[1..] == [];
    assert Escape(' ') == "%20";
  }

  lemma PrintedSpace()
    ensures Print(["s"], [Pair("q", "a b")]) == "/s?q=a%20b"
    ensures ProperSegment("s") && ProperPair(Pair("q", "a b"))
  {
    EncodedSpace();
    hide Encode;
    assert ["s"][1..] == [];
    assert [Pair("q", "a b")][..0] == [];
    assert ValidUtf8("s") && ValidUtf8("q") && ValidUtf8("a b") by {
      assert "s"[1..] == [] && "q"[1..] == [] && "a b"[1..] == " b" && " b"[1..] == "b" && "b"[1..] == [];
    }
  }

  lemma OnePairCanonical(s: Text, p: Pair)
    requires ProperSegment(s) && ProperPair(p) && |Print([s], [p])| <= MAX_NAV_PATH_LENGTH
    ensures Canonical(Print([s], [p])) == Some(Print([s], [p]))
  {
    EntriesOfOne(p);
    hide Print, Valid, Segments, QueryPairs, Entries, ProperSegment, ProperPair;
    PrintReadsBack([s], [p]);
    PrintedCanonical([s], [p]);
  }

  lemma SpacedLength()
    ensures |"/s?q=a%20b"| <= MAX_NAV_PATH_LENGTH
  {
  }

  /** `/s?q=a+b` is the page `/s?q=a%20b`. */
  lemma PlusSpelled()
    ensures Canonical("/s?q=a+b") == Some("/s?q=a%20b")
  {
    hide *;
    PrintedSpace();
    SpacedLength();
    OnePairCanonical("s", Pair("q", "a b"));
    PlusWritten();
    PlusIsSpace("/s?q=a+b");
  }

  lemma PrintedCanonical(segments: seq<Text>, pairs: seq<Pair>)
    requires Valid(Print(segments, pairs)) && Segments(Print(segments, pairs)) == segments
    requires QueryPairs(Print(segments, pairs)) == pairs && Entries(pairs) == pairs
    ensures Canonical(Print(segments, pairs)) == Some(Print(segments, pairs))
  {
    hide Valid, Segments, QueryPairs, Entries, Print;
  }

  lemma PlusWritten()
    ensures PlusEscaped("/s?q=a+b") == "/s?q=a%20b"
  {
    assert IndexOf("/s?q=a+b", '?') == 2 by {
      IndexOfUnique("/s?q=a+b", '?', 2);
    }
    assert "/s?q=a+b"[3..] == "q=a+b" && "q=a+b"[1..] == "=a+b" && "=a+b"[1..] == "a+b" && "a+b"[1..] == "+b";
    assert "+b"[1..] == "b" && "b"[1..] == [];
  }

  // ---------------------------------------------------------------- what a canonical spelling looks like

  /** Only unreserved bytes, delimiters, and uppercase escapes of bytes that need escaping. */
  predicate CanonicalBytes(t: Text) {
    t == [] ||
    if t[0] == '%' then
      && StartsWithEscape(t)
      && !('a' <= t[1] <= 'f') && !('a' <= t[2] <= 'f')
      && !Unreserved(EscapedByte(t))
      && CanonicalBytes(t[3..])
    else (Unreserved(t[0]) || t[0] in "/?=&") && CanonicalBytes(t[1..])
  }

  lemma {:induction false} CanonicalBytesConcat(a: Text, b: Text)
    requires CanonicalBytes(a) && CanonicalBytes(b)
    ensures CanonicalBytes(a + b)
  {
    hide Unreserved;
    if a == [] {
      assert a + b == b;
    } else if a[0] == '%' {
      CanonicalBytesConcat(a[3..], b);
      assert (a + b)[3..] == a[3..] + b;
    } else {
      CanonicalBytesConcat(a[1..], b);
      assert (a + b)[1..] == a[1..] + b;
    }
  }

  lemma {:induction false} EncodedCanonical(t: Text)
    requires Bytes(t)
    ensures CanonicalBytes(Encode(t))
  {
    if t != [] {
      EncodedCanonical(t[1..]);
      var head := EncodeByte(t[0]);
      if !Unreserved(t[0]) {
        EscapeReadsBack(t[0], []);
        assert Escape(t[0]) + [] == Escape(t[0]);
      }
      CanonicalBytesConcat(head, Encode(t[1..]));
    }
  }

  lemma {:induction false} JoinCanonical(parts: seq<Text>, sep: Byte)
    requires sep in "/?=&" && forall p | p in parts :: CanonicalBytes(p)
    ensures CanonicalBytes(Join(parts, sep))
  {
    if |parts| > 1 {
      assert forall s | s in parts[1..] :: s in parts;
      JoinCanonical(parts[1..], sep);
      CanonicalBytesConcat(parts[0], [sep]);
      CanonicalBytesConcat(parts[0] + [sep], Join(parts[1..], sep));
    }
  }

  lemma {:induction false} EncodeAllCanonical(parts: seq<Text>)
    requires forall s | s in parts :: ProperSegment(s)
    ensures forall e | e in EncodeAll(parts) :: CanonicalBytes(e)
  {
    if parts != [] {
      assert parts[0] in parts;
      assert forall s | s in parts[1..] :: s in parts;
      EncodeAllCanonical(parts[1..]);
      Utf8Bytes(parts[0]);
      EncodedCanonical(parts[0]);
    }
  }

  lemma {:induction false} PrintPairsCanonical(pairs: seq<Pair>)
    requires forall p | p in pairs :: ProperPair(p)
    ensures forall part | part in PrintPairs(pairs) :: CanonicalBytes(part)
  {
    if pairs != [] {
      var last := pairs[|pairs| - 1];
      assert last in pairs;
      PrintPairsCanonical(pairs[..|pairs| - 1]);
      Utf8Bytes(last.key);
      Utf8Bytes(last.value);
      EncodedCanonical(last.key);
      EncodedCanonical(last.value);
      CanonicalBytesConcat(Encode(last.key), ['=']);
      CanonicalBytesConcat(Encode(last.key) + ['='], Encode(last.value));
    }
  }

  lemma PrintCanonical(s: seq<Text>, p: seq<Pair>)
    requires (forall x | x in s :: ProperSegment(x)) && (forall x | x in p :: ProperPair(x))
    ensures CanonicalBytes(Print(s, p))
  {
    var path, query := Join(EncodeAll(s), '/'), Join(PrintPairs(p), '&');
    EncodeAllCanonical(s);
    JoinCanonical(EncodeAll(s), '/');
    CanonicalBytesConcat(['/'], path);
    PrintPairsCanonical(p);
    JoinCanonical(PrintPairs(p), '&');
    CanonicalBytesConcat(['?'], query);
    CanonicalBytesConcat(PrintPathname(s), PrintQuery(PrintPairs(p)));
  }

  /** A canonical form is spelled with unreserved bytes and uppercase escapes only, and is itself a valid path. */
  lemma {:induction false} CanonicalSpelled(path: Text)
    requires Canonical(path).Some?
    ensures Valid(Canonical(path).value) && CanonicalBytes(Canonical(path).value)
  {
    ValidMeaning(path);
    EntriesFixed(QueryPairs(path));
    PrintCanonical(Segments(path), Entries(QueryPairs(path)));
  }
}
