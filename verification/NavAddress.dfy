/**
 * Between the browser's address and navigation paths: what an address shows, and where a navigation puts it.
 */
module NavAddress {
  import opened Options
  import opened Text
  import opened QueryParams
  import opened NavPath

  datatype RoutingMode = PathnameRouting | HashRouting

  datatype Location = Location(pathname: Text, search: Text, hash: Text)

  /** `PATH_SAFE`, or `QUERY_SAFE` for a query. */
  predicate Safe(c: Byte, query: bool) { Unreserved(c) || (query && c in "=&+") }

  /** Percent-encodes every byte that is not safe; keeps valid escapes. */
  function Outside(t: Text, query: bool): Text {
    if t == [] then [] else OutsideHead(t, query) + Outside(t[1..], query)
  }

  function OutsideHead(t: Text, query: bool): Text
    requires t != []
  {
    if Safe(t[0], query) || StartsWithEscape(t) then [t[0]] else Escape(t[0])
  }

  function OutsideAll(parts: seq<Text>): seq<Text> {
    if parts == [] then [] else [Outside(parts[0], false)] + OutsideAll(parts[1..])
  }

  function Rebuilt(pathname: Text, query: Text): Text {
    ['/'] + Join(OutsideAll(NonEmpty(Split(pathname, '/'))), '/')
    + if query == [] then [] else ['?'] + Outside(query, true)
  }

  function ToNavPath(pathname: Text, query: Text): Option<Text> { Canonical(Rebuilt(pathname, query)) }

  function AddressToNavPath(pathname: Text, search: Text): Option<Text> {
    ToNavPath(pathname, if search != [] && search[0] == '?' then search[1..] else search)
  }

  function HashToNavPath(hash: Text): Option<Text> {
    var inner := if hash != [] && hash[0] == '#' then hash[1..] else hash;
    var route := inner[..IndexOf(inner, '#')];
    ToNavPath(Pathname(route), Query(route))
  }

  /** The navigation path a location shows. */
  function LocationToNavPath(location: Location, mode: RoutingMode): Option<Text> {
    match mode
    case HashRouting => HashToNavPath(location.hash)
    case PathnameRouting => AddressToNavPath(location.pathname, location.search)
  }

  /** The location once `history.replaceState` set the address to `target`, or to `#target` in hash mode. */
  function Moved(location: Location, mode: RoutingMode, target: Text): Location {
    match mode
    case HashRouting => location.(hash := ['#'] + target)
    case PathnameRouting =>
      Location(Pathname(target), if Query(target) == [] then [] else ['?'] + Query(target), [])
  }

  // ---------------------------------------------------------------- reading an address back

  /** What a path may hold, and a query besides. */
  predicate InGrammar(c: Byte, query: bool) {
    Unreserved(c) || c == '%' || (query && (c == '=' || c == '&' || c == '+'))
  }

  /** Text whose escapes are sound and whose other bytes are safe is left alone. */
  lemma {:induction false} OutsideFixed(t: Text, query: bool)
    requires Unescape(t).Some? && forall c | c in t :: InGrammar(c, query)
    ensures Outside(t, query) == t
    decreases |t|
  {
    if t != [] {
      assert t[0] in t;
      assert t == [t[0]] + t[1..];
      if t[0] != '%' {
        OutsideFixed(t[1..], query);
      } else {
        OutsideFixed(t[3..], query);
        OutsideEscape(t, query);
        assert t == [t[0], t[1], t[2]] + t[3..];
      }
    }
  }

  /** The bytes a lenient reader sees: sound escapes decoded, everything else (a stray `%` included) as it is. */
  function Lenient(t: Text): Text
    decreases |t|
  {
    if t == [] then []
    else if StartsWithEscape(t) then [EscapedByte(t)] + Lenient(t[3..])
    else [t[0]] + Lenient(t[1..])
  }

  lemma OutsideEscape(t: Text, query: bool)
    requires StartsWithEscape(t)
    ensures Outside(t, query) == [t[0], t[1], t[2]] + Outside(t[3..], query)
  {
    var u := t[1..];
    assert u[0] == t[1] && u[1..][0] == t[2] && u[1..][1..] == t[3..];
    assert Outside(u[1..], query) == [t[2]] + Outside(t[3..], query);
    assert Outside(u, query) == [t[1]] + Outside(u[1..], query);
  }

  lemma {:induction false} OutsideSafe(t: Text, query: bool)
    ensures forall c | c in Outside(t, query) :: InGrammar(c, query)
  {
    if t != [] {
      OutsideSafe(t[1..], query);
      assert StartsWithEscape(t) ==> t[0] == '%';
      assert forall c | c in Escape(t[0]) :: Safe(c, query) || c == '%';
    }
  }

  /** Encoding what is outside the grammar gives text that decodes to what the lenient reader saw. */
  lemma {:induction false} OutsideMeans(t: Text, query: bool)
    requires Bytes(t)
    ensures Unescape(Outside(t, query)) == Some(Lenient(t))
    decreases |t|
  {
    if t == [] {
    } else if StartsWithEscape(t) {
      OutsideMeans(t[3..], query);
      OutsideEscape(t, query);
      var rest := Outside(t[3..], query);
      var out := [t[0], t[1], t[2]] + rest;
      assert out[3..] == rest && StartsWithEscape(out) && EscapedByte(out) == EscapedByte(t);
    } else {
      OutsideMeans(t[1..], query);
      var rest := Outside(t[1..], query);
      if Safe(t[0], query) {
        assert ([t[0]] + rest)[1..] == rest;
      } else {
        EscapeReadsBack(t[0], rest);
      }
    }
  }

  lemma {:induction false} OutsideAllFixed(parts: seq<Text>)
    requires forall s | s in parts :: SegmentChars(s) && Decode(s).Some?
    ensures OutsideAll(parts) == parts
  {
    if parts != [] {
      assert parts[0] in parts;
      OutsideFixed(parts[0], false);
      assert forall s | s in parts[1..] :: s in parts;
      OutsideAllFixed(parts[1..]);
    }
  }

  /** A valid pathname is rebuilt as it is. */
  lemma PathnameRebuilt(pathname: Text)
    requires MatchesPathname(pathname) && SegmentsOk(pathname)
    ensures ['/'] + Join(OutsideAll(NonEmpty(Split(pathname, '/'))), '/') == pathname
  {
    if pathname == ['/'] {
      RootPathname();
    } else {
      var parts := Split(pathname[1..], '/');
      assert Split(pathname, '/') == [[]] + parts;
      assert Split(pathname, '/')[1..] == parts;
      NonEmptyFixed(parts);
      assert NonEmpty([[]] + parts) == parts by {
        assert ([[]] + parts)[1..] == parts;
      }
      OutsideAllFixed(parts);
      JoinSplit(pathname[1..], '/');
    }
  }

  /** What is encoded on one side of a `&` does not depend on the other side. */
  lemma {:induction false} OutsideAround(a: Text, b: Text)
    ensures Outside(a + ['&'] + b, true) == Outside(a, true) + ['&'] + Outside(b, true)
  {
    var t := a + ['&'] + b;
    if a == [] {
      assert t[0] == '&' && t[1..] == b;
    } else {
      assert t[0] == a[0] && t[1..] == a[1..] + ['&'] + b;
      OutsideAround(a[1..], b);
      assert StartsWithEscape(t) <==> StartsWithEscape(a) by {
        assert |a| < 3 ==> t[|a|] == '&' && !IsHex('&');
        assert forall i :: 0 <= i < |a| ==> t[i] == a[i];
      }
    }
  }

  lemma {:induction false} OutsideAddsNoSeparator(t: Text)
    requires '&' !in t
    ensures '&' !in Outside(t, true)
  {
    if t != [] {
      assert t[0] in t && forall c | c in t[1..] :: c in t;
      OutsideAddsNoSeparator(t[1..]);
      assert '&' !in Escape(t[0]);
    }
  }

  function OutsideQuery(parts: seq<Text>): (r: seq<Text>)
    ensures |r| == |parts| && forall i :: 0 <= i < |parts| ==> r[i] == Outside(parts[i], true)
  {
    seq(|parts|, i requires 0 <= i < |parts| => Outside(parts[i], true))
  }

  lemma {:induction false} OutsideJoins(parts: seq<Text>)
    requires parts != []
    ensures Outside(Join(parts, '&'), true) == Join(OutsideQuery(parts), '&')
  {
    hide Outside;
    if |parts| > 1 {
      OutsideJoins(parts[1..]);
      OutsideAround(parts[0], Join(parts[1..], '&'));
      assert OutsideQuery(parts)[1..] == OutsideQuery(parts[1..]);
    }
  }

  /** Encoding a query encodes its parts. */
  lemma OutsideSplits(query: Text)
    ensures Split(Outside(query, true), '&') == OutsideQuery(Split(query, '&'))
  {
    hide Split, Join, Outside;
    var parts := Split(query, '&');
    JoinSplit(query, '&');
    OutsideJoins(parts);
    SplitBytes(query, '&');
    forall p | p in OutsideQuery(parts) ensures '&' !in p {
      var i :| 0 <= i < |parts| && OutsideQuery(parts)[i] == p;
      assert parts[i] in parts;
      OutsideAddsNoSeparator(parts[i]);
    }
    SplitJoin(OutsideQuery(parts), '&');
  }

  /** A part that is checked and kept is left alone; one without a name keeps having none. */
  lemma OutsidePart(part: Text)
    requires PartOk(part) && forall c | c in part :: QueryChar(c)
    ensures PartOk(Outside(part, true)) && ParsePart(Outside(part, true)) == ParsePart(part)
  {
    if Named(part) {
      PlusUnescapes(part);
      OutsideFixed(part, true);
    } else if part != [] {
      assert Outside(part, true)[0] == '=';
    }
  }

  lemma {:induction false} OutsideParses(parts: seq<Text>)
    requires forall p | p in parts :: PartOk(p) && forall c | c in p :: QueryChar(c)
    ensures ParseParts(OutsideQuery(parts)) == ParseParts(parts)
    ensures forall p | p in OutsideQuery(parts) :: PartOk(p)
  {
    hide Outside, PartOk, ParsePart;
    if parts != [] {
      var init, last := parts[..|parts| - 1], parts[|parts| - 1];
      assert OutsideQuery(parts) == OutsideQuery(init) + [Outside(last, true)];
      assert last in parts && forall p | p in init :: p in parts;
      OutsideParses(init);
      OutsidePart(last);
    }
  }

  /** The rebuilt address of a valid path: the same pathname, and the query with its nameless parts encoded. */
  lemma ValidRebuilt(path: Text)
    requires Valid(path)
    ensures var r := Rebuilt(Pathname(path), Query(path));
            && Pathname(r) == Pathname(path) && Query(r) == Outside(Query(path), true)
            && |r| == |Pathname(path)| + (if Query(path) == [] then 0 else 1 + |Outside(Query(path), true)|)
  {
    var pathname, query := Pathname(path), Outside(Query(path), true);
    PathnameRebuilt(pathname);
    assert '?' !in pathname;
    hide Outside, Split, Join;
    if Query(path) == [] {
      assert query == [] by { OutsideNothing(); }
      assert pathname + [] == pathname;
      IndexOfAbsent(pathname, '?');
    } else {
      assert Rebuilt(pathname, Query(path)) == pathname + ['?'] + query;
      SplitsAt(pathname, '?', query);
    }
  }

  lemma OutsideNothing()
    ensures Outside([], true) == []
  {
  }

  lemma QueryPartChars(path: Text)
    requires Valid(path)
    ensures forall p | p in Parts(path) :: PartOk(p) && forall c | c in p :: QueryChar(c)
  {
    SplitBytes(Query(path), '&');
  }

  lemma RebuiltMatches(path: Text)
    requires Valid(path)
    ensures var r := Rebuilt(Pathname(path), Query(path)); MatchesPattern(r) && Pathname(r) == Pathname(path)
  {
    hide Outside, MatchesPathname, Rebuilt, Split;
    ValidRebuilt(path);
    OutsideSafe(Query(path), true);
  }

  lemma RebuiltReads(path: Text)
    requires Valid(path)
    ensures var r := Rebuilt(Pathname(path), Query(path));
            (forall p | p in Parts(r) :: PartOk(p)) && QueryPairs(r) == QueryPairs(path)
  {
    ValidRebuilt(path);
    OutsideSplits(Query(path));
    QueryPartChars(path);
    hide Outside, Split, ParseParts, PartOk, SegmentsOk, MatchesPattern, Rebuilt;
    OutsideParses(Parts(path));
  }

  /** An address that spells a valid path shows that path's canonical form, unless encoding it makes it too long. */
  lemma {:induction false} ValidAddressShown(path: Text)
    requires Valid(path)
    ensures ToNavPath(Pathname(path), Query(path)) ==
            if |Rebuilt(Pathname(path), Query(path))| <= MAX_NAV_PATH_LENGTH then Canonical(path) else None
  {
    hide Split, PartOk, SegmentsOk, MatchesPattern, Segments, QueryPairs, Rebuilt;
    var r := Rebuilt(Pathname(path), Query(path));
    RebuiltMatches(path);
    RebuiltReads(path);
    if |r| <= MAX_NAV_PATH_LENGTH {
      SameReading(r, path);
    }
  }

  /** A text whose escapes are sound is rebuilt as it is. */
  lemma SoundRebuilt(path: Text)
    requires Valid(path) && Unescape(Query(path)).Some?
    ensures |Rebuilt(Pathname(path), Query(path))| <= |path|
  {
    ValidRebuilt(path);
    OutsideFixed(Query(path), true);
  }

  lemma {:induction false} CanonicalUnescapes(t: Text)
    requires CanonicalBytes(t)
    ensures Unescape(t).Some? && '#' !in t
    decreases |t|
  {
    if t != [] {
      if t[0] == '%' {
        CanonicalUnescapes(t[3..]);
        assert t == [t[0], t[1], t[2]] + t[3..];
      } else {
        CanonicalUnescapes(t[1..]);
        assert t == [t[0]] + t[1..];
      }
    }
  }

  lemma QueryUnescapes(path: Text)
    requires Unescape(path).Some?
    ensures Unescape(Query(path)).Some?
  {
    var i := IndexOf(path, '?');
    if i < |path| {
      UnescapeAround(path[..i], '?', path[i + 1..]);
      assert path[..i] + ['?'] + path[i + 1..] == path;
    }
  }

  /** Setting the address to a canonical path and reading it back gives that path, in either routing mode. */
  lemma {:induction false} CanonicalAddressReadsBack(location: Location, mode: RoutingMode, path: Text)
    requires Canonical(path).Some?
    ensures LocationToNavPath(Moved(location, mode, Canonical(path).value), mode) == Canonical(path)
  {
    var c := Canonical(path).value;
    assert ToNavPath(Pathname(c), Query(c)) == Canonical(path) by {
      CanonicalIdempotent(path);
      CanonicalSpelled(path);
      CanonicalUnescapes(c);
      QueryUnescapes(c);
      SoundRebuilt(c);
      ValidAddressShown(c);
    }
    assert '#' !in c by {
      CanonicalSpelled(path);
      CanonicalUnescapes(c);
    }
    ShownAt(location, mode, c);
  }

  /** The text of an address. */
  function AddressText(l: Location): Text { l.pathname + l.search + l.hash }

  /** A page is put at its path, or behind a `#` with the rest of the address as it was. */
  lemma MovedShows(location: Location, target: Text)
    requires '?' in target ==> Query(target) != []
    ensures AddressText(Moved(location, PathnameRouting, target)) == target
    ensures AddressText(Moved(location, HashRouting, target)) == location.pathname + location.search + ("#" + target)
  {
    var i := IndexOf(target, '?');
    if i < |target| {
      assert target == target[..i] + ['?'] + target[i + 1..];
    }
  }

  lemma ShownAt(location: Location, mode: RoutingMode, c: Text)
    requires '#' !in c
    ensures LocationToNavPath(Moved(location, mode, c), mode) == ToNavPath(Pathname(c), Query(c))
  {
    var hash := ['#'] + c;
    assert hash[1..] == c;
    IndexOfAbsent(c, '#');
    assert c[..|c|] == c;
    var search := ['?'] + Query(c);
    assert search[1..] == Query(c);
  }

  /** What an address shows is always a canonical path. */
  lemma {:induction false} ShownIsCanonical(location: Location, mode: RoutingMode)
    ensures var shown := LocationToNavPath(location, mode);
            shown.Some? ==> Canonical(shown.value) == shown
  {
    match mode
    case HashRouting =>
      var inner := if location.hash != [] && location.hash[0] == '#' then location.hash[1..] else location.hash;
      var route := inner[..IndexOf(inner, '#')];
      CanonicalIdempotent(Rebuilt(Pathname(route), Query(route)));
    case PathnameRouting =>
      var search := location.search;
      CanonicalIdempotent(Rebuilt(location.pathname, if search != [] && search[0] == '?' then search[1..] else search));
  }

  // ---------------------------------------------------------------- the loops

  /** `encodeOutside`: grows the result byte by byte. */
  method EncodeOutside(text: Text, query: bool) returns (result: Text)
    ensures result == Outside(text, query)
  {
    result := [];
    for index := 0 to |text|
      invariant result + Outside(text[index..], query) == Outside(text, query)
    {
      var character := text[index];
      assert text[index..][1..] == text[index + 1..];
      Associative(result, OutsideHead(text[index..], query), Outside(text[index + 1..], query));
      if Safe(character, query) {
        result := result + [character];
      } else if character == '%' && index + 2 < |text| && IsHex(text[index + 1]) && IsHex(text[index + 2]) {
        result := result + [character];
      } else {
        result := result + Escape(character);
      }
    }
  }

  /** `isValidNavPath`: looks at each segment, then at each query part. */
  method IsValidNavPath(path: Text) returns (valid: bool)
    ensures valid == Valid(path)
  {
    hide Split, Decode, PlusAsSpace, MatchesPattern, Pathname, Query;
    if |path| > MAX_NAV_PATH_LENGTH || !MatchesPattern(path) {
      return false;
    }
    var segments := Split(Pathname(path), '/')[1..];
    for i := 0 to |segments|
      invariant forall s | s in segments[..i] :: SegmentOk(s)
    {
      var segment := segments[i];
      if segment != [] {
        var decoded := Decode(segment);
        if decoded.None? || IsDotSegment(segment) || IsDotSegment(decoded.value) {
          assert segment in segments && !SegmentOk(segment);
          return false;
        }
      }
    }
    assert segments[..|segments|] == segments;
    var parts := Parts(path);
    for i := 0 to |parts|
      invariant forall part | part in parts[..i] :: PartOk(part)
    {
      var part := parts[i];
      if part != [] && part[0] != '=' && Decode(PlusAsSpace(part)).None? {
        assert part in parts && !PartOk(part);
        return false;
      }
    }
    assert parts[..|parts|] == parts;
    return true;
  }

  /** `canonicalNavPath`: reads the segments and the params, prints them, and keeps a printed path that is valid. */
  method CanonicalNavPath(path: Text) returns (canonical: Option<Text>)
    ensures canonical == Canonical(path)
  {
    var valid := IsValidNavPath(path);
    if !valid {
      return None;
    }
    var params := ReadParams(Parts(path));
    var printed := Print(Segments(path), List(ObjectOrder(params.order), params.values));
    valid := IsValidNavPath(printed);
    return if valid then Some(printed) else None;
  }
}
