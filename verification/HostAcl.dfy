/**
 * Which plugin may open a tunnel to which host: exact hosts and `*.domain` entries, read from a policy file that may
 * change at any time.
 */
module HostAcl {
  import opened Options
  import T = Text

  // ---------------------------------------------------------------- hosts and entries

  function LowerChar(c: char): char { if 'A' <= c <= 'Z' then (c as int + 32) as char else c }

  function Lower(t: string): (r: string)
    ensures |r| == |t|
  {
    if t == "" then "" else [LowerChar(t[0])] + Lower(t[1..])
  }

  /** `host.removesuffix(".")`. */
  function WithoutDot(h: string): string { if h != "" && h[|h| - 1] == '.' then h[..|h| - 1] else h }

  predicate Bracketed(h: string) { |h| >= 2 && h[0] == '[' && h[|h| - 1] == ']' }

  /** `host[1:-1]` if the host is in brackets. */
  function WithoutBrackets(h: string): string { if Bracketed(h) then h[1..|h| - 1] else h }

  /** `normalize_host`. */
  function Normalize(h: string): string { WithoutDot(WithoutBrackets(Lower(h))) }

  predicate IsWildcard(e: string) { |e| >= 2 && e[..2] == "*." }

  /** A plugin's list: exact hosts, and the `.domain` suffixes of its `*.domain` entries. */
  datatype PluginHosts = PluginHosts(exact: set<string>, suffixes: set<string>)

  function AddEntry(p: PluginHosts, e: string): PluginHosts {
    if !IsWildcard(e) then p.(exact := p.exact + {e})
    else if |e| > 2 then p.(suffixes := p.suffixes + {e[1..]})
    else p
  }

  /** `PluginHosts(entries)`. */
  function Compile(entries: seq<string>): PluginHosts {
    if entries == [] then PluginHosts({}, {})
    else AddEntry(Compile(entries[..|entries| - 1]), Normalize(entries[|entries| - 1]))
  }

  predicate EndsWith(t: string, suffix: string) { |suffix| <= |t| && t[|t| - |suffix|..] == suffix }

  function Labels(h: string): seq<string> { T.Split(h, '.') }

  /** No name has an empty label. */
  predicate IsName(h: string) { h != "" && "" !in Labels(h) }

  /** `PluginHosts.allows`. */
  predicate Allows(p: PluginHosts, host: string) {
    IsName(host) && (host in p.exact || exists s :: s in p.suffixes && EndsWith(host, s))
  }

  // ---------------------------------------------------------------- what the lists mean

  /** `labels` are one or more labels followed by `domain`. */
  predicate Under(labels: seq<string>, domain: seq<string>) {
    |labels| > |domain| && labels[|labels| - |domain|..] == domain
  }

  /** A normalised entry names the host, or is `*.domain` and the host is a name below that domain. */
  predicate StandsFor(e: string, host: string) {
    if |e| > 2 && e[0] == '*' && e[1] == '.' then Under(Labels(host), Labels(e[2..])) else e == host
  }

  predicate EntryAllows(entry: string, host: string) { StandsFor(Normalize(entry), host) }

  ghost predicate SomeEntryAllows(entries: seq<string>, host: string) {
    exists i :: 0 <= i < |entries| && EntryAllows(entries[i], host)
  }

  lemma {:induction false} SplitAppend(a: string, b: string)
    ensures Labels(a + "." + b) == Labels(a) + Labels(b)
  {
    if a == "" {
      assert (a + "." + b)[0] == '.' && (a + "." + b)[1..] == b;
    } else {
      var t := a + "." + b;
      assert t[1..] == a[1..] + "." + b && t[0] == a[0];
      SplitAppend(a[1..], b);
      if a[0] == '.' {
        assert [[]] + (Labels(a[1..]) + Labels(b)) == Labels(a) + Labels(b);
      } else {
        var rest, tail := Labels(a[1..]), Labels(b);
        assert (rest + tail)[0] == rest[0] && (rest + tail)[1..] == rest[1..] + tail;
      }
    }
  }

  lemma SuffixSplits(a: string, domain: string)
    ensures Under(Labels(a + "." + domain), Labels(domain))
  {
    SplitAppend(a, domain);
    assert |Labels(a)| >= 1;
    hide Labels;
    assert (Labels(a) + Labels(domain))[|Labels(a)|..] == Labels(domain);
  }

  lemma LabelsJoin(host: string, domain: string) returns (a: string)
    requires Under(Labels(host), Labels(domain))
    ensures host == a + "." + domain
  {
    hide T.Split, T.Join;
    var n := |Labels(host)| - |Labels(domain)|;
    T.JoinSplit(host, '.');
    T.JoinSplit(domain, '.');
    JoinAppend(Labels(host)[..n], Labels(domain));
    assert Labels(host) == Labels(host)[..n] + Labels(domain);
    a := T.Join(Labels(host)[..n], '.');
  }

  /**
   * The suffix test is the test on labels: `.domain` ends a host exactly if the host is labels before that domain's.
   */
  lemma SuffixIsLabels(host: string, domain: string)
    ensures EndsWith(host, "." + domain) <==> Under(Labels(host), Labels(domain))
  {
    hide Labels, Under;
    var s := "." + domain;
    if EndsWith(host, s) {
      var a := host[..|host| - |s|];
      assert host == a + "." + domain;
      SuffixSplits(a, domain);
    }
    if Under(Labels(host), Labels(domain)) {
      var a := LabelsJoin(host, domain);
      assert host[|host| - |s|..] == s;
    }
  }

  lemma {:induction false} JoinAppend(a: seq<string>, b: seq<string>)
    requires a != [] && b != []
    ensures T.Join(a + b, '.') == T.Join(a, '.') + "." + T.Join(b, '.')
  {
    assert (a + b)[1..] == a[1..] + b;
    if |a| > 1 {
      JoinAppend(a[1..], b);
    } else {
      assert a[1..] + b == b;
    }
  }

  /** A name has a character, no dot at its ends, and no two dots in a row. */
  lemma NameMeans(h: string)
    ensures IsName(h) <==> h != "" && h[0] != '.' && !T.EmptyAfter(h, '.')
  {
    T.EmptyParts(h, '.');
    hide T.EmptyAfter;
    assert Labels(h) == [Labels(h)[0]] + Labels(h)[1..];
  }

  /** `*.` alone is an entry that allows nothing. */
  lemma BareWildcard(host: string)
    requires IsName(host)
    ensures host != "*."
  {
    NameMeans("*.");
    assert T.EmptyAt("*.", '.', 1);
  }

  lemma AddSuffix(p: PluginHosts, s: string, host: string)
    ensures Allows(p.(suffixes := p.suffixes + {s}), host) <==> Allows(p, host) || (IsName(host) && EndsWith(host, s))
  {
    hide IsName, EndsWith;
    var q := p.(suffixes := p.suffixes + {s});
    assert s in q.suffixes;
  }

  /** One more entry allows what it stands for. */
  lemma AddEntryAllows(p: PluginHosts, e: string, host: string)
    ensures Allows(AddEntry(p, e), host) <==> Allows(p, host) || (IsName(host) && StandsFor(e, host))
  {
    WildcardStart(e);
    if IsName(host) {
      BareWildcard(host);
    }
    hide EndsWith, Under, IsName, Labels;
    if IsWildcard(e) && |e| > 2 {
      assert e[1..] == "." + e[2..];
      SuffixIsLabels(host, e[2..]);
      AddSuffix(p, e[1..], host);
      hide Allows;
    } else if IsWildcard(e) {
      assert e == "*.";
    }
  }

  lemma WildcardStart(e: string)
    ensures IsWildcard(e) <==> |e| >= 2 && e[0] == '*' && e[1] == '.'
  {
    assert |e| >= 2 ==> e[..2] == [e[0], e[1]];
  }

  /** A plugin's list allows a host exactly if it is a name and some entry allows it. */
  lemma {:induction false} AllowsMeansEntries(entries: seq<string>, host: string)
    ensures Allows(Compile(entries), host) <==> IsName(host) && SomeEntryAllows(entries, host)
  {
    hide Normalize, EndsWith, Under, IsName, Labels;
    if entries != [] {
      var init, last := entries[..|entries| - 1], entries[|entries| - 1];
      AllowsMeansEntries(init, host);
      AddEntryAllows(Compile(init), Normalize(last), host);
      hide Allows, StandsFor, AddEntry;
      SomeNext(init, last, host);
      assert entries == init + [last];
    }
  }

  lemma SomeNext(entries: seq<string>, last: string, host: string)
    ensures SomeEntryAllows(entries + [last], host) <==> SomeEntryAllows(entries, host) || EntryAllows(last, host)
  {
    hide EntryAllows;
    var more := entries + [last];
    assert more[|entries|] == last;
    if SomeEntryAllows(entries, host) {
      var i :| 0 <= i < |entries| && EntryAllows(entries[i], host);
      assert more[i] == entries[i];
    }
  }

  /** `*.domain` never allows the domain itself, nor a name that merely ends in the same letters. */
  lemma {:induction false} NotTheDomain(entries: seq<string>, domain: string, letters: string)
    requires domain != "" && forall i :: 0 <= i < |entries| ==> Normalize(entries[i]) == "*." + domain
    requires letters == "" || letters[|letters| - 1] != '.'
    ensures !Allows(Compile(entries), letters + domain)
  {
    hide Normalize, Labels, Under, IsName;
    var host := letters + domain;
    AllowsMeansEntries(entries, host);
    SuffixIsLabels(host, domain);
    assert ("*." + domain)[2..] == domain;
    if |host| > |domain| {
      assert host[|host| - |"." + domain|..][0] == letters[|letters| - 1];
    }
    assert !Under(Labels(host), Labels(domain));
    forall i | 0 <= i < |entries| ensures !EntryAllows(entries[i], host) {
    }
  }

  /** `t` is `g` with its letters in lower case. */
  predicate LowerCaseOf(g: string, t: string) {
    && |g| == |t|
    && forall i :: 0 <= i < |g| ==>
         if 'A' <= g[i] <= 'Z' then t[i] as int == g[i] as int + 32 else t[i] == g[i]
  }

  /** A host in its plain form: no capitals, no dot behind, no brackets around. */
  predicate PlainHost(h: string) {
    (forall i :: 0 <= i < |h| ==> !('A' <= h[i] <= 'Z')) && (h != "" ==> h[|h| - 1] != '.') && !Bracketed(h)
  }

  lemma {:induction false} LowerIsCase(g: string, t: string)
    ensures Lower(g) == t <==> LowerCaseOf(g, t)
  {
    if g != "" && |t| == |g| {
      LowerIsCase(g[1..], t[1..]);
      assert t == [t[0]] + t[1..];
      if LowerCaseOf(g[1..], t[1..]) {
        forall i | 0 < i < |g| ensures if 'A' <= g[i] <= 'Z' then t[i] as int == g[i] as int + 32 else t[i] == g[i] {
          assert g[1..][i - 1] == g[i] && t[1..][i - 1] == t[i];
        }
      }
      if LowerCaseOf(g, t) {
        assert LowerCaseOf(g[1..], t[1..]);
      }
    }
  }

  lemma Unwraps(t: string, h: string)
    requires PlainHost(h)
    ensures WithoutDot(WithoutBrackets(t)) == h <==>
            t == h || t == h + "." || t == "[" + h + "]" || t == "[" + h + ".]"
  {
    hide PlainHost;
    var u := WithoutBrackets(t);
    assert WithoutDot(u) == h <==> u == h || u == h + "." by {
      assert PlainEnd(h) by { PlainEnds(h); }
      if u == h + "." {
        assert u[..|u| - 1] == h;
      }
      if u != "" && u[|u| - 1] == '.' {
        assert u == u[..|u| - 1] + ".";
      }
    }
    PlainEnds(h);
    if Bracketed(t) {
      assert t == "[" + u + "]";
    }
    assert "[" + (h + ".") + "]" == "[" + h + ".]";
    if t == "[" + h + "]" {
      assert t[1..|t| - 1] == h;
    }
    if t == "[" + h + ".]" {
      assert t[1..|t| - 1] == h + ".";
    }
  }

  predicate PlainEnd(h: string) { (h != "" ==> h[|h| - 1] != '.') && !Bracketed(h) }

  lemma PlainEnds(h: string)
    requires PlainHost(h)
    ensures PlainEnd(h)
  {
  }

  /** The spellings of a plain host are the host itself, with a dot behind, in brackets, or both; in any case. */
  lemma {:induction false} SpellingsOf(g: string, h: string)
    requires PlainHost(h)
    ensures Normalize(g) == h <==>
            || LowerCaseOf(g, h) || LowerCaseOf(g, h + ".")
            || LowerCaseOf(g, "[" + h + "]") || LowerCaseOf(g, "[" + h + ".]")
  {
    Unwraps(Lower(g), h);
    LowerIsCase(g, h);
    LowerIsCase(g, h + ".");
    LowerIsCase(g, "[" + h + "]");
    LowerIsCase(g, "[" + h + ".]");
    hide PlainHost, LowerCaseOf, Lower, WithoutDot, WithoutBrackets;
  }

  predicate IsLower(t: string) { forall i :: 0 <= i < |t| ==> LowerChar(t[i]) == t[i] }

  lemma {:induction false} LowerIsLower(t: string)
    ensures IsLower(Lower(t))
  {
    if t != "" {
      LowerIsLower(t[1..]);
      assert forall i :: 0 < i < |t| ==> Lower(t)[i] == Lower(t[1..])[i - 1];
    }
  }

  lemma {:induction false} LowerStays(t: string)
    requires IsLower(t)
    ensures Lower(t) == t
  {
    if t != "" {
      assert forall i :: 0 <= i < |t| - 1 ==> t[1..][i] == t[i + 1];
      LowerStays(t[1..]);
    }
  }

  lemma NormalizeIsLower(h: string)
    ensures IsLower(Normalize(h))
  {
    hide Lower, LowerChar;
    LowerIsLower(h);
    var t := Lower(h);
    var u := WithoutBrackets(t);
    assert IsLower(u) by {
      assert forall i :: 0 <= i < |u| ==> u[i] == if Bracketed(t) then t[i + 1] else t[i];
    }
  }

  lemma NormalizeStays(h: string)
    ensures Normalize(Normalize(h)) == Normalize(h) <==>
            var r := Normalize(h); r == "" || (r[|r| - 1] != '.' && !Bracketed(r))
  {
    var r := Normalize(h);
    NormalizeIsLower(h);
    LowerStays(r);
    hide Lower, IsLower;
    assert Normalize(r) == WithoutDot(WithoutBrackets(r));
    hide Normalize;
    assert |WithoutDot(WithoutBrackets(r))| == |r| <==> r == "" || (r[|r| - 1] != '.' && !Bracketed(r));
  }

  predicate IsMark(c: char) { c == '.' || c == '[' || c == ']' }

  /** The two differ in letters only. */
  predicate SameMarks(t: string, u: string) {
    |t| == |u| && forall i :: 0 <= i < |t| ==> t[i] == u[i] || (!IsMark(t[i]) && !IsMark(u[i]))
  }

  lemma {:induction false} LowerMarks(t: string)
    ensures SameMarks(Lower(t), t)
  {
    if t != "" {
      LowerMarks(t[1..]);
      assert forall i :: 0 < i < |t| ==> Lower(t)[i] == Lower(t[1..])[i - 1] && t[i] == t[1..][i - 1];
    }
  }

  lemma UnbracketedMarks(h: string)
    ensures SameMarks(WithoutBrackets(Lower(h)), WithoutBrackets(h))
  {
    LowerMarks(h);
    hide Lower;
    var t := Lower(h);
    assert Bracketed(t) <==> Bracketed(h);
  }

  /** Brackets or a dot are left to take off: two dots at the end, brackets in brackets, or brackets before a dot. */
  predicate LeavesMore(u: string) {
    EndsWith(u, "..") || Bracketed(u) || (u != "" && u[0] == '[' && EndsWith(u, "]."))
  }

  lemma MarksAt(v: string, u: string, i: nat)
    requires SameMarks(v, u) && i < |u|
    ensures (v[i] == '.' <==> u[i] == '.') && (v[i] == '[' <==> u[i] == '[') && (v[i] == ']' <==> u[i] == ']')
  {
  }

  lemma EndsWithTwo(u: string, a: char, b: char)
    ensures EndsWith(u, [a, b]) <==> |u| >= 2 && u[|u| - 2] == a && u[|u| - 1] == b
  {
    var n := |u|;
    assert n >= 2 ==> u[n - 2..] == [u[n - 2], u[n - 1]];
  }

  lemma LeftOver(v: string, u: string)
    requires SameMarks(v, u)
    ensures var r := WithoutDot(v); r == "" || (r[|r| - 1] != '.' && !Bracketed(r)) <==> !LeavesMore(u)
  {
    var n := |u|;
    EndsWithTwo(u, '.', '.');
    EndsWithTwo(u, ']', '.');
    assert |v| == |u|;
    if n > 0 {
      MarksAt(v, u, 0);
      MarksAt(v, u, n - 1);
    }
    if n > 1 {
      MarksAt(v, u, n - 2);
    }
    hide SameMarks, EndsWith;
  }

  /** A host normalised again stays as it is exactly if, with its brackets off once, nothing is left to take off. */
  lemma {:induction false} NormalizeAgain(h: string)
    ensures Normalize(Normalize(h)) == Normalize(h) <==> !LeavesMore(WithoutBrackets(h))
  {
    hide Lower, LeavesMore, SameMarks, WithoutBrackets, WithoutDot;
    NormalizeStays(h);
    UnbracketedMarks(h);
    LeftOver(WithoutBrackets(Lower(h)), WithoutBrackets(h));
  }

  /**
   * A bracketed address with a dot behind it keeps its brackets, so it is not the address of the entry without the dot.
   */
  lemma {:induction false} DotBehindBrackets()
    ensures Normalize("[a].") == "[a]" && Normalize("[a]") == "a"
  {
    LowerStays("[a].");
    LowerStays("[a]");
    hide Lower;
    assert "[a]."[..3] == "[a]" && "[a]"[1..2] == "a";
  }

  // ---------------------------------------------------------------- the policy file

  /**
   * What a file holds once parsed: the entries of each plugin, or `None` if it is not an object of lists of strings.
   */
  type Content = Option<map<string, seq<string>>>

  /** A readable file: its inode, modification time and size, and its content. */
  datatype PolicyFile = PolicyFile(signature: int, content: Content)

  /** What a fresh reading of the file allows; one that cannot be read refuses everyone. */
  predicate FreshAllows(f: Option<PolicyFile>, user: string, host: string) {
    f.Some? && f.value.content.Some? && user in f.value.content.value &&
      Allows(Compile(f.value.content.value[user]), host)
  }

  function CompileAll(c: Content): map<string, PluginHosts> {
    if c.None? then map[] else map u | u in c.value :: Compile(c.value[u])
  }

  /** A request, and the file as it is then. */
  datatype Request = Request(file: Option<PolicyFile>, user: string, host: string)

  /** Files with one signature have one content. */
  predicate SignaturesTell(rs: seq<Request>) {
    forall i, j :: 0 <= i < |rs| && 0 <= j < |rs| && SameSignature(rs[i].file, rs[j].file) ==> rs[i].file == rs[j].file
  }

  predicate SameSignature(f: Option<PolicyFile>, g: Option<PolicyFile>) {
    f.Some? && g.Some? && f.value.signature == g.value.signature
  }

  /** The policy as it is cached. */
  datatype Cache = Cache(signature: Option<int>, plugins: map<string, PluginHosts>)

  const EMPTY_CACHE := Cache(None, map[])

  /** `_refresh`. */
  function Refresh(c: Cache, f: Option<PolicyFile>): Cache {
    if f.None? then EMPTY_CACHE
    else if c.signature == Some(f.value.signature) then c
    else Cache(Some(f.value.signature), CompileAll(f.value.content))
  }

  function CacheAfter(rs: seq<Request>): Cache {
    if rs == [] then EMPTY_CACHE else Refresh(CacheAfter(rs[..|rs| - 1]), rs[|rs| - 1].file)
  }

  predicate CachedAllows(c: Cache, user: string, host: string) { user in c.plugins && Allows(c.plugins[user], host) }

  /** The cache is empty, or holds what the file of some request held. */
  predicate FromRequest(c: Cache, rs: seq<Request>) {
    c == EMPTY_CACHE ||
    exists i :: 0 <= i < |rs| && rs[i].file.Some?
                && c == Cache(Some(rs[i].file.value.signature), CompileAll(rs[i].file.value.content))
  }

  lemma {:induction false} CacheFromRequest(rs: seq<Request>)
    ensures FromRequest(CacheAfter(rs), rs)
  {
    hide CompileAll;
    if rs != [] {
      var init, f := rs[..|rs| - 1], rs[|rs| - 1].file;
      CacheFromRequest(init);
      var c := CacheAfter(init);
      if c != EMPTY_CACHE {
        var i :| 0 <= i < |init| && init[i].file.Some? &&
                 c == Cache(Some(init[i].file.value.signature), CompileAll(init[i].file.value.content));
        assert rs[i] == init[i];
      }
    }
  }

  /** Over any changes of the file, every request is answered as a fresh reading would answer it, if signatures tell. */
  lemma AnswersAreFresh(rs: seq<Request>)
    requires rs != [] && SignaturesTell(rs)
    ensures var r := rs[|rs| - 1];
            CachedAllows(CacheAfter(rs), r.user, r.host) <==> FreshAllows(r.file, r.user, r.host)
  {
    hide Allows, Compile;
    var init, r := rs[..|rs| - 1], rs[|rs| - 1];
    CacheFromRequest(init);
    var c := CacheAfter(init);
    if r.file.Some? && c.signature == Some(r.file.value.signature) {
      var i :| 0 <= i < |init| && init[i].file.Some? &&
               c == Cache(Some(init[i].file.value.signature), CompileAll(init[i].file.value.content));
      assert rs[i] == init[i];
      assert rs[i].file == rs[|rs| - 1].file;
    }
  }

  /** A changed file that keeps its signature is answered from the old one. */
  lemma {:induction false} StaleAnswer()
    ensures var first := Request(Some(PolicyFile(1, Some(map["p" := []]))), "p", "h");
            var next := Request(Some(PolicyFile(1, Some(map["p" := ["h"]]))), "p", "h");
            CacheAfter([first, next]) == CacheAfter([first]) && !CachedAllows(CacheAfter([first, next]), "p", "h")
  {
    var first := Request(Some(PolicyFile(1, Some(map["p" := []]))), "p", "h");
    var next := Request(Some(PolicyFile(1, Some(map["p" := ["h"]]))), "p", "h");
    assert [first, next][..1] == [first] && [first][..0] == [];
  }

  // ---------------------------------------------------------------- the policy as an object

  class HostPolicy {
    var signature: Option<int>
    var plugins: map<string, PluginHosts>
    var readable: bool
    ghost var asked: seq<Request>

    /** The cache is what the requests so far left. */
    ghost predicate Valid()
      reads this
    {
      Cache(signature, plugins) == CacheAfter(asked)
    }

    constructor ()
      ensures Valid() && asked == []
    {
      signature, plugins, readable, asked := None, map[], true, [];
    }

    method Reload(f: Option<PolicyFile>)
      modifies this`signature, this`plugins, this`readable
      ensures Cache(signature, plugins) == Refresh(old(Cache(signature, plugins)), f)
    {
      if f.None? {
        readable, signature, plugins := false, None, map[];
        return;
      }
      if signature == Some(f.value.signature) {
        return;
      }
      readable, signature := true, Some(f.value.signature);
      plugins := CompileAll(f.value.content);
    }

    method Ask(r: Request) returns (allowed: bool)
      requires Valid() && SignaturesTell(asked + [r])
      modifies this
      ensures Valid() && asked == old(asked) + [r]
      ensures allowed <==> FreshAllows(r.file, r.user, r.host)
    {
      hide Allows, SignaturesTell, FreshAllows, CompileAll;
      Reload(r.file);
      asked := asked + [r];
      assert asked[..|asked| - 1] == old(asked);
      AnswersAreFresh(asked);
      allowed := r.user in plugins && Allows(plugins[r.user], r.host);
    }
  }
}
