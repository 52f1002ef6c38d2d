/**
 * The optional features of an installation: each is on only while its flag is `true` and its compose profile is active.
 */
module EnvFeatures {
  import opened Options
  import T = Text
  import opened EnvLine
  import opened EnvFile

  datatype Feature = Feature(flag: string, profile: string)

  const FEATURES := [
    Feature("CHAT_ENABLED", "chat"),
    Feature("AUDIT_TRAIL_ENABLED", "auditor"),
    Feature("PLUGINS_ENABLED", "plugins")]

  const PROFILES := "COMPOSE_PROFILES"

  /** The profiles `feature_values` decides on. */
  predicate Owned(profile: string) {
    profile == "dev" || profile == "chat" || profile == "auditor" || profile == "plugins"
  }

  /** `profile.lower() == "none"`. */
  predicate IsNone(p: string) {
    |p| == 4 && (p[0] == 'n' || p[0] == 'N') && (p[1] == 'o' || p[1] == 'O')
    && (p[2] == 'n' || p[2] == 'N') && (p[3] == 'e' || p[3] == 'E')
  }

  predicate Counts(profile: string) { profile != "" && !IsNone(profile) }

  /** The parts of a list, stripped, without the empty ones and `none`. */
  function Kept(parts: seq<string>): seq<string> {
    if parts == [] then []
    else
      var p := Strip(parts[|parts| - 1]);
      Kept(parts[..|parts| - 1]) + if Counts(p) then [p] else []
  }

  /** `parse_profiles`. */
  function ParseProfiles(value: string): seq<string> { Kept(T.Split(value, ',')) }

  function NotOwned(profiles: seq<string>): seq<string> {
    if profiles == [] then []
    else
      var p := profiles[|profiles| - 1];
      NotOwned(profiles[..|profiles| - 1]) + if Owned(p) then [] else [p]
  }

  /** Which features are on, in the order of `FEATURES`. */
  datatype Choice = Choice(chat: bool, audit: bool, plugins: bool)

  function On(c: Choice, i: nat): bool
    requires i < 3
  {
    if i == 0 then c.chat else if i == 1 then c.audit else c.plugins
  }

  function FeatureProfiles(c: Choice): seq<string> {
    (if c.chat then ["chat"] else []) + (if c.audit then ["auditor"] else []) + (if c.plugins then ["plugins"] else [])
  }

  /** The profiles to be active: those the wizard does not own, and those it turns on. */
  function ActiveProfiles(c: Choice, current: string, isLocal: bool): seq<string> {
    NotOwned(ParseProfiles(current)) + (if isLocal then ["dev"] else []) + FeatureProfiles(c)
  }

  function Flag(on: bool): string { if on then "true" else "false" }

  /** `",".join(profiles) or "none"`. */
  function ProfilesValue(profiles: seq<string>): string {
    var joined := T.Join(profiles, ',');
    if joined == "" then "none" else joined
  }

  /** `feature_values`. */
  function FeatureValues(c: Choice, current: string, isLocal: bool): seq<Setting> {
    [Setting("CHAT_ENABLED", Flag(c.chat)), Setting("AUDIT_TRAIL_ENABLED", Flag(c.audit)),
     Setting("PLUGINS_ENABLED", Flag(c.plugins)), Setting(PROFILES, ProfilesValue(ActiveProfiles(c, current, isLocal)))]
  }

  // ---------------------------------------------------------------- profiles are read back

  /** A profile that a list gives back as it is. */
  predicate Clean(p: string) { Strip(p) == p && Counts(p) && ',' !in p }

  predicate AllClean(profiles: seq<string>) { forall i :: 0 <= i < |profiles| ==> Clean(profiles[i]) }

  lemma {:induction false} TrimEndTrims(t: string)
    ensures TrimEnd(t) <= t
    ensures TrimEnd(t) != "" ==> !IsSpace(TrimEnd(t)[|TrimEnd(t)| - 1])
    ensures TrimEnd(TrimEnd(t)) == TrimEnd(t)
  {
    if t != "" && IsSpace(t[|t| - 1]) {
      TrimEndTrims(t[..|t| - 1]);
    }
  }

  /** Stripping twice strips once. */
  lemma StripTwice(t: string)
    ensures Strip(Strip(t)) == Strip(t)
  {
    var i := SkipSpaces(t, 0);
    var r := t[i..];
    TrimEndTrims(r);
    var s := TrimEnd(r);
    if s != "" {
      assert s[0] == r[0] == t[i];
    }
    SkipSpacesIs(s, 0, 0);
    assert s[0..] == s;
  }

  lemma StripPart(t: string, c: char)
    requires c !in t
    ensures c !in Strip(t)
  {
    TrimEndTrims(t[SkipSpaces(t, 0)..]);
    var r := t[SkipSpaces(t, 0)..];
    assert forall x :: x in r ==> x in t;
    assert forall x :: x in Strip(t) ==> x in r;
  }

  lemma {:induction false} SplitParts(t: string, sep: char)
    ensures forall i :: 0 <= i < |T.Split(t, sep)| ==> sep !in T.Split(t, sep)[i]
  {
    if t != "" {
      SplitParts(t[1..], sep);
    }
  }

  lemma {:induction false} KeptClean(parts: seq<string>)
    requires forall i :: 0 <= i < |parts| ==> ',' !in parts[i]
    ensures AllClean(Kept(parts))
  {
    hide Strip, Counts;
    if parts != [] {
      var part := parts[|parts| - 1];
      KeptClean(parts[..|parts| - 1]);
      StripTwice(part);
      StripPart(part, ',');
    }
  }

  /** What a list of profiles parses to is clean. */
  lemma ParsedClean(value: string)
    ensures AllClean(ParseProfiles(value))
  {
    SplitParts(value, ',');
    KeptClean(T.Split(value, ','));
  }

  /** The letters of `word`, small or capital. */
  predicate SpellsInAnyCase(p: string, word: string) {
    |p| == |word| && forall i :: 0 <= i < |p| ==> p[i] == word[i] || p[i] as int + 32 == word[i] as int
  }

  lemma NoneSpelled(p: string)
    ensures IsNone(p) <==> SpellsInAnyCase(p, "none")
  {
    var word := "none";
    assert word[0] == 'n' && word[1] == 'o' && word[2] == 'n' && word[3] == 'e';
    if |p| == 4 {
      assert 'n' as int == 'N' as int + 32 && 'o' as int == 'O' as int + 32 && 'e' as int == 'E' as int + 32;
      if SpellsInAnyCase(p, word) {
        assert forall i :: 0 <= i < 4 ==> p[i] == word[i] || p[i] as int + 32 == word[i] as int;
        assert p[0] == 'n' || p[0] == 'N';
        assert p[1] == 'o' || p[1] as int == 'O' as int;
        assert p[3] == 'e' || p[3] as int == 'E' as int;
      }
    }
  }

  predicate SomeStripsTo(parts: seq<string>, p: string) { exists i :: 0 <= i < |parts| && Strip(parts[i]) == p }

  /** The profiles of a list are its parts, stripped; but for the empty ones, and `none` in any case. */
  lemma {:induction false} KeptAre(parts: seq<string>, p: string)
    ensures p in Kept(parts) <==>
            p != "" && !SpellsInAnyCase(p, "none") && SomeStripsTo(parts, p)
  {
    hide Strip, SpellsInAnyCase, IsNone;
    if parts != [] {
      var init, last := parts[..|parts| - 1], parts[|parts| - 1];
      KeptAre(init, p);
      NoneSpelled(p);
      assert parts == init + [last];
      assert forall i :: 0 <= i < |init| ==> init[i] == parts[i];
      if Strip(last) == p {
        assert Strip(parts[|parts| - 1]) == p;
      }
    }
  }

  /** The same for the text of a list, which is cut at its commas. */
  lemma {:induction false} ParsedAre(value: string, p: string)
    ensures p in ParseProfiles(value) <==>
            p != "" && !SpellsInAnyCase(p, "none") && SomeStripsTo(T.Split(value, ','), p)
  {
    KeptAre(T.Split(value, ','), p);
  }

  lemma {:induction false} KeptAll(profiles: seq<string>)
    requires AllClean(profiles)
    ensures Kept(profiles) == profiles
  {
    hide Strip, Counts;
    if profiles != [] {
      var init := profiles[..|profiles| - 1];
      assert AllClean(init);
      KeptAll(init);
      assert Clean(profiles[|profiles| - 1]);
      assert profiles == init + [profiles[|profiles| - 1]];
    }
  }

  /** The list written for clean profiles parses to just those. */
  lemma ProfilesReadBack(profiles: seq<string>)
    requires AllClean(profiles)
    ensures ParseProfiles(ProfilesValue(profiles)) == profiles
  {
    hide Strip, Kept;
    if profiles == [] {
      NonePlain();
    } else {
      forall p | p in profiles ensures ',' !in p {
        var i :| 0 <= i < |profiles| && profiles[i] == p;
        assert Clean(profiles[i]);
      }
      T.SplitJoin(profiles, ',');
      KeptAll(profiles);
      assert Clean(profiles[0]);
      JoinSome(profiles);
    }
  }

  lemma JoinSome(profiles: seq<string>)
    requires profiles != [] && profiles[0] != ""
    ensures T.Join(profiles, ',') != ""
  {
  }

  lemma NonePlain()
    ensures ParseProfiles("none") == []
  {
    T.SplitWhole("none", ',');
    SkipSpacesIs("none", 0, 0);
    assert "none"[0..] == "none";
    assert Strip("none") == "none";
    assert ["none"][..0] == [];
  }

  // ---------------------------------------------------------------- flags and profiles agree

  lemma PlainClean(p: string)
    requires Counts(p) && ',' !in p && !IsSpace(p[0]) && !IsSpace(p[|p| - 1])
    ensures Clean(p)
  {
    SkipSpacesIs(p, 0, 0);
    assert p[0..] == p;
  }

  lemma {:induction false} NotOwnedIs(profiles: seq<string>, p: string)
    ensures p in NotOwned(profiles) <==> p in profiles && !Owned(p)
    ensures AllClean(profiles) ==> AllClean(NotOwned(profiles))
  {
    hide Clean, Owned;
    if profiles != [] {
      var init := profiles[..|profiles| - 1];
      NotOwnedIs(init, p);
      assert profiles == init + [profiles[|profiles| - 1]];
    }
  }

  lemma CleanAppend(a: seq<string>, b: seq<string>)
    requires AllClean(a) && AllClean(b)
    ensures AllClean(a + b)
  {
    hide Clean;
  }

  lemma OwnedClean()
    ensures Clean("dev") && Clean("chat") && Clean("auditor") && Clean("plugins")
  {
    PlainClean("dev");
    PlainClean("chat");
    PlainClean("auditor");
    PlainClean("plugins");
  }

  lemma ActiveClean(c: Choice, current: string, isLocal: bool)
    ensures AllClean(ActiveProfiles(c, current, isLocal))
  {
    ParsedClean(current);
    NotOwnedIs(ParseProfiles(current), "");
    OwnedClean();
    hide Clean, ParseProfiles, NotOwned;
    CleanAppend(NotOwned(ParseProfiles(current)), if isLocal then ["dev"] else []);
    CleanAppend(NotOwned(ParseProfiles(current)) + (if isLocal then ["dev"] else []), FeatureProfiles(c));
  }

  lemma ActiveIs(c: Choice, current: string, isLocal: bool, p: string)
    ensures p in ActiveProfiles(c, current, isLocal) <==>
            (p in ParseProfiles(current) && !Owned(p)) || (isLocal && p == "dev") || p in FeatureProfiles(c)
  {
    hide ParseProfiles, Owned, FeatureProfiles, NotOwned;
    NotOwnedIs(ParseProfiles(current), p);
  }

  lemma FeatureProfilesAre(c: Choice, p: string)
    ensures p in FeatureProfiles(c) <==>
            (p == "chat" && c.chat) || (p == "auditor" && c.audit) || (p == "plugins" && c.plugins)
  {
  }

  /**
   * The profiles written are read back as those to be active: a feature's is among them exactly if its flag is `true`,
   * `dev` exactly for local files, and any other profile exactly if it was before.
   */
  lemma FlagsAndProfilesAgree(c: Choice, current: string, isLocal: bool, i: nat, p: string)
    requires i < 3 && !Owned(p)
    ensures var vs := FeatureValues(c, current, isLocal);
            var active := ParseProfiles(vs[3].value);
            && vs[i].name == FEATURES[i].flag && vs[3].name == PROFILES
            && (vs[i].value == "true" <==> On(c, i)) && (vs[i].value == "false" <==> !On(c, i))
            && (FEATURES[i].profile in active <==> On(c, i))
            && ("dev" in active <==> isLocal)
            && (p in active <==> p in ParseProfiles(current))
  {
    hide ParseProfiles, ProfilesValue, AllClean, ActiveProfiles, FeatureProfiles;
    ActiveClean(c, current, isLocal);
    ProfilesReadBack(ActiveProfiles(c, current, isLocal));
    var q := FEATURES[i].profile;
    assert Owned(q) && Owned("dev");
    ActiveIs(c, current, isLocal, p);
    ActiveIs(c, current, isLocal, "dev");
    ActiveIs(c, current, isLocal, q);
    FeatureProfilesAre(c, p);
    FeatureProfilesAre(c, "dev");
    FeatureProfilesAre(c, q);
  }

  lemma NoQuotes(v: string)
    requires v == "true" || v == "false"
    ensures GoodValue(v)
  {
    PlainValueGood(v);
  }

  lemma FlagNamesGood()
    ensures GoodName("CHAT_ENABLED") && GoodName("AUDIT_TRAIL_ENABLED")
  {
  }

  lemma OtherNamesGood()
    ensures GoodName("PLUGINS_ENABLED") && GoodName(PROFILES)
  {
  }

  lemma FourGood(vs: seq<Setting>)
    requires |vs| == 4 && forall i :: 0 <= i < 4 ==> GoodName(vs[i].name) && GoodValue(vs[i].value)
    requires |vs[0].name| == 12 && |vs[1].name| == 19 && |vs[2].name| == 15 && |vs[3].name| == 16
    ensures GoodSettings(vs)
  {
    hide GoodName, GoodValue;
  }

  lemma FeatureSettingsGood(c: Choice, current: string, isLocal: bool)
    requires GoodValue(ProfilesValue(ActiveProfiles(c, current, isLocal)))
    ensures GoodSettings(FeatureValues(c, current, isLocal))
  {
    hide GoodValue, ProfilesValue, ActiveProfiles, GoodName, GoodSettings;
    NoQuotes(Flag(c.chat));
    NoQuotes(Flag(c.audit));
    NoQuotes(Flag(c.plugins));
    FlagNamesGood();
    OtherNamesGood();
    hide Flag;
    FourGood(FeatureValues(c, current, isLocal));
  }

  /** What a file says of a name, or the default. */
  function ReadOr(text: string, name: string, default: string): string {
    var r := ReadText(text, name);
    if r.Some? then r.value else default
  }

  /** After the choice is written to a file, each feature's flag and profile, as read from the file, agree with it. */
  lemma {:induction false} FeaturesWritten(text: string, c: Choice, isLocal: bool, i: nat)
    requires i < 3
    requires GoodValue(ProfilesValue(ActiveProfiles(c, ReadOr(text, PROFILES, ""), isLocal)))
    requires Safe(SplitLines(text), FeatureValues(c, ReadOr(text, PROFILES, ""), isLocal))
    ensures var written := Rewrite(text, FeatureValues(c, ReadOr(text, PROFILES, ""), isLocal));
            && (ReadText(written, FEATURES[i].flag) == Some("true") <==> On(c, i))
            && (FEATURES[i].profile in ParseProfiles(ReadOr(written, PROFILES, "")) <==> On(c, i))
  {
    var current := ReadOr(text, PROFILES, "");
    var vs := FeatureValues(c, current, isLocal);
    FeatureSettingsGood(c, current, isLocal);
    FlagsAndProfilesAgree(c, current, isLocal, i, "");
    hide FeatureValues, Safe, GoodSettings, Rewrite, ReadText, ParseProfiles, GoodValue;
    ReadsOverlaid(text, vs, FEATURES[i].flag);
    ReadsOverlaid(text, vs, PROFILES);
    SettingsLength(c, current, isLocal);
    ValueForIn(vs, i);
    ValueForIn(vs, 3);
  }

  lemma SettingsLength(c: Choice, current: string, isLocal: bool)
    ensures |FeatureValues(c, current, isLocal)| == 4
  {
  }
}
