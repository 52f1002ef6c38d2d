/**
 * A plugin page's sign-in through EpicStaff: its token, its renewal timer, the state the page sees, and whether the
 * plugin's own API can be reached.
 *
 * Every synchronous piece between two awaits is one event, and the events come in any order: several sign-ins,
 * renewals, navigations and requests may be under way at once.
 */
module PluginLogin {
  import opened Options

  const RENEW_BEFORE_MS := 60_000

  datatype LoginState = Idle | SigningIn | SignedIn | AccessDenied | SessionEnded | Maintenance | Failed
  datatype Availability = Available | UnderMaintenance | Unavailable
  datatype ErrorCode = StorageUnavailable | CallbackFailed | ExchangeFailed | InvalidTokenResponse
  datatype CallbackError = LoginRequired | AccessRefused | InteractionRequired | TemporarilyUnavailable

  /** What EpicStaff answered on the callback page. */
  datatype Answer = Code(code: string) | Refusal(error: CallbackError)

  /** What the token endpoint answered. */
  datatype ExchangeAnswer =
    | Unreachable
    | Refused(accessDenied: bool)
    | Answered(token: string, org: int, lifetimeSeconds: int)

  /** The status of the API's answer, and the reason in the gateway's refusal header. */
  datatype ApiAnswer = ApiAnswer(status: int, refusal: Option<string>)

  datatype Session = Session(org: int, expiresAt: int)

  datatype Credentials = Credentials(token: Option<string>, session: Option<Session>,
                                     renewTimer: Option<int>, lastOrg: Option<int>)

  /** Whether the API can be reached, and whether its maintenance comes from a refused sign-in. */
  datatype Reach = Reach(availability: Availability, fromSignIn: bool)

  /** The org to sign in to first, and whether it is only this tab's memory of its last token. */
  datatype OrgHint = OrgHint(hint: Option<int>, stored: bool)

  datatype State = State(
    state: LoginState,
    error: Option<ErrorCode>,
    creds: Credentials,
    reach: Reach,
    org: OrgHint,
    started: bool,
    closed: bool,
    standalone: bool)

  function Fresh(hint: Option<int>, storedOrg: Option<int>, standalone: bool): State {
    State(Idle, None, Credentials(None, None, None, None), Reach(Available, false),
          if hint.Some? then OrgHint(hint, false) else OrgHint(storedOrg, storedOrg.Some?), false, false, standalone)
  }

  // ---------------------------------------------------------------- events and what they mean

  datatype Event =
    | Starts
    | PopupReturns
    | ReturnAnswered(org: Option<int>, returned: Option<Answer>, retryStaleOrg: bool)
    | SilentAnswered(org: Option<int>, atStart: bool, answer: Answer)
    | ExchangeAnswered(reply: ExchangeAnswer, now: int)
    // An interactive sign-in, once its key pair is made: whether the pending sign-in could be kept.
    | LoginReady(kept: bool)
    | TimerDue(now: int)
    | ApiAnswered(api: ApiAnswer)
    | FetchContinues(api: ApiAnswer, tokenSent: bool)
    | Closes

  datatype Outcome =
    | Nothing
    | Begins(atStart: bool)
    | Navigates
    | ForgetsOrg
    | Denies
    | Holds
    | Ends
    | Fails(code: ErrorCode)
    | Obtains(token: string, org: int, lifetimeSeconds: int, now: int)
    | Fires
    | Observes(verdict: Availability)
    | Shuts

  /** EpicStaff refused an org that only this tab remembered, on the plugin's own address. */
  predicate IsStaleOrg(s: State, org: Option<int>) { org.Some? && s.org.stored && org == s.org.hint && s.standalone }

  /** What the API's answer says about it; a refusal for another reason says nothing. */
  function VerdictOf(a: ApiAnswer): Option<Availability> {
    if a.refusal.None? then Some(Available)
    else if a.status == 503 && a.refusal == Some("maintenance") then Some(UnderMaintenance)
    else if a.status == 503 && a.refusal == Some("unavailable") then Some(Unavailable)
    else None
  }

  predicate GoodToken(a: ExchangeAnswer) { a.Answered? && a.token != "" && a.lifetimeSeconds > 0 && a.org > 0 }

  function RefusalMeans(s: State, org: Option<int>, retryStaleOrg: bool, error: CallbackError,
      otherwise: Outcome): Outcome {
    if error.AccessRefused? then (if retryStaleOrg && IsStaleOrg(s, org) then ForgetsOrg else Denies)
    else if error.TemporarilyUnavailable? then Holds
    else otherwise
  }

  function ExchangeMeans(s: State, a: ExchangeAnswer, now: int): Outcome {
    if a.Unreachable? then Fails(ExchangeFailed)
    else if s.closed then Nothing
    else if a.Refused? then (if a.accessDenied then Denies else Fails(ExchangeFailed))
    else if !GoodToken(a) then Fails(InvalidTokenResponse)
    else Obtains(a.token, a.org, a.lifetimeSeconds, now)
  }

  /**
   * A code leads to the token endpoint, and a silent sign-in that fails at start to a navigation: nothing changes yet.
   */
  function Meaning(s: State, e: Event): Outcome {
    match e
    case Starts => if s.started then Nothing else Begins(true)
    case PopupReturns => Begins(false)
    case ReturnAnswered(org, returned, retryStaleOrg) =>
      if returned.None? then Fails(CallbackFailed)
      else if returned.value.Code? then Nothing
      else RefusalMeans(s, org, retryStaleOrg, returned.value.error, Fails(CallbackFailed))
    case SilentAnswered(org, atStart, answer) =>
      if s.closed || answer.Code? then Nothing
      else RefusalMeans(s, org, atStart, answer.error, if atStart then Nothing else Ends)
    case ExchangeAnswered(reply, now) => ExchangeMeans(s, reply, now)
    case LoginReady(kept) => if kept then Navigates else Fails(StorageUnavailable)
    case TimerDue(now) => if s.creds.renewTimer.Some? && s.creds.renewTimer.value <= now then Fires else Nothing
    case ApiAnswered(api) => if s.closed || VerdictOf(api).None? then Nothing else Observes(VerdictOf(api).value)
    case FetchContinues(api, tokenSent) =>
      if tokenSent && api.status == 403 && api.refusal == Some("forbidden") then Denies else Nothing
    case Closes => Shuts
  }

  function Drop(c: Credentials): Credentials { c.(token := None, session := None, renewTimer := None) }

  /** A closed login's availability stays as it was. */
  function SetAvailability(s: State, next: Availability): Availability {
    if s.closed then s.reach.availability else next
  }

  /** A sign-in that was not refused for maintenance ends a maintenance that only a sign-in reported. */
  function EndSignInMaintenance(s: State): Reach {
    if !s.reach.fromSignIn then s.reach
    else
      Reach(if s.reach.availability.UnderMaintenance? then SetAvailability(s, Available)
            else s.reach.availability, false)
  }

  /** The token is gone, for the reason the new state gives. */
  function Lose(s: State, state: LoginState, error: Option<ErrorCode>): State {
    s.(state := state, error := error, creds := Drop(s.creds), reach := EndSignInMaintenance(s))
  }

  function HoldForMaintenance(s: State): State {
    var reach := if s.reach.availability.UnderMaintenance? then s.reach
                 else Reach(SetAvailability(s, UnderMaintenance), true);
    s.(state := Maintenance, error := None, creds := Drop(s.creds), reach := reach)
  }

  /** How long after a token the renewal is set: a minute before expiry, but not before half of its life. */
  function RenewalDelay(lifetimeMs: int): int {
    if lifetimeMs / 2 >= lifetimeMs - RENEW_BEFORE_MS then lifetimeMs / 2 else lifetimeMs - RENEW_BEFORE_MS
  }

  function Obtain(s: State, token: string, org: int, lifetimeSeconds: int, now: int): State {
    var lifetimeMs := lifetimeSeconds * 1000;
    var timer := if s.closed then None else Some(now + RenewalDelay(lifetimeMs));
    var available := if s.reach.availability.UnderMaintenance? then SetAvailability(s, Available)
                     else s.reach.availability;
    s.(state := SignedIn, error := None, reach := Reach(available, false),
       creds := Credentials(Some(token), Some(Session(org, now + lifetimeMs)), timer, Some(org)))
  }

  function Apply(s: State, o: Outcome): State {
    match o
    case Nothing => s
    case Begins(atStart) => s.(state := SigningIn, started := s.started || atStart)
    case Navigates => s.(state := SigningIn, creds := s.creds.(renewTimer := None))
    case ForgetsOrg => s.(org := OrgHint(None, false))
    case Denies => Lose(s, AccessDenied, None)
    case Holds => HoldForMaintenance(s)
    case Ends => Lose(s, SessionEnded, None)
    case Fails(code) => Lose(s, Failed, Some(code))
    case Obtains(token, org, lifetimeSeconds, now) => Obtain(s, token, org, lifetimeSeconds, now)
    case Fires => s.(creds := s.creds.(renewTimer := None))
    case Observes(verdict) => s.(reach := Reach(SetAvailability(s, verdict), false))
    case Shuts => s.(closed := true, creds := s.creds.(renewTimer := None))
  }

  function Step(s: State, e: Event): State { Apply(s, Meaning(s, e)) }

  function Run(s: State, log: seq<Event>): State {
    if log == [] then s else Step(Run(s, log[..|log| - 1]), log[|log| - 1])
  }

  // ---------------------------------------------------------------- what every run keeps

  /**
   * Token and session come and go together, and the renewal falls due in the token's last minute, before it expires.
   */
  predicate CredsOk(c: Credentials) {
    && (c.token.Some? <==> c.session.Some?)
    && (c.session.Some? ==> c.lastOrg == Some(c.session.value.org))
    && (c.renewTimer.Some? ==>
          c.session.Some?
          && c.session.value.expiresAt - RENEW_BEFORE_MS <= c.renewTimer.value < c.session.value.expiresAt)
  }

  /** Signed in exactly with a token, failed exactly with an error; but a sign-in that begins leaves either behind. */
  predicate ShownOk(s: State) {
    && (s.creds.session.Some? ==> s.error.None?)
    && (!s.state.SigningIn? ==> (s.creds.session.Some? <==> s.state.SignedIn?) && (s.error.Some? <==> s.state.Failed?))
  }

  predicate Inv(s: State) {
    && CredsOk(s.creds)
    && ShownOk(s)
    && (!s.closed && s.reach.fromSignIn ==> s.reach.availability.UnderMaintenance?)
    && (s.org.stored ==> s.org.hint.Some?)
    && (s.closed ==> s.creds.renewTimer.None?)
  }

  lemma LoseKeeps(s: State, state: LoginState, error: Option<ErrorCode>)
    requires Inv(s) && !state.SigningIn? && !state.SignedIn? && (error.Some? <==> state.Failed?)
    ensures Inv(Lose(s, state, error))
  {
  }

  lemma HoldKeeps(s: State)
    requires Inv(s)
    ensures Inv(HoldForMaintenance(s))
  {
  }

  lemma ObtainKeeps(s: State, token: string, org: int, lifetimeSeconds: int, now: int)
    requires Inv(s) && lifetimeSeconds > 0
    ensures Inv(Obtain(s, token, org, lifetimeSeconds, now))
  {
  }

  lemma {:induction false} StepKeeps(s: State, e: Event)
    requires Inv(s)
    ensures Inv(Step(s, e))
  {
    ObtainsGood(s, e);
    hide Meaning, Lose, HoldForMaintenance, Obtain;
    match Meaning(s, e)
    case Denies => LoseKeeps(s, AccessDenied, None);
    case Holds => HoldKeeps(s);
    case Ends => LoseKeeps(s, SessionEnded, None);
    case Fails(code) => LoseKeeps(s, Failed, Some(code));
    case Obtains(token, org, lifetimeSeconds, now) => ObtainKeeps(s, token, org, lifetimeSeconds, now);
    case _ =>
  }

  /** Only a good answer of the token endpoint is taken for a token, and only by an open login. */
  lemma {:induction false} ObtainsGood(s: State, e: Event)
    ensures var o := Meaning(s, e);
            o.Obtains? ==> !s.closed && e.ExchangeAnswered? && GoodToken(e.reply) && o.lifetimeSeconds > 0
  {
  }

  /** Every run of events keeps all of it. */
  lemma {:induction false} RunKeeps(s: State, log: seq<Event>)
    requires Inv(s)
    ensures Inv(Run(s, log))
  {
    if log != [] {
      RunKeeps(s, log[..|log| - 1]);
      StepKeeps(Run(s, log[..|log| - 1]), log[|log| - 1]);
      hide Inv, Step;
    }
  }

  lemma {:induction false} EveryLogin(hint: Option<int>, storedOrg: Option<int>, standalone: bool, log: seq<Event>)
    ensures Inv(Run(Fresh(hint, storedOrg, standalone), log))
  {
    RunKeeps(Fresh(hint, storedOrg, standalone), log);
  }

  // ---------------------------------------------------------------- what an event does, read from the event

  /** `start()` runs, a popup came back, or the page leaves for the login. */
  predicate BeginsSignIn(s: State, e: Event) {
    e.PopupReturns? || (e.Starts? && !s.started) || (e.LoginReady? && e.kept)
  }

  /** The token endpoint gave a token. */
  predicate GoodAnswer(e: Event) {
    e.ExchangeAnswered? && e.reply.Answered? && e.reply.token != "" && e.reply.lifetimeSeconds > 0 && e.reply.org > 0
  }

  /** The login refused, to the page that came back or silently. */
  predicate Refuses(e: Event, error: CallbackError) {
    (e.ReturnAnswered? && e.returned == Some(Refusal(error))) || (e.SilentAnswered? && e.answer == Refusal(error))
  }

  /** A closed login no longer hears a silent answer, nor any answer of the token endpoint but none at all. */
  predicate Heard(s: State, e: Event) {
    s.closed ==> !e.SilentAnswered? && (e.ExchangeAnswered? ==> e.reply.Unreachable?)
  }

  /** Access to an org that only this tab remembered, on the plugin's own address: tried once more without it. */
  predicate ForgottenOrg(s: State, e: Event) {
    && Heard(s, e) && Refuses(e, AccessRefused) && s.standalone
    && ((e.ReturnAnswered? && e.retryStaleOrg) || (e.SilentAnswered? && e.atStart))
    && e.org.Some? && s.org == OrgHint(e.org, true)
  }

  /** The login, the token endpoint, or the gateway refused the person. */
  predicate Denied(s: State, e: Event) {
    && Heard(s, e)
    && ((Refuses(e, AccessRefused) && !ForgottenOrg(s, e))
        || (e.ExchangeAnswered? && e.reply == Refused(true))
        || e == FetchContinues(ApiAnswer(403, Some("forbidden")), true))
  }

  /** The login is temporarily unavailable. */
  predicate Held(s: State, e: Event) { Heard(s, e) && Refuses(e, TemporarilyUnavailable) }

  /** A silent sign-in after the start found nobody signed in. */
  predicate SessionOver(s: State, e: Event) {
    && Heard(s, e) && e.SilentAnswered? && !e.atStart
    && (Refuses(e, LoginRequired) || Refuses(e, InteractionRequired))
  }

  predicate FailsAs(s: State, e: Event, code: ErrorCode) {
    match code
    case StorageUnavailable => e == LoginReady(false)
    case CallbackFailed =>
      e.ReturnAnswered? && (e.returned.None? || Refuses(e, LoginRequired) || Refuses(e, InteractionRequired))
    case ExchangeFailed => Heard(s, e) && e.ExchangeAnswered? && (e.reply.Unreachable? || e.reply == Refused(false))
    case InvalidTokenResponse => Heard(s, e) && e.ExchangeAnswered? && e.reply.Answered? && !GoodAnswer(e)
  }

  predicate DropsToken(s: State, e: Event) {
    || Denied(s, e) || Held(s, e) || SessionOver(s, e)
    || FailsAs(s, e, StorageUnavailable) || FailsAs(s, e, CallbackFailed)
    || FailsAs(s, e, ExchangeFailed) || FailsAs(s, e, InvalidTokenResponse)
  }

  predicate GivesToken(s: State, e: Event) { Heard(s, e) && GoodAnswer(e) }

  /** What the API's answer says, to an open login. */
  predicate ApiSays(s: State, e: Event, verdict: Availability) {
    && !s.closed && e.ApiAnswered?
    && match verdict
       case Available => e.api.refusal.None?
       case UnderMaintenance => e.api == ApiAnswer(503, Some("maintenance"))
       case Unavailable => e.api == ApiAnswer(503, Some("unavailable"))
  }

  predicate ApiSpeaks(s: State, e: Event) {
    ApiSays(s, e, Available) || ApiSays(s, e, UnderMaintenance) || ApiSays(s, e, Unavailable)
  }

  lemma BeginsMeans(s: State, e: Event)
    ensures Meaning(s, e).Begins? || Meaning(s, e).Navigates? <==> BeginsSignIn(s, e)
    ensures Meaning(s, e).Begins? ==> Meaning(s, e) == Begins(e.Starts?)
    ensures Meaning(s, e).Navigates? <==> e == LoginReady(true)
    ensures e.Starts? ==> Meaning(s, e) == if s.started then Nothing else Begins(true)
  {
  }

  lemma RefusalsMean(s: State, e: Event)
    ensures Meaning(s, e).Denies? <==> Denied(s, e)
    ensures Meaning(s, e).Holds? <==> Held(s, e)
    ensures Meaning(s, e).Ends? <==> SessionOver(s, e)
    ensures Meaning(s, e).ForgetsOrg? <==> ForgottenOrg(s, e)
  {
  }

  lemma FailuresMean(s: State, e: Event)
    ensures forall code :: Meaning(s, e) == Fails(code) <==> FailsAs(s, e, code)
  {
  }

  lemma AnswersMean(s: State, e: Event)
    ensures Meaning(s, e).Obtains? <==> GivesToken(s, e)
    ensures GivesToken(s, e) ==> !s.closed && GoodAnswer(e)
    ensures GivesToken(s, e) ==> Meaning(s, e) == Obtains(e.reply.token, e.reply.org, e.reply.lifetimeSeconds, e.now)
    ensures forall verdict :: Meaning(s, e) == Observes(verdict) <==> ApiSays(s, e, verdict)
  {
  }

  lemma RestMeans(s: State, e: Event)
    ensures Meaning(s, e).Fires? <==>
            e.TimerDue? && s.creds.renewTimer.Some? && s.creds.renewTimer.value <= e.now
    ensures Meaning(s, e).Shuts? <==> e.Closes?
  {
  }

  /** What the model takes the event for is what can be read from it. */
  lemma MeaningReads(s: State, e: Event)
    ensures var m := Meaning(s, e);
            && (m.Begins? || m.Navigates? <==> BeginsSignIn(s, e)) && (m.Navigates? <==> e == LoginReady(true))
            && (m.Denies? <==> Denied(s, e)) && (m.Holds? <==> Held(s, e)) && (m.Ends? <==> SessionOver(s, e))
            && (m.Fails? ==> FailsAs(s, e, m.code)) && (forall code :: FailsAs(s, e, code) ==> m == Fails(code))
            && (m.Obtains? <==> GivesToken(s, e)) && (m.Observes? ==> ApiSays(s, e, m.verdict))
            && (forall verdict :: ApiSays(s, e, verdict) ==> m == Observes(verdict))
            && (m.ForgetsOrg? <==> ForgottenOrg(s, e))
            && (m.Shuts? <==> e.Closes?)
            && (DropsToken(s, e) <==> m.Denies? || m.Holds? || m.Ends? || m.Fails?)
            && (ApiSpeaks(s, e) <==> m.Observes?)
  {
    BeginsMeans(s, e);
    RefusalsMean(s, e);
    FailuresMean(s, e);
    AnswersMean(s, e);
    RestMeans(s, e);
    hide Meaning, BeginsSignIn, Denied, Held, SessionOver, FailsAs, GivesToken, ApiSays, ForgottenOrg;
    var m := Meaning(s, e);
    if m.Fails? {
      assert m == Fails(m.code);
      var code := m.code;
      assert code.StorageUnavailable? || code.CallbackFailed? || code.ExchangeFailed? || code.InvalidTokenResponse?;
    }
    if m.Observes? {
      assert m == Observes(m.verdict);
      assert m.verdict.Available? || m.verdict.UnderMaintenance? || m.verdict.Unavailable?;
    }
  }

  predicate SameToken(c: Credentials, d: Credentials) { c.token == d.token && c.session == d.session }

  predicate NoToken(c: Credentials) { c.token.None? && c.session.None? && c.renewTimer.None? }

  /** The state and the error the page is shown, and whether the token stays, by what happened. */
  lemma {:induction false} StepShows(s: State, e: Event)
    ensures var t := Step(s, e);
            && (BeginsSignIn(s, e) ==> t.state.SigningIn? && t.error == s.error && SameToken(s.creds, t.creds))
            && (Denied(s, e) ==> t.state.AccessDenied? && t.error.None? && NoToken(t.creds))
            && (Held(s, e) ==> t.state.Maintenance? && t.error.None? && NoToken(t.creds))
            && (SessionOver(s, e) ==> t.state.SessionEnded? && t.error.None? && NoToken(t.creds))
            && (forall code :: FailsAs(s, e, code) ==> t.state.Failed? && t.error == Some(code) && NoToken(t.creds))
            && (GivesToken(s, e) ==> t.state.SignedIn? && t.error.None? && t.creds.token.Some?)
            && (!BeginsSignIn(s, e) && !DropsToken(s, e) && !GivesToken(s, e) ==>
                  t.state == s.state && t.error == s.error && SameToken(s.creds, t.creds))
  {
    MeaningReads(s, e);
    hide Meaning, BeginsSignIn, DropsToken, Denied, Held, SessionOver, FailsAs, GivesToken, ApiSays, ApiSpeaks;
    hide ForgottenOrg;
  }

  /** A timer is set by a token; it is gone with the token, once it fires, when the page leaves, and on the close. */
  lemma {:induction false} StepTimer(s: State, e: Event)
    ensures var t := Step(s, e);
            && (t.creds.renewTimer.Some? <==>
                  GivesToken(s, e)
                  || (s.creds.renewTimer.Some? && !DropsToken(s, e) && e != LoginReady(true) && !e.Closes?
                      && !(e.TimerDue? && e.now >= s.creds.renewTimer.value)))
            && (t.creds.renewTimer.Some? && !GivesToken(s, e) ==> t.creds.renewTimer == s.creds.renewTimer)
            && t.creds.lastOrg == if GivesToken(s, e) then Some(e.reply.org) else s.creds.lastOrg
  {
    MeaningReads(s, e);
    AnswersMean(s, e);
    RestMeans(s, e);
    hide Meaning, BeginsSignIn, DropsToken, Denied, Held, SessionOver, FailsAs, GivesToken, ApiSays, ApiSpeaks;
    hide ForgottenOrg;
  }

  /** How an open login's availability, and whose maintenance it is, change. */
  lemma {:induction false} StepReaches(s: State, e: Event)
    requires !s.closed && (s.reach.fromSignIn ==> s.reach.availability.UnderMaintenance?)
    ensures var r := Step(s, e).reach;
            && (forall verdict :: ApiSays(s, e, verdict) ==> r == Reach(verdict, false))
            && (Held(s, e) ==>
                  r == if s.reach.availability.UnderMaintenance? then s.reach else Reach(UnderMaintenance, true))
            && (DropsToken(s, e) && !Held(s, e) ==>
                  r == if s.reach.fromSignIn then Reach(Available, false) else s.reach)
            && (GivesToken(s, e) ==>
                  r == if s.reach.availability.UnderMaintenance? then Reach(Available, false) else s.reach)
            && (!ApiSpeaks(s, e) && !DropsToken(s, e) && !GivesToken(s, e) ==> r == s.reach)
  {
    MeaningReads(s, e);
    hide Meaning, BeginsSignIn, DropsToken, Denied, Held, SessionOver, FailsAs, GivesToken, ApiSays, ApiSpeaks;
    hide ForgottenOrg;
  }

  /** Some event of the log made the login forget the stored org. */
  predicate ForgottenIn(s: State, log: seq<Event>) {
    log != [] &&
    (ForgottenOrg(Run(s, log[..|log| - 1]), log[|log| - 1]) || ForgottenIn(s, log[..|log| - 1]))
  }

  predicate StartsIn(log: seq<Event>) { log != [] && (log[|log| - 1].Starts? || StartsIn(log[..|log| - 1])) }

  lemma StepOrg(s: State, e: Event)
    ensures var t := Step(s, e);
            && t.org == (if ForgottenOrg(s, e) then OrgHint(None, false) else s.org)
            && (t.started <==> s.started || e.Starts?) && t.standalone == s.standalone
  {
    RefusalsMean(s, e);
    BeginsMeans(s, e);
    hide Meaning, ForgottenOrg;
  }

  /** The org to sign in to is the hint, or else the stored one until it is forgotten; a login starts once. */
  lemma {:induction false} OrgReads(hint: Option<int>, storedOrg: Option<int>, standalone: bool, log: seq<Event>)
    ensures var first := Fresh(hint, storedOrg, standalone);
            var s := Run(first, log);
            && s.org == (if hint.Some? then OrgHint(hint, false)
                         else if ForgottenIn(first, log) then OrgHint(None, false)
                         else OrgHint(storedOrg, storedOrg.Some?))
            && (s.started <==> StartsIn(log)) && s.standalone == standalone
  {
    if log != [] {
      var init, e := log[..|log| - 1], log[|log| - 1];
      OrgReads(hint, storedOrg, standalone, init);
      StepOrg(Run(Fresh(hint, storedOrg, standalone), init), e);
      hide Step;
    }
  }

  /** The event changes what the page is shown, or whether it has a token. */
  predicate Decides(s: State, e: Event) { BeginsSignIn(s, e) || DropsToken(s, e) || GivesToken(s, e) }

  /** What the page is shown because of the event. */
  predicate ShownFor(s: State, e: Event, state: LoginState) {
    match state
    case Idle => false
    case SigningIn => BeginsSignIn(s, e)
    case SignedIn => GivesToken(s, e)
    case AccessDenied => Denied(s, e)
    case SessionEnded => SessionOver(s, e)
    case Maintenance => Held(s, e)
    case Failed =>
      FailsAs(s, e, StorageUnavailable) || FailsAs(s, e, CallbackFailed)
      || FailsAs(s, e, ExchangeFailed) || FailsAs(s, e, InvalidTokenResponse)
  }

  /** The last event of the log that changes what is shown shows `state`; if there is none, the login is idle. */
  predicate LastShows(s: State, log: seq<Event>, state: LoginState) {
    if log == [] then state.Idle?
    else
      var before, e := Run(s, log[..|log| - 1]), log[|log| - 1];
      if Decides(before, e) then ShownFor(before, e, state) else LastShows(s, log[..|log| - 1], state)
  }

  /** After any run the page is shown what the last event that changed it says. */
  lemma {:induction false} StateReads(hint: Option<int>, storedOrg: Option<int>, standalone: bool, log: seq<Event>)
    ensures var first := Fresh(hint, storedOrg, standalone);
            LastShows(first, log, Run(first, log).state)
  {
    if log != [] {
      var first, init := Fresh(hint, storedOrg, standalone), log[..|log| - 1];
      StateReads(hint, storedOrg, standalone, init);
      StepShows(Run(first, init), log[|log| - 1]);
      hide Step, BeginsSignIn, Denied, Held, SessionOver, FailsAs, GivesToken;
    }
  }

  // ---------------------------------------------------------------- where a token comes from

  predicate ClosedIn(log: seq<Event>) { exists i :: 0 <= i < |log| && log[i].Closes? }

  /** Event `i` is the last good answer to an open login. */
  predicate LastGood(log: seq<Event>, i: nat) {
    && i < |log| && GoodAnswer(log[i]) && !ClosedIn(log[..i])
    && forall j :: i < j < |log| && GoodAnswer(log[j]) ==> ClosedIn(log[..j])
  }

  /**
   * The token and the org of the answer, which expires its lifetime in seconds after it came; a timer is set to a
   * minute before that, but not before half of the lifetime.
   */
  predicate HoldsAnswer(c: Credentials, e: Event)
    requires GoodAnswer(e)
  {
    var lifetimeMs := e.reply.lifetimeSeconds * 1000;
    && c.token == Some(e.reply.token)
    && c.session == Some(Session(e.reply.org, e.now + lifetimeMs))
    && (c.renewTimer.Some? ==>
          && e.now + lifetimeMs / 2 <= c.renewTimer.value && e.now + lifetimeMs - 60_000 <= c.renewTimer.value
          && (c.renewTimer.value == e.now + lifetimeMs / 2 || c.renewTimer.value == e.now + lifetimeMs - 60_000))
  }

  /** A step keeps what the login holds, but for the timer, or takes a good answer, or drops the token. */
  lemma StepHolds(s: State, e: Event)
    ensures var t := Step(s, e);
            && (t.closed <==> s.closed || e.Closes?)
            && (!s.closed && GoodAnswer(e) ==> HoldsAnswer(t.creds, e) && t.creds.renewTimer.Some?)
            && (s.closed || !GoodAnswer(e) ==>
                  t.creds.token.None?
                  || (t.creds.token == s.creds.token && t.creds.session == s.creds.session
                      && (t.creds.renewTimer.Some? ==> t.creds.renewTimer == s.creds.renewTimer)))
  {
  }

  lemma ClosedInNext(log: seq<Event>)
    requires log != []
    ensures ClosedIn(log) <==> ClosedIn(log[..|log| - 1]) || log[|log| - 1].Closes?
  {
    var init := log[..|log| - 1];
    assert forall i :: 0 <= i < |init| ==> init[i] == log[i];
    if ClosedIn(init) {
      var i :| 0 <= i < |init| && init[i].Closes?;
      assert log[i].Closes?;
    }
  }

  lemma LastGoodNext(log: seq<Event>, i: nat)
    requires log != [] && LastGood(log[..|log| - 1], i) && (GoodAnswer(log[|log| - 1]) ==> ClosedIn(log[..|log| - 1]))
    ensures LastGood(log, i)
  {
    hide ClosedIn, GoodAnswer;
    var init := log[..|log| - 1];
    assert forall j :: 0 <= j < |init| ==> init[j] == log[j] && init[..j] == log[..j];
  }

  /** What a login holds after any run is the last good answer's. */
  lemma {:induction false} HeldTokenReads(hint: Option<int>, storedOrg: Option<int>, standalone: bool, log: seq<Event>)
    ensures var s := Run(Fresh(hint, storedOrg, standalone), log);
            && (s.closed <==> ClosedIn(log))
            && (s.creds.token.Some? ==> exists i: nat :: LastGood(log, i) && HoldsAnswer(s.creds, log[i]))
  {
    if log != [] {
      var init, e := log[..|log| - 1], log[|log| - 1];
      HeldTokenReads(hint, storedOrg, standalone, init);
      var s := Run(Fresh(hint, storedOrg, standalone), init);
      var t := Run(Fresh(hint, storedOrg, standalone), log);
      StepHolds(s, e);
      ClosedInNext(log);
      hide Step, Run, GoodAnswer, HoldsAnswer, ClosedIn, LastGood;
      if !s.closed && GoodAnswer(e) {
        assert LastGood(log, |init|) by { NewestGood(log); }
        assert HoldsAnswer(t.creds, log[|init|]);
      } else if t.creds.token.Some? {
        var i: nat :| LastGood(init, i) && HoldsAnswer(s.creds, init[i]);
        LastGoodNext(log, i);
        assert HoldsAnswer(t.creds, log[i]) by { SameHeld(s.creds, t.creds, log[i]); }
      }
    }
  }

  lemma NewestGood(log: seq<Event>)
    requires log != [] && GoodAnswer(log[|log| - 1]) && !ClosedIn(log[..|log| - 1])
    ensures LastGood(log, |log| - 1)
  {
  }

  lemma SameHeld(c: Credentials, d: Credentials, e: Event)
    requires GoodAnswer(e) && HoldsAnswer(c, e)
    requires d.token == c.token && d.session == c.session && (d.renewTimer.Some? ==> d.renewTimer == c.renewTimer)
    ensures HoldsAnswer(d, e)
  {
  }

  /** A token for 900 seconds expires after 900_000 ms and is renewed after 840_000. */
  lemma TokenForQuarterHour()
    ensures var s := Step(Fresh(None, None, true), ExchangeAnswered(Answered("t", 1, 900), 0));
            s.creds == Credentials(Some("t"), Some(Session(1, 900_000)), Some(840_000), Some(1)) && s.state.SignedIn?
  {
  }

  // ---------------------------------------------------------------- what the page is told about the session

  /** The session is only shown while signed in, and the error only when failed. */
  predicate ShownOnlyThen(s: State) {
    (s.creds.session.Some? ==> s.state.SignedIn?) && (s.error.Some? ==> s.state.Failed?)
  }

  /**
   * An event breaks that exactly when it begins a sign-in, or leaves for the login, with a session or an error at hand.
   */
  lemma {:induction false} ShownOnlyThenKept(s: State, e: Event)
    requires Inv(s) && ShownOnlyThen(s)
    ensures ShownOnlyThen(Step(s, e)) <==> !(BeginsSignIn(s, e) && (s.creds.session.Some? || s.error.Some?))
  {
    hide Meaning, BeginsSignIn;
    BeginsMeans(s, e);
  }

  /** "Sign in again" while signed in: the page is on its way, and the session is still there. */
  lemma {:induction false} SessionWhileLeaving()
    ensures var s := Run(Fresh(None, None, true), [ExchangeAnswered(Answered("token", 1, 900), 0), LoginReady(true)]);
            s.state.SigningIn? && s.creds.session.Some?
  {
    var exchange := ExchangeAnswered(Answered("token", 1, 900), 0);
    assert [exchange, LoginReady(true)][..1] == [exchange];
    assert [exchange][..0] == [];
    assert Run(Fresh(None, None, true), [exchange]) == Step(Fresh(None, None, true), exchange);
  }

  // ---------------------------------------------------------------- whose maintenance it is

  /** What the events of a run meant, one by one. */
  function Meanings(s: State, log: seq<Event>): seq<Outcome> {
    if log == [] then []
    else Meanings(s, log[..|log| - 1]) + [Meaning(Run(s, log[..|log| - 1]), log[|log| - 1])]
  }

  predicate EndsApiMaintenance(o: Outcome) { o.Observes? || o.Obtains? }

  predicate EndsUnavailable(o: Outcome) { o.Observes? || o.Holds? }

  /** A sign-in, or the API, answered something other than a sign-in held for maintenance. */
  predicate AnswersElse(o: Outcome) { o.Observes? || o.Obtains? || o.Denies? || o.Ends? || o.Fails? }

  /** The API answered maintenance, and since then neither answered again nor was a token obtained. */
  ghost predicate ApiMaintenance(ms: seq<Outcome>) {
    exists i :: 0 <= i < |ms| && ms[i] == Observes(UnderMaintenance)
                && forall j :: i < j < |ms| ==> !EndsApiMaintenance(ms[j])
  }

  /** The API answered that it is unavailable, and since then neither answered again nor was a sign-in held. */
  ghost predicate ApiUnavailable(ms: seq<Outcome>) {
    exists i :: 0 <= i < |ms| && ms[i] == Observes(Unavailable) && forall j :: i < j < |ms| ==> !EndsUnavailable(ms[j])
  }

  /** The last answer of a sign-in or the API held a sign-in for maintenance. */
  ghost predicate LastHeld(ms: seq<Outcome>) {
    exists i :: 0 <= i < |ms| && ms[i].Holds? && forall j :: i < j < |ms| ==> !AnswersElse(ms[j])
  }

  lemma Append(ms: seq<Outcome>, o: Outcome)
    ensures forall j :: 0 <= j < |ms| ==> (ms + [o])[j] == ms[j]
    ensures (ms + [o])[|ms|] == o
  {
  }

  lemma ApiMaintenanceNext(ms: seq<Outcome>, o: Outcome)
    ensures ApiMaintenance(ms + [o]) <==>
            o == Observes(UnderMaintenance) || (ApiMaintenance(ms) && !EndsApiMaintenance(o))
  {
    Append(ms, o);
    var next := ms + [o];
    if ApiMaintenance(ms) && !EndsApiMaintenance(o) {
      var i :| 0 <= i < |ms| && ms[i] == Observes(UnderMaintenance)
               && forall j :: i < j < |ms| ==> !EndsApiMaintenance(ms[j]);
      assert next[i] == Observes(UnderMaintenance);
    }
    if o == Observes(UnderMaintenance) {
      assert next[|ms|] == o;
    }
    if ApiMaintenance(next) && o != Observes(UnderMaintenance) {
      var i :| 0 <= i < |next| && next[i] == Observes(UnderMaintenance)
               && forall j :: i < j < |next| ==> !EndsApiMaintenance(next[j]);
      assert !EndsApiMaintenance(next[|ms|]);
      assert forall j :: i < j < |ms| ==> ms[j] == next[j];
      assert ms[i] == Observes(UnderMaintenance);
    }
  }

  lemma ApiUnavailableNext(ms: seq<Outcome>, o: Outcome)
    ensures ApiUnavailable(ms + [o]) <==> o == Observes(Unavailable) || (ApiUnavailable(ms) && !EndsUnavailable(o))
  {
    Append(ms, o);
    var next := ms + [o];
    if ApiUnavailable(ms) && !EndsUnavailable(o) {
      var i :| 0 <= i < |ms| && ms[i] == Observes(Unavailable) && forall j :: i < j < |ms| ==> !EndsUnavailable(ms[j]);
      assert next[i] == Observes(Unavailable);
    }
    if o == Observes(Unavailable) {
      assert next[|ms|] == o;
    }
    if ApiUnavailable(next) && o != Observes(Unavailable) {
      var i :| 0 <= i < |next| && next[i] == Observes(Unavailable)
               && forall j :: i < j < |next| ==> !EndsUnavailable(next[j]);
      assert !EndsUnavailable(next[|ms|]);
      assert forall j :: i < j < |ms| ==> ms[j] == next[j];
      assert ms[i] == Observes(Unavailable);
    }
  }

  lemma LastHeldNext(ms: seq<Outcome>, o: Outcome)
    ensures LastHeld(ms + [o]) <==> o.Holds? || (LastHeld(ms) && !AnswersElse(o))
  {
    Append(ms, o);
    var next := ms + [o];
    if LastHeld(ms) && !AnswersElse(o) {
      var i :| 0 <= i < |ms| && ms[i].Holds? && forall j :: i < j < |ms| ==> !AnswersElse(ms[j]);
      assert next[i].Holds?;
    }
    if o.Holds? {
      assert next[|ms|] == o;
    }
    if LastHeld(next) && !o.Holds? {
      var i :| 0 <= i < |next| && next[i].Holds? && forall j :: i < j < |next| ==> !AnswersElse(next[j]);
      assert !AnswersElse(next[|ms|]);
      assert forall j :: i < j < |ms| ==> ms[j] == next[j];
      assert ms[i].Holds?;
    }
  }

  /** What the answers so far say about the availability, for a login that is open. */
  ghost predicate ReachReads(ms: seq<Outcome>, r: Reach) {
    && (r.availability.UnderMaintenance? && !r.fromSignIn <==> ApiMaintenance(ms))
    && (r.fromSignIn <==> LastHeld(ms) && !ApiMaintenance(ms))
    && (r.availability.Unavailable? <==> ApiUnavailable(ms))
    && (r.fromSignIn ==> r.availability.UnderMaintenance?)
  }

  lemma ReachNext(ms: seq<Outcome>, s: State, o: Outcome)
    requires ReachReads(ms, s.reach) && !s.closed
    ensures ReachReads(ms + [o], Apply(s, o).reach)
  {
    ApiMaintenanceNext(ms, o);
    ApiUnavailableNext(ms, o);
    LastHeldNext(ms, o);
    hide ApiMaintenance, ApiUnavailable, LastHeld;
  }

  predicate StaysOpen(log: seq<Event>) { forall i :: 0 <= i < |log| ==> !log[i].Closes? }

  /**
   * While the login is open, its availability is: maintenance by the API, if the API answered so and neither answered
   * again nor a token was obtained; maintenance by a sign-in, if the last answer of all held one; unavailable, if the
   * API answered so and neither answered again nor a sign-in was held; else available.
   */
  lemma {:induction false} AvailabilityReads(hint: Option<int>, storedOrg: Option<int>, standalone: bool,
      log: seq<Event>)
    requires StaysOpen(log)
    ensures var s := Fresh(hint, storedOrg, standalone);
            ReachReads(Meanings(s, log), Run(s, log).reach) && !Run(s, log).closed
  {
    var s := Fresh(hint, storedOrg, standalone);
    if log != [] {
      var init, e := log[..|log| - 1], log[|log| - 1];
      assert StaysOpen(init);
      AvailabilityReads(hint, storedOrg, standalone, init);
      ReachNext(Meanings(s, init), Run(s, init), Meaning(Run(s, init), e));
      hide ReachReads, Meaning;
      assert !Meaning(Run(s, init), e).Shuts? by { OnlyCloseShuts(Run(s, init), e); }
    }
  }

  lemma OnlyCloseShuts(s: State, e: Event)
    ensures Meaning(s, e).Shuts? <==> e.Closes?
  {
  }

  /** A maintenance the API answered outlasts every run of sign-ins without a token and without an API answer. */
  lemma {:induction false} ApiMaintenanceStays(s: State, log: seq<Event>)
    requires s.reach == Reach(UnderMaintenance, false)
    requires forall i :: 0 <= i < |log| ==>
             !log[i].ApiAnswered? && !(log[i].ExchangeAnswered? && GoodToken(log[i].reply))
    ensures Run(s, log).reach == Reach(UnderMaintenance, false)
  {
    if log != [] {
      var init, e := log[..|log| - 1], log[|log| - 1];
      assert forall i :: 0 <= i < |init| ==> init[i] == log[i];
      ApiMaintenanceStays(s, init);
      ObtainsGood(Run(s, init), e);
      assert !Meaning(Run(s, init), e).Observes?;
      hide Meaning;
    }
  }

  /** An unavailability the API answered outlasts an event that is not an API answer exactly if it holds no sign-in. */
  lemma {:induction false} UnavailableStays(s: State, e: Event)
    requires Inv(s) && !s.closed && s.reach.availability.Unavailable? && !e.ApiAnswered?
    ensures Step(s, e).reach.availability.Unavailable? <==> !Held(s, e)
  {
    hide Held;
    assert !Meaning(s, e).Observes?;
    RefusalsMean(s, e);
    hide Meaning;
  }

  /** The API is unavailable, a sign-in is held, and the next one is denied: now the API counts as available. */
  lemma UnavailableForgotten()
    ensures var s := Run(Fresh(None, None, true),
                         [ApiAnswered(ApiAnswer(503, Some("unavailable"))),
                          SilentAnswered(None, false, Refusal(TemporarilyUnavailable)),
                          SilentAnswered(None, false, Refusal(AccessRefused))]);
            s.reach.availability.Available?
  {
    var a := ApiAnswered(ApiAnswer(503, Some("unavailable")));
    var b := SilentAnswered(None, false, Refusal(TemporarilyUnavailable));
    var c := SilentAnswered(None, false, Refusal(AccessRefused));
    assert [a, b, c][..2] == [a, b];
    assert [a, b][..1] == [a];
    assert [a][..0] == [];
    var s := Fresh(None, None, true);
    assert Run(s, [a]) == Step(s, a);
    assert Run(s, [a, b]) == Step(Step(s, a), b);
  }

  /** Until the API answers, a page that shows "being updated" has availability `maintenance`. */
  lemma {:induction false} MaintenanceShown(hint: Option<int>, storedOrg: Option<int>, standalone: bool,
      log: seq<Event>)
    requires forall i :: 0 <= i < |log| ==> !log[i].ApiAnswered? && !log[i].Closes?
    ensures var s := Run(Fresh(hint, storedOrg, standalone), log);
            !s.closed && Inv(s) && (s.state.Maintenance? ==> s.reach.availability.UnderMaintenance?)
  {
    if log != [] {
      var init, e := log[..|log| - 1], log[|log| - 1];
      assert forall i :: 0 <= i < |init| ==> init[i] == log[i];
      MaintenanceShown(hint, storedOrg, standalone, init);
      var s := Run(Fresh(hint, storedOrg, standalone), init);
      StepKeeps(s, e);
      assert !Meaning(s, e).Observes? && !Meaning(s, e).Shuts?;
      hide Meaning, CredsOk, ShownOk;
    }
  }

  // ---------------------------------------------------------------- a stored org is given up once

  /** Once a stored org was given up, no later refusal counts as one of a stored org. */
  lemma {:induction false} StaleOrgOnce(s: State, log: seq<Event>, org: Option<int>)
    requires !s.org.stored
    ensures !IsStaleOrg(Run(s, log), org) && !Run(s, log).org.stored
    ensures ForgetsOrg !in Meanings(s, log)
  {
    if log != [] {
      var init := log[..|log| - 1];
      StaleOrgOnce(s, init, org);
      StaleOnlyWhenStored(Run(s, init), log[|log| - 1]);
      hide Meaning;
    }
  }

  lemma StaleOnlyWhenStored(s: State, e: Event)
    ensures Meaning(s, e).ForgetsOrg? ==> s.org.stored && s.standalone && !Step(s, e).org.stored
  {
  }

  /** Nothing brings a token to a closed login, or a timer. */
  lemma {:induction false} ClosedGetsNoToken(s: State, log: seq<Event>)
    requires Inv(s) && s.closed
    ensures var t := Run(s, log);
            && t.closed && t.creds.renewTimer.None? && t.reach.availability == s.reach.availability
            && (t.creds.token == s.creds.token || t.creds.token.None?)
  {
    if log != [] {
      var init, e := log[..|log| - 1], log[|log| - 1];
      ClosedGetsNoToken(s, init);
      RunKeeps(s, init);
      StepKeeps(Run(s, init), e);
      ObtainsGood(Run(s, init), e);
      hide Meaning, CredsOk, ShownOk;
    }
  }

  // ---------------------------------------------------------------- the login as an object

  class Login {
    const standalone: bool
    var orgHint: Option<int>
    var orgHintIsStored: bool
    var currentState: LoginState
    var currentSession: Option<Session>
    var currentError: Option<ErrorCode>
    var currentAvailability: Availability
    var maintenanceFromSignIn: bool
    var token: Option<string>
    var lastOrgId: Option<int>
    var started: bool
    var renewTimer: Option<int>
    var closed: bool

    ghost function View(): State
      reads this
    {
      State(currentState, currentError, Credentials(token, currentSession, renewTimer, lastOrgId),
            Reach(currentAvailability, maintenanceFromSignIn), OrgHint(orgHint, orgHintIsStored),
            started, closed, standalone)
    }

    constructor (hint: Option<int>, storedOrg: Option<int>, standalone: bool)
      ensures View() == Fresh(hint, storedOrg, standalone)
    {
      var stored := if hint.None? then storedOrg else None;
      this.standalone := standalone;
      orgHint := if hint.Some? then hint else stored;
      orgHintIsStored := stored.Some?;
      currentState, currentSession, currentError := Idle, None, None;
      currentAvailability, maintenanceFromSignIn := Available, false;
      token, lastOrgId, renewTimer := None, None, None;
      started, closed := false, false;
    }

    method ChangeAvailability(next: Availability)
      modifies this`currentAvailability
      ensures currentAvailability == SetAvailability(old(View()), next)
    {
      if next == currentAvailability || closed {
        return;
      }
      currentAvailability := next;
    }

    method DropToken()
      modifies this`token, this`currentSession, this`renewTimer
      ensures View() == old(View()).(creds := Drop(old(View()).creds))
    {
      token, currentSession, renewTimer := None, None, None;
    }

    method EndMaintenanceOfSignIn()
      modifies this`currentAvailability, this`maintenanceFromSignIn
      ensures View() == old(View()).(reach := EndSignInMaintenance(old(View())))
    {
      if !maintenanceFromSignIn {
        return;
      }
      maintenanceFromSignIn := false;
      if currentAvailability.UnderMaintenance? {
        ChangeAvailability(Available);
      }
    }

    /** `deny`, `endSession` and `fail`. */
    method LoseToken(state: LoginState, error: Option<ErrorCode>)
      modifies this
      ensures View() == Lose(old(View()), state, error)
    {
      DropToken();
      currentError := error;
      EndMaintenanceOfSignIn();
      currentState := state;
    }

    method Hold()
      modifies this
      ensures View() == HoldForMaintenance(old(View()))
    {
      DropToken();
      currentError := None;
      if !currentAvailability.UnderMaintenance? {
        maintenanceFromSignIn := true;
        ChangeAvailability(UnderMaintenance);
      }
      currentState := Maintenance;
    }

    method ForgetStoredOrg()
      modifies this`orgHint, this`orgHintIsStored
      ensures View() == Apply(old(View()), ForgetsOrg)
    {
      orgHint, orgHintIsStored := None, false;
    }

    method OnRefusal(org: Option<int>, retryStaleOrg: bool, error: CallbackError) returns (handled: bool)
      modifies this
      ensures var o := RefusalMeans(old(View()), org, retryStaleOrg, error, Nothing);
              View() == Apply(old(View()), o) && (handled <==> error.AccessRefused? || error.TemporarilyUnavailable?)
    {
      handled := true;
      if error.AccessRefused? {
        if retryStaleOrg && org.Some? && orgHintIsStored && org == orgHint && standalone {
          ForgetStoredOrg();
        } else {
          LoseToken(AccessDenied, None);
        }
      } else if error.TemporarilyUnavailable? {
        Hold();
      } else {
        handled := false;
      }
    }

    method Begin()
      modifies this
      ensures View() == Step(old(View()), Starts)
    {
      if !started {
        started := true;
        currentState := SigningIn;
      }
    }

    method PopupReturned()
      modifies this
      ensures View() == Step(old(View()), PopupReturns)
    {
      currentState := SigningIn;
    }

    method FinishReturnedLogin(org: Option<int>, returned: Option<Answer>, retryStaleOrg: bool)
      modifies this
      ensures View() == Step(old(View()), ReturnAnswered(org, returned, retryStaleOrg))
    {
      if returned.Some? && returned.value.Code? {
        return;
      }
      if returned.Some? {
        var handled := OnRefusal(org, retryStaleOrg, returned.value.error);
        if handled {
          return;
        }
      }
      LoseToken(Failed, Some(CallbackFailed));
    }

    method FinishSilentLogin(org: Option<int>, atStart: bool, answer: Answer)
      modifies this
      ensures View() == Step(old(View()), SilentAnswered(org, atStart, answer))
    {
      if closed || answer.Code? {
        return;
      }
      var handled := OnRefusal(org, atStart, answer.error);
      if !handled && !atStart {
        LoseToken(SessionEnded, None);
      }
    }

    method ScheduleRenewal(lifetimeMs: int, now: int)
      modifies this`renewTimer
      ensures renewTimer == if closed then None else Some(now + RenewalDelay(lifetimeMs))
    {
      renewTimer := None;
      if closed {
        return;
      }
      var delay := lifetimeMs / 2;
      if delay < lifetimeMs - RENEW_BEFORE_MS {
        delay := lifetimeMs - RENEW_BEFORE_MS;
      }
      renewTimer := Some(now + delay);
    }

    method TakeToken(newToken: string, org: int, lifetimeSeconds: int, now: int)
      modifies this
      ensures View() == Obtain(old(View()), newToken, org, lifetimeSeconds, now)
    {
      token := Some(newToken);
      currentSession := Some(Session(org, now + lifetimeSeconds * 1000));
      currentError := None;
      lastOrgId := Some(org);
      ScheduleRenewal(lifetimeSeconds * 1000, now);
      maintenanceFromSignIn := false;
      if currentAvailability.UnderMaintenance? {
        ChangeAvailability(Available);
      }
      currentState := SignedIn;
    }

    method FinishExchange(reply: ExchangeAnswer, now: int)
      modifies this
      ensures View() == Step(old(View()), ExchangeAnswered(reply, now))
    {
      if reply.Unreachable? {
        LoseToken(Failed, Some(ExchangeFailed));
      } else if closed {
        return;
      } else if reply.Refused? {
        if reply.accessDenied {
          LoseToken(AccessDenied, None);
        } else {
          LoseToken(Failed, Some(ExchangeFailed));
        }
      } else if !GoodToken(reply) {
        LoseToken(Failed, Some(InvalidTokenResponse));
      } else {
        TakeToken(reply.token, reply.org, reply.lifetimeSeconds, now);
      }
    }

    method LeaveForLogin(kept: bool)
      modifies this
      ensures View() == Step(old(View()), LoginReady(kept))
    {
      if !kept {
        LoseToken(Failed, Some(StorageUnavailable));
        return;
      }
      renewTimer := None;
      currentState := SigningIn;
    }

    method OnTimer(now: int)
      modifies this`renewTimer
      ensures View() == Step(old(View()), TimerDue(now))
    {
      if renewTimer.Some? && renewTimer.value <= now {
        renewTimer := None;
      }
    }

    method ObserveAvailability(api: ApiAnswer)
      modifies this
      ensures View() == Step(old(View()), ApiAnswered(api))
    {
      if closed {
        return;
      }
      if api.refusal.None? {
        maintenanceFromSignIn := false;
        ChangeAvailability(Available);
      } else if api.status == 503 && (api.refusal == Some("maintenance") || api.refusal == Some("unavailable")) {
        maintenanceFromSignIn := false;
        ChangeAvailability(if api.refusal == Some("maintenance") then UnderMaintenance else Unavailable);
      }
    }

    method ContinueFetch(api: ApiAnswer, tokenSent: bool)
      modifies this
      ensures View() == Step(old(View()), FetchContinues(api, tokenSent))
    {
      if tokenSent && api.status == 403 && api.refusal == Some("forbidden") {
        LoseToken(AccessDenied, None);
      }
    }

    method Close()
      modifies this`closed, this`renewTimer
      ensures View() == Step(old(View()), Closes)
    {
      closed := true;
      renewTimer := None;
    }
  }
}
