/**
 * The session and wizard state of one app instance: who is using it, which screen it shows,
 * whether the results have been revealed, whether this team has submitted, and the admin
 * login form. Every handler is a function from the old state to the new one; a handler that
 * publishes on the session channel also returns the post.
 */
module Flow {
  import opened Channels

  /** `UserRole`: `null`, `'USER'` or `'ADMIN'`. */
  datatype Role = NoRole | User | Admin

  /** `AppStep`, the screens of the wizard. */
  datatype Step =
    | SelectRole
    | AdminLogin
    | TeamSelection
    | Intro
    | Learning
    | Analysis
    | Records
    | Simulation
    | Result

  /**
   * The flags the flow handlers read and write, and the number of redirect timers that have
   * been scheduled and have not fired yet.
   */
  datatype Session = Session(
    role: Role,
    step: Step,
    revealed: bool,
    hasSubmitted: bool,
    loginError: bool,
    password: string,
    redirects: nat)

  /** The state a fresh app starts in. */
  const Initial: Session := Session(NoRole, SelectRole, false, false, false, "", 0)

  /** The admin key `handleAdminLogin` compares the typed password with. */
  const AdminSecret: string := "6749467"

  /**
   * The session listener: `REVEAL_RESULTS` sets the revealed flag, `RESET_RESULTS` clears both
   * the revealed and the submitted flag, and any other message changes nothing.
   */
  function OnSessionMessage(s: Session, m: Message): (r: Session)
    ensures r.role == s.role && r.step == s.step
    ensures r.loginError == s.loginError && r.password == s.password
    ensures m.RevealResults? ==> r.revealed && r.hasSubmitted == s.hasSubmitted
    ensures m.ResetResults? ==> !r.revealed && !r.hasSubmitted
    ensures !m.RevealResults? && !m.ResetResults? ==> r == s
  {
    match m
    case RevealResults => s.(revealed := true)
    case ResetResults => s.(revealed := false, hasSubmitted := false)
    case _ => s
  }

  /** `triggerReveal`: publish `REVEAL_RESULTS` on the session channel and set the local flag. */
  function TriggerReveal(s: Session): (r: (Session, Post))
    ensures r.1 == Post(SessionChannel, RevealResults)
    ensures r.0 == s.(revealed := true)
  {
    (s.(revealed := true), Post(SessionChannel, RevealResults))
  }

  /**
   * `triggerReset`: publish `RESET_RESULTS` on the session channel and clear the local
   * revealed flag only; the local submitted flag is left as it was.
   */
  function TriggerReset(s: Session): (r: (Session, Post))
    ensures r.1 == Post(SessionChannel, ResetResults)
    ensures r.0 == s.(revealed := false)
  {
    (s.(revealed := false), Post(SessionChannel, ResetResults))
  }

  /** `handleFinalSubmit`'s flag update: the team has submitted. */
  function FinalSubmit(s: Session): (r: Session)
    ensures r.hasSubmitted
    ensures r == s.(hasSubmitted := true)
  {
    s.(hasSubmitted := true)
  }

  /** The screen after `step` in `handleNext`, for the three screens that simply advance. */
  function NextStep(step: Step): Step
  {
    match step
    case Intro => Analysis
    case Analysis => Records
    case Records => Simulation
    case _ => step
  }

  /**
   * `handleNext`: INTRO, ANALYSIS and RECORDS advance one screen, SIMULATION submits and stays,
   * every other screen is left as it is.
   */
  function HandleNext(s: Session): (r: Session)
    ensures s.step in {Intro, Analysis, Records} ==> r == s.(step := NextStep(s.step)) && r.step != s.step
    ensures s.step == Simulation ==> r == FinalSubmit(s)
    ensures s.step !in {Intro, Analysis, Records, Simulation} ==> r == s
  {
    match s.step
    case Intro => s.(step := Analysis)
    case Analysis => s.(step := Records)
    case Records => s.(step := Simulation)
    case Simulation => FinalSubmit(s)
    case _ => s
  }

  /**
   * `handleBack`: each wizard screen goes back one screen, TEAM_SELECTION returns to role
   * selection and clears the role, and SELECT_ROLE, ADMIN_LOGIN and LEARNING stay.
   */
  function HandleBack(s: Session): (r: Session)
    ensures s.step == TeamSelection ==> r == s.(role := NoRole, step := SelectRole)
    ensures s.step == Intro ==> r == s.(step := TeamSelection)
    ensures s.step in {Analysis, Records, Simulation} ==>
              r == s.(step := r.step) && r.step != s.step && NextStep(r.step) == s.step
    ensures s.step == Result ==> r == s.(step := Simulation)
    ensures s.step in {SelectRole, AdminLogin, Learning} ==> r == s
  {
    match s.step
    case Intro => s.(step := TeamSelection)
    case TeamSelection => s.(role := NoRole, step := SelectRole)
    case Analysis => s.(step := Intro)
    case Records => s.(step := Analysis)
    case Simulation => s.(step := Records)
    case Result => s.(step := Simulation)
    case _ => s
  }

  /** The role-selection and header buttons: enter as a learner. */
  function ChooseUser(s: Session): (r: Session)
    ensures r.role == User && r.step == TeamSelection
    ensures r == s.(role := User, step := TeamSelection)
  {
    s.(role := User, step := TeamSelection)
  }

  /** The role-selection and header buttons: go to the admin login. */
  function ChooseAdmin(s: Session): (r: Session)
    ensures r.role == Admin && r.step == AdminLogin
    ensures r == s.(role := Admin, step := AdminLogin)
  {
    s.(role := Admin, step := AdminLogin)
  }

  /**
   * The team-selection screen's start button: it is enabled only once a team and a name are
   * chosen (`ready`), and then opens the intro.
   */
  function StartMission(s: Session, ready: bool): (r: Session)
    ensures ready ==> r.step == Intro && r == s.(step := Intro)
    ensures !ready ==> r == s
  {
    if ready then s.(step := Intro) else s
  }

  /** The logout, home and "back to start" buttons. */
  function ToStart(s: Session): (r: Session)
    ensures r.role == NoRole && r.step == SelectRole
    ensures r == s.(role := NoRole, step := SelectRole)
  {
    s.(role := NoRole, step := SelectRole)
  }

  /** Typing in the admin password field. */
  function TypePassword(s: Session, typed: string): (r: Session)
    ensures r.password == typed && r == s.(password := r.password)
  {
    s.(password := typed)
  }

  /**
   * `handleAdminLogin`: the typed password is cleared either way; the admin secret opens the
   * admin view (role ADMIN on the RESULT step) and clears the error flag, anything else sets
   * the error flag and changes nothing more.
   */
  function Login(s: Session): (r: Session)
    ensures r.password == "" && r.revealed == s.revealed && r.hasSubmitted == s.hasSubmitted
    ensures r.loginError <==> s.password != AdminSecret
    ensures s.password == AdminSecret ==> r.role == Admin && r.step == Result
    ensures s.password != AdminSecret ==> r.role == s.role && r.step == s.step
  {
    if s.password == AdminSecret then
      s.(role := Admin, step := Result, loginError := false, password := "")
    else
      s.(loginError := true, password := "")
  }

  /** What the simulation screen shows. */
  datatype SimulationScreen = WaitingForReveal | RedirectToResult | BidForm

  /**
   * `renderSimulation`: waiting after submitting until the results are revealed, a redirect
   * to the result screen once both hold, and the bid form before submitting.
   */
  function SimulationView(s: Session): (r: SimulationScreen)
    ensures r == WaitingForReveal <==> s.hasSubmitted && !s.revealed
    ensures r == RedirectToResult <==> s.hasSubmitted && s.revealed
    ensures r == BidForm <==> !s.hasSubmitted
  {
    if s.hasSubmitted && !s.revealed then WaitingForReveal
    else if s.hasSubmitted && s.revealed then RedirectToResult
    else BidForm
  }

  /** The redirect's timer fires: show the result screen. */
  function Redirect(s: Session): (r: Session)
    ensures r.step == Result && r == s.(step := Result)
  {
    s.(step := Result)
  }

  /** The result screen's retry button: back to the bid form with both flags cleared. */
  function Retry(s: Session): (r: Session)
    ensures r.step == Simulation && !r.hasSubmitted && !r.revealed
    ensures SimulationView(r) == BidForm
    ensures r == s.(hasSubmitted := false, revealed := false, step := Simulation)
  {
    s.(hasSubmitted := false, revealed := false, step := Simulation)
  }

  /** A session message applied twice acts as once. */
  lemma SessionMessageIdempotent(s: Session, m: Message)
    ensures OnSessionMessage(OnSessionMessage(s, m), m) == OnSessionMessage(s, m)
  {
  }

  /**
   * The admin's local update after a reveal is what every listener does on receipt; after a
   * reset it is so exactly when the admin's own instance had not submitted. The admin's own
   * session listener is a separate channel object, so it receives the post as well and then
   * catches up.
   */
  lemma TriggerMatchesListeners(s: Session)
    ensures TriggerReveal(s).0 == OnSessionMessage(s, TriggerReveal(s).1.message)
    ensures TriggerReset(s).0 == OnSessionMessage(s, TriggerReset(s).1.message) <==> !s.hasSubmitted
    ensures OnSessionMessage(TriggerReset(s).0, TriggerReset(s).1.message) == OnSessionMessage(s, ResetResults)
  {
  }

  /** `handleBack` undoes `handleNext` on INTRO, ANALYSIS and RECORDS. */
  lemma BackUndoesNext(s: Session)
    requires s.step in {Intro, Analysis, Records}
    ensures HandleBack(HandleNext(s)) == s
  {
  }

  /** `handleNext` undoes `handleBack` on ANALYSIS, RECORDS and SIMULATION. */
  lemma NextUndoesBack(s: Session)
    requires s.step in {Analysis, Records, Simulation}
    ensures HandleNext(HandleBack(s)) == s
  {
  }

  /**
   * Submitting from the form waits for the reveal; a reveal then turns the wait into the
   * redirect; a reset returns to the form.
   */
  lemma SubmitWaitRevealReset(s: Session)
    requires s.step == Simulation && !s.revealed
    ensures SimulationView(HandleNext(s)) == WaitingForReveal
    ensures SimulationView(OnSessionMessage(HandleNext(s), RevealResults)) == RedirectToResult
    ensures SimulationView(OnSessionMessage(HandleNext(s), ResetResults)) == BidForm
  {
  }

  /**
   * A reveal that arrives before this team submits is kept, so the later submission skips
   * the waiting screen and goes straight to the redirect.
   */
  lemma EarlyRevealSkipsWaiting(s: Session)
    requires s.step == Simulation && !s.hasSubmitted
    ensures SimulationView(HandleNext(OnSessionMessage(s, RevealResults))) == RedirectToResult
  {
  }

  /** Everything that can happen to one app instance. */
  datatype Event =
    | ChooseUserEvent
    | ChooseAdminEvent
    | TypePasswordEvent(typed: string)
    | LoginEvent
    | NextEvent
    | BackEvent
    | StartMissionEvent(ready: bool)
    | ToStartEvent
    | Received(message: Message)
    | RevealClicked
    | ResetClicked
    | Rendered
    | RedirectFired
    | RetryClicked

  /** The learner's screen is the simulation step showing the redirect. */
  predicate RedirectShowing(s: Session)
  {
    s.role == User && s.step == Simulation && SimulationView(s) == RedirectToResult
  }

  /**
   * The screen `App` renders is the admin view: every step but role selection and the admin
   * login is drawn by `renderAdmin` unless the role is USER.
   */
  predicate AdminView(s: Session)
  {
    s.step != SelectRole && s.step != AdminLogin && s.role != User
  }

  /**
   * One event, as the code is written. The start button is only on the team-selection screen
   * and the retry button only on the result screen; elsewhere those events change nothing.
   * Each render of the redirect view schedules one more redirect timer, and a timer that fires
   * sets the RESULT step whatever the app shows by then.
   */
  function Apply(s: Session, e: Event): Session
  {
    match e
    case ChooseUserEvent => ChooseUser(s)
    case ChooseAdminEvent => ChooseAdmin(s)
    case TypePasswordEvent(typed) => TypePassword(s, typed)
    case LoginEvent => Login(s)
    case NextEvent => HandleNext(s)
    case BackEvent => HandleBack(s)
    case StartMissionEvent(ready) => if s.step == TeamSelection then StartMission(s, ready) else s
    case ToStartEvent => ToStart(s)
    case Received(m) => OnSessionMessage(s, m)
    case RevealClicked => TriggerReveal(s).0
    case ResetClicked => TriggerReset(s).0
    case Rendered => if RedirectShowing(s) then s.(redirects := s.redirects + 1) else s
    case RedirectFired => if s.redirects > 0 then Redirect(s).(redirects := s.redirects - 1) else s
    case RetryClicked => if s.step == Result then Retry(s) else s
  }

  /**
   * Only a render of the redirect view schedules a redirect timer, and a pending timer that
   * fires sets the RESULT step unconditionally; no other event touches the timers.
   */
  lemma RedirectTimers(s: Session, e: Event)
    ensures e.Rendered? ==> Apply(s, e).redirects == if RedirectShowing(s) then s.redirects + 1 else s.redirects
    ensures e.RedirectFired? && s.redirects > 0 ==> Apply(s, e) == s.(step := Result, redirects := s.redirects - 1)
    ensures e.RedirectFired? && s.redirects == 0 ==> Apply(s, e) == s
    ensures !e.Rendered? && !e.RedirectFired? ==> Apply(s, e).redirects == s.redirects
  {
  }

  /** Only the role buttons, the login, and back from team selection change the role. */
  lemma OnlyRoleButtonsChangeRole(s: Session, e: Event)
    requires Apply(s, e).role != s.role
    ensures e.ChooseUserEvent? || e.ChooseAdminEvent? || e.LoginEvent? || e.ToStartEvent? || e.BackEvent?
    ensures e.BackEvent? ==> s.step == TeamSelection && Apply(s, e).role == NoRole
    ensures e.LoginEvent? ==> s.password == AdminSecret && Apply(s, e).role == Admin
  {
  }

  /** A run of events from `s`, as the code is written. */
  function Run(s: Session, es: seq<Event>): Session
    decreases |es|
  {
    if es == [] then s else Run(Apply(s, es[0]), es[1..])
  }

  /**
   * As written: a learner whose results were just revealed presses the header's admin button,
   * or its home button, before the redirect timer fires. The timer still sets the RESULT step,
   * and with a role other than USER that step is drawn by the admin view: no password was typed.
   */
  lemma RedirectRaceOpensAdminView()
    ensures var s := Initial.(role := User, step := Simulation, hasSubmitted := true, revealed := true);
            var viaAdmin := Run(s, [Rendered, ChooseAdminEvent, RedirectFired]);
            var viaHome := Run(s, [Rendered, ToStartEvent, RedirectFired]);
            && !AdminView(s)
            && AdminView(viaAdmin) && viaAdmin.role == Admin && viaAdmin.step == Result
            && AdminView(viaHome) && viaHome.role == NoRole && viaHome.step == Result
  {
    var s := Initial.(role := User, step := Simulation, hasSubmitted := true, revealed := true);
    assert [Rendered, ChooseAdminEvent, RedirectFired][1..][1..] == [RedirectFired];
    assert [Rendered, ToStartEvent, RedirectFired][1..][1..] == [RedirectFired];
  }

  /**
   * Corrected: pending redirect timers are cancelled as soon as the redirect view is no longer
   * on screen, as the cleanup of an effect keyed on that view would do.
   */
  function ApplyCancellingRedirect(s: Session, e: Event): Session
  {
    var next := Apply(s, e);
    if RedirectShowing(next) then next else next.(redirects := 0)
  }

  /**
   * The corrected transition differs from the code only in the pending timers, and leaves
   * none pending unless the redirect view is on screen.
   */
  lemma CancellingOnlyClearsTimers(s: Session, e: Event)
    ensures ApplyCancellingRedirect(s, e).(redirects := 0) == Apply(s, e).(redirects := 0)
    ensures ApplyCancellingRedirect(s, e).redirects > 0 ==> RedirectShowing(ApplyCancellingRedirect(s, e))
    ensures RedirectShowing(Apply(s, e)) ==> ApplyCancellingRedirect(s, e) == Apply(s, e)
  {
  }

  /** A run of events from `s`, with redirect timers cancelled when their view goes. */
  function RunCancellingRedirect(s: Session, es: seq<Event>): Session
    decreases |es|
  {
    if es == [] then s else RunCancellingRedirect(ApplyCancellingRedirect(s, es[0]), es[1..])
  }

  /**
   * The start screen and "no role" go together: every screen past role selection is shown
   * with a role, and the start screen always has the role cleared. A redirect timer is only
   * pending while its view is on screen.
   */
  predicate RoleMatchesScreen(s: Session)
  {
    && (s.role == NoRole <==> s.step == SelectRole)
    && (s.redirects > 0 ==> RedirectShowing(s))
  }

  /** With the redirect cancelled, each event keeps the role and the screen in step. */
  lemma ApplyKeepsRoleMatch(s: Session, e: Event)
    requires RoleMatchesScreen(s)
    ensures RoleMatchesScreen(ApplyCancellingRedirect(s, e))
  {
  }

  /**
   * With the redirect cancelled, the admin view opens only through the login with the admin
   * key: no other event turns a learner's or the start screen into the admin view.
   */
  lemma AdminViewNeedsPassword(s: Session, e: Event)
    requires RoleMatchesScreen(s)
    requires !AdminView(s) && AdminView(ApplyCancellingRedirect(s, e))
    ensures e == LoginEvent && s.password == AdminSecret
  {
  }

  /** From the start, every run of events keeps the role and the screen in step. */
  lemma {:induction false} RunKeepsRoleMatch(s: Session, es: seq<Event>)
    requires RoleMatchesScreen(s)
    ensures RoleMatchesScreen(RunCancellingRedirect(s, es))
    decreases |es|
  {
    if es != [] {
      ApplyKeepsRoleMatch(s, es[0]);
      RunKeepsRoleMatch(ApplyCancellingRedirect(s, es[0]), es[1..]);
    }
  }

  /** A learner enters, starts the mission, walks the wizard, submits and waits. */
  lemma LearnerRoundScenario()
    ensures var s := Run(Initial, [ChooseUserEvent, StartMissionEvent(true), NextEvent, NextEvent, NextEvent, NextEvent]);
            s.step == Simulation && s.role == User && SimulationView(s) == WaitingForReveal
  {
    var es := [ChooseUserEvent, StartMissionEvent(true), NextEvent, NextEvent, NextEvent, NextEvent];
    assert es[1..][1..][1..][1..][1..][1..] == [];
  }

  /** A waiting learner's reveal is rendered as the redirect, whose timer opens the result. */
  lemma RevealScenario()
    ensures var s := Initial.(role := User, step := Simulation, hasSubmitted := true);
            var done := RunCancellingRedirect(s, [Received(RevealResults), Rendered, RedirectFired]);
            done.step == Result && done.role == User && done.hasSubmitted && done.revealed && done.redirects == 0
  {
    assert [Received(RevealResults), Rendered, RedirectFired][1..][1..][1..] == [];
  }

  /** A reset from the admin followed by the retry brings the bid form back. */
  lemma ResetRetryScenario()
    ensures var s := Initial.(role := User, step := Result, hasSubmitted := true, revealed := true);
            var again := RunCancellingRedirect(s, [Received(ResetResults), RetryClicked]);
            again.step == Simulation && SimulationView(again) == BidForm
  {
    assert [Received(ResetResults), RetryClicked][1..][1..] == [];
  }
}
