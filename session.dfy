/** The session: whether someone is signed in, their profile, and the login
    form (its sign-in / sign-up mode and its three input fields).

    The pure functions below give each transition on a `State` value; the
    class `SessionManager` holds the same flags as mutable fields, the way
    the front end keeps them in globals, and each of its methods is proved
    to perform the matching transition. */
module Session {
  import opened Wrappers

  datatype User = User(name: string, email: string, avatar: string)

  /** The values of the login form's `email`, `password` and `fullName` inputs. */
  datatype Form = Form(email: string, password: string, fullName: string)

  datatype State = State(isLoggedIn: bool, currentUser: Option<User>, isLoginMode: bool, form: Form)

  const AVATAR: string := "https://images.unsplash.com/photo-1472099645785-5658abf4ff4e?w=100"
  const SIGN_IN_NAME: string := "Otaku Master"
  const DEFAULT_SIGN_UP_NAME: string := "Anime Fan"
  const SIGN_IN_NOTICE: string := "Welcome back, fellow otaku!"
  const SIGN_UP_NOTICE: string := "Welcome to the anime community!"
  const EMPTY_FORM: Form := Form("", "", "")

  /** The state at page load: signed out, form in sign-in mode. */
  function Initial(): State {
    State(false, None, true, EMPTY_FORM)
  }

  /** Signed in exactly when there is a profile. */
  predicate Consistent(s: State) {
    s.isLoggedIn <==> s.currentUser.Some?
  }

  /** `switchMode`: flips the form between sign-in and sign-up. */
  function Switched(s: State): State {
    s.(isLoginMode := !s.isLoginMode)
  }

  /** `resetLoginForm`: clears the three inputs, sets sign-in mode, then
      calls `switchMode`, which flips it again. */
  function Reset(s: State): State {
    Switched(s.(form := EMPTY_FORM, isLoginMode := true))
  }

  /** The profile built when a login completes; `isLoginMode` is read at
      completion time, `email` and `fullName` at submission time. */
  function Profile(isLoginMode: bool, email: string, fullName: string): (u: User)
    ensures u.email == email && u.avatar == AVATAR
    ensures u.name != []
    ensures isLoginMode ==> u.name == SIGN_IN_NAME
    ensures !isLoginMode && fullName != [] ==> u.name == fullName
    ensures !isLoginMode && fullName == [] ==> u.name == DEFAULT_SIGN_UP_NAME
  {
    if isLoginMode then User(SIGN_IN_NAME, email, AVATAR)
    else User(if fullName != [] then fullName else DEFAULT_SIGN_UP_NAME, email, AVATAR)
  }

  /** Login completion: the profile is installed, the session is signed in,
      and the modal is closed, which resets the form. */
  function LoggedIn(s: State, submitted: Form): State {
    Reset(s.(currentUser := Some(Profile(s.isLoginMode, submitted.email, submitted.fullName)),
             isLoggedIn := true))
  }

  /** `logout`. */
  function LoggedOut(s: State): State {
    s.(isLoggedIn := false, currentUser := None)
  }

  /** The user typing into the login form. */
  function Edited(s: State, f: Form): State {
    s.(form := f)
  }

  /** Two calls of `switchMode` restore the mode and change nothing else. */
  lemma SwitchedTwice(s: State)
    ensures Switched(Switched(s)) == s
    ensures Switched(s).isLoginMode != s.isLoginMode
    ensures Switched(s).(isLoginMode := s.isLoginMode) == s
  {
  }

  /** `resetLoginForm` always leaves the form empty and in sign-up mode,
      whatever the mode was, and keeps the sign-in state. */
  lemma ResetLeavesSignUpMode(s: State)
    ensures !Reset(s).isLoginMode && Reset(s).form == EMPTY_FORM
    ensures Reset(s).isLoggedIn == s.isLoggedIn && Reset(s).currentUser == s.currentUser
    ensures Reset(Reset(s)) == Reset(s)
  {
  }

  /** What login completion leaves behind: signed in with a profile carrying
      the submitted email and a name chosen by the mode at completion time. */
  lemma LoggedInProfile(s: State, submitted: Form)
    ensures var r := LoggedIn(s, submitted);
      r.isLoggedIn && r.currentUser.Some? &&
      r.currentUser.value.email == submitted.email &&
      r.currentUser.value.avatar == AVATAR &&
      (s.isLoginMode ==> r.currentUser.value.name == SIGN_IN_NAME) &&
      (!s.isLoginMode && submitted.fullName != [] ==> r.currentUser.value.name == submitted.fullName) &&
      (!s.isLoginMode && submitted.fullName == [] ==> r.currentUser.value.name == DEFAULT_SIGN_UP_NAME) &&
      !r.isLoginMode && r.form == EMPTY_FORM
  {
  }

  /** The transitions the user can trigger. */
  datatype Event =
    | ModeSwitched
    | FormReset
    | FormEdited(f: Form)
    | LoginCompleted(submitted: Form)
    | SignedOut

  function Step(s: State, e: Event): State {
    match e
    case ModeSwitched => Switched(s)
    case FormReset => Reset(s)
    case FormEdited(f) => Edited(s, f)
    case LoginCompleted(f) => LoggedIn(s, f)
    case SignedOut => LoggedOut(s)
  }

  function Run(s: State, es: seq<Event>): State
    decreases |es|
  {
    if es == [] then s else Run(Step(s, es[0]), es[1..])
  }

  /** Every transition keeps "signed in iff there is a profile". */
  lemma StepKeepsConsistent(s: State, e: Event)
    requires Consistent(s)
    ensures Consistent(Step(s, e))
  {
  }

  /** So does every sequence of transitions. */
  lemma {:induction false} RunKeepsConsistent(s: State, es: seq<Event>)
    requires Consistent(s)
    ensures Consistent(Run(s, es))
    decreases |es|
  {
    if es != [] {
      StepKeepsConsistent(s, es[0]);
      RunKeepsConsistent(Step(s, es[0]), es[1..]);
    }
  }

  /** Every state reachable from page load is consistent. */
  lemma ReachableConsistent(es: seq<Event>)
    ensures Consistent(Run(Initial(), es))
  {
    RunKeepsConsistent(Initial(), es);
  }

  /** The welcome notice for the mode a login was performed in. */
  function WelcomeNotice(isLoginMode: bool): (m: string)
    ensures m == SIGN_IN_NOTICE <==> isLoginMode
    ensures m == SIGN_UP_NOTICE <==> !isLoginMode
  {
    if isLoginMode then SIGN_IN_NOTICE else SIGN_UP_NOTICE
  }

  /** The notice as the completion handler picks it: it reads `isLoginMode`
      after closing the modal, that is, after the form reset. */
  function WelcomeNoticeAsWritten(s: State, submitted: Form): string {
    WelcomeNotice(LoggedIn(s, submitted).isLoginMode)
  }

  /** The as-written notice never depends on the mode the login happened
      in: a sign-in is greeted as a sign-up. */
  lemma AsWrittenNoticeIgnoresMode(s: State, submitted: Form)
    ensures WelcomeNoticeAsWritten(s, submitted) == SIGN_UP_NOTICE
    ensures s.isLoginMode ==> WelcomeNoticeAsWritten(s, submitted) != WelcomeNotice(s.isLoginMode)
  {
  }

  /** A sign-in from page load: the profile gets the sign-in name, and the
      corrected notice is the sign-in one. */
  lemma SignInScenario()
    ensures var r := LoggedIn(Initial(), Form("a@b.com", "pw", ""));
      r.isLoggedIn && r.currentUser == Some(User(SIGN_IN_NAME, "a@b.com", AVATAR))
    ensures WelcomeNotice(Initial().isLoginMode) == SIGN_IN_NOTICE
  {
  }

  /** The session flags, held as fields and updated in place. */
  class SessionManager {
    var isLoggedIn: bool
    var currentUser: Option<User>
    var isLoginMode: bool
    var form: Form

    function Snapshot(): State
      reads this
    {
      State(isLoggedIn, currentUser, isLoginMode, form)
    }

    ghost predicate Valid()
      reads this
    {
      Consistent(Snapshot())
    }

    constructor ()
      ensures Snapshot() == Initial() && Valid()
    {
      isLoggedIn, currentUser, isLoginMode, form := false, None, true, EMPTY_FORM;
    }

    method SwitchMode()
      requires Valid()
      modifies this
      ensures Valid()
      ensures isLoginMode == !old(isLoginMode)
      ensures Snapshot() == Switched(old(Snapshot()))
    {
      isLoginMode := !isLoginMode;
    }

    method ResetLoginForm()
      requires Valid()
      modifies this
      ensures Valid()
      ensures !isLoginMode && form == EMPTY_FORM
      ensures Snapshot() == Reset(old(Snapshot()))
    {
      form := EMPTY_FORM;
      isLoginMode := true;
      SwitchMode();
    }

    method EditForm(f: Form)
      requires Valid()
      modifies this
      ensures Valid()
      ensures Snapshot() == Edited(old(Snapshot()), f)
    {
      form := f;
    }

    /** Submission reads the inputs; the login itself completes later. */
    method SubmitLogin() returns (submitted: Form)
      ensures submitted == form
    {
      submitted := form;
    }

    /** The delayed completion of a submitted login, taken as one step. It
        returns the welcome notice for the mode the login was performed in. */
    method CompleteLogin(submitted: Form) returns (notice: string)
      requires Valid()
      modifies this
      ensures Valid()
      ensures isLoggedIn && currentUser == Some(Profile(old(isLoginMode), submitted.email, submitted.fullName))
      ensures Snapshot() == LoggedIn(old(Snapshot()), submitted)
      ensures notice == WelcomeNotice(old(isLoginMode))
    {
      notice := WelcomeNotice(isLoginMode);
      if isLoginMode {
        currentUser := Some(User(SIGN_IN_NAME, submitted.email, AVATAR));
      } else {
        var name := if submitted.fullName != [] then submitted.fullName else DEFAULT_SIGN_UP_NAME;
        currentUser := Some(User(name, submitted.email, AVATAR));
      }
      isLoggedIn := true;
      ResetLoginForm();
    }

    method Logout()
      requires Valid()
      modifies this
      ensures Valid()
      ensures !isLoggedIn && currentUser == None
      ensures Snapshot() == LoggedOut(old(Snapshot()))
    {
      isLoggedIn := false;
      currentUser := None;
    }
  }
}
