/** Login of the unattended lyrics task: `perform_login`, which turns any
    browser exception into a `LoginError`, and `attempt_login`, the retry loop
    around it. The credentials are fixed in the task; they are parameters here
    so that the cancel branch can be stated. */
module TaskLogin {
  import opened Optional
  import opened Actions

  const RetriesCount := 4
  const Username := "twigbang"
  const Password := "truongproghe"
  const LoginLink := "id:user-login"
  const UsernameField := "css:#fld-uname.fw"
  const PasswordField := "css:#fld-upass.fw"
  const SubmitButton := "css:button[type=submit].lrg"

  const AttemptFailed := "Login attempt failed"
  const CancelledByUser := "Login cancelled by user"
  const Exceeded := "Exceeded maximum login attempts"

  /** `enter_text_in_element`: click the element once visible, then type into the focused window. */
  function EnterText(selector: string, text: string): seq<Action> {
    [ClickWhenVisible(selector), SendKeys(text)]
  }

  /** `enter_text_in_element` against a browser rejecting `failing`. */
  function EnterTextRun(selector: string, text: string, failing: set<Action>): (r: Run)
    ensures r.Ok() <==> ClickWhenVisible(selector) !in failing && SendKeys(text) !in failing
    ensures r.Ok() ==> r.trace == EnterText(selector, text)
    ensures !r.Ok() ==> r.fault.Some? && r.fault.value.ActionFailed?
  {
    Then(Perform(ClickWhenVisible(selector), failing), Perform(SendKeys(text), failing))
  }

  /** What `perform_login` issues when nothing raises. */
  function LoginActions(username: string, password: string): seq<Action> {
    [Click(LoginLink)] + EnterText(UsernameField, username) + EnterText(PasswordField, password) + [Click(SubmitButton)]
  }

  /** The body of the `try` in `perform_login`: open the login form, type the
      credentials, submit. */
  function LoginSteps(username: string, password: string, failing: set<Action>): Run {
    Then(Perform(Click(LoginLink), failing),
    Then(EnterTextRun(UsernameField, username, failing),
    Then(EnterTextRun(PasswordField, password, failing),
         Perform(Click(SubmitButton), failing))))
  }

  /** `perform_login`: the login sequence; whatever action raises, the caller sees
      `LoginError("Login attempt failed")`. */
  function PerformLogin(username: string, password: string, failing: set<Action>): (r: Run)
    ensures r.Ok() <==> LoginSteps(username, password, failing).Ok()
    ensures r.trace == LoginSteps(username, password, failing).trace
    ensures !r.Ok() ==> r.fault == Some(LoginError(AttemptFailed))
  {
    AsLoginError(LoginSteps(username, password, failing))
  }

  /** `except Exception: raise LoginError("Login attempt failed")`. */
  function AsLoginError(run: Run): Run {
    if run.Ok() then run else Run(run.trace, Some(LoginError(AttemptFailed)))
  }

  /** The steps issue the actions of `LoginActions` one at a time, stopping at the
      first one the browser rejects. */
  lemma LoginStepsPerformAll(username: string, password: string, failing: set<Action>)
    ensures LoginSteps(username, password, failing) == PerformAll(LoginActions(username, password), failing)
  {
    var a0, a1, a2 := Click(LoginLink), ClickWhenVisible(UsernameField), SendKeys(username);
    var a3, a4, a5 := ClickWhenVisible(PasswordField), SendKeys(password), Click(SubmitButton);
    assert LoginActions(username, password) == [a0, a1, a2, a3, a4, a5];
    PerformAllSix(a0, a1, a2, a3, a4, a5, failing);
    ThenFlattensSix(Perform(a0, failing), Perform(a1, failing), Perform(a2, failing),
      Perform(a3, failing), Perform(a4, failing), Perform(a5, failing));
  }

  /** Six actions issued one at a time are a right-nested chain of single actions. */
  lemma PerformAllSix(a0: Action, a1: Action, a2: Action, a3: Action, a4: Action, a5: Action, failing: set<Action>)
    ensures PerformAll([a0, a1, a2, a3, a4, a5], failing) ==
      Then(Perform(a0, failing), Then(Perform(a1, failing), Then(Perform(a2, failing),
      Then(Perform(a3, failing), Then(Perform(a4, failing), Perform(a5, failing))))))
  {
    var s5 := [a5] + [];
    var s4 := [a4] + s5;
    var s3 := [a3] + s4;
    var s2 := [a2] + s3;
    var s1 := [a1] + s2;
    var s0 := [a0] + s1;
    PerformAllCons(a5, [], failing);
    PerformAllCons(a4, s5, failing);
    PerformAllCons(a3, s4, failing);
    PerformAllCons(a2, s3, failing);
    PerformAllCons(a1, s2, failing);
    PerformAllCons(a0, s1, failing);
    assert PerformAll([], failing) == Run([], None);
    assert Then(Perform(a5, failing), Run([], None)) == Perform(a5, failing);
    ConsChainIsDisplay(a0, a1, a2, a3, a4, a5);
  }

  /** Six actions consed onto the empty sequence form the six-action display. */
  lemma ConsChainIsDisplay(a0: Action, a1: Action, a2: Action, a3: Action, a4: Action, a5: Action)
    ensures [a0] + ([a1] + ([a2] + ([a3] + ([a4] + ([a5] + []))))) == [a0, a1, a2, a3, a4, a5]
  {
  }

  /** The grouping of the login steps does not change the run. */
  lemma ThenFlattensSix(p0: Run, p1: Run, p2: Run, p3: Run, p4: Run, p5: Run)
    ensures Then(p0, Then(Then(p1, p2), Then(Then(p3, p4), p5))) ==
      Then(p0, Then(p1, Then(p2, Then(p3, Then(p4, p5)))))
  {
    ThenAssoc(p3, p4, p5);
    ThenAssoc(p1, p2, Then(p3, Then(p4, p5)));
  }

  /** The login sequence completes exactly when the browser rejects none of its
      actions; otherwise it stops at the first rejected one. */
  lemma PerformLoginStops(username: string, password: string, failing: set<Action>)
    ensures var r := PerformLogin(username, password, failing);
      && (r.Ok() <==> forall a :: a in LoginActions(username, password) ==> a !in failing)
      && (r.Ok() ==> r.trace == LoginActions(username, password))
      && (!r.Ok() ==>
        && 0 < |r.trace| <= 6
        && r.trace == LoginActions(username, password)[..|r.trace|]
        && r.trace[|r.trace| - 1] in failing)
  {
    LoginStepsPerformAll(username, password, failing);
  }

  /** What the browser does during one pass of the loop body: the actions it
      rejects, and whether `css:p.err` is visible afterwards. */
  datatype Try = Try(failing: set<Action>, errorShown: bool)

  /** One pass as the loop sees it: what `perform_login` did, and the error check after it. */
  datatype Pass = Pass(run: Run, errorShown: bool) {
    /** `perform_login` raised its LoginError. */
    predicate Raised() {
      !run.Ok()
    }

    /** `perform_login` completed and no error message is shown: the loop returns. */
    predicate LogsIn() {
      run.Ok() && !errorShown
    }
  }

  /** The passes the recorded tries produce with these credentials. */
  function Passes(username: string, password: string, tries: seq<Try>): (ps: seq<Pass>)
    ensures |ps| == |tries|
    ensures forall j :: 0 <= j < |tries| ==>
      ps[j] == Pass(PerformLogin(username, password, tries[j].failing), tries[j].errorShown)
  {
    seq(|tries|, j requires 0 <= j < |tries| => Pass(PerformLogin(username, password, tries[j].failing), tries[j].errorShown))
  }

  /** How many passes in `ps` raised. */
  function RaiseCount(ps: seq<Pass>): nat
    decreases |ps|
  {
    if |ps| == 0 then 0
    else (if ps[0].Raised() then 1 else 0) + RaiseCount(ps[1..])
  }

  datatype LoginEnd =
    | LoggedIn                // returned normally
    | Raised(message: string) // a LoginError escaped
    | Unfinished              // still looping when the recorded tries ran out

  /** `attempts` passes through the loop body, the final value of `retries`, and the actions issued. */
  datatype LoginRun = LoginRun(result: LoginEnd, attempts: nat, retries: nat, trace: seq<Action>)

  /** The loop of `attempt_login` as written, from pass `i` with counter `retries`:
      only a raised `LoginError` moves the counter. */
  function AttemptFrom(username: string, password: string, ps: seq<Pass>, i: nat, retries: nat): (r: LoginRun)
    requires i <= |ps| && retries <= RetriesCount
    ensures i + r.attempts <= |ps|
    ensures retries <= r.retries <= RetriesCount
    decreases |ps| - i
  {
    if retries == RetriesCount then LoginRun(Raised(Exceeded), 0, retries, [])
    else if username == "" || password == "" then LoginRun(Raised(CancelledByUser), 0, retries, [])
    else if i == |ps| then LoginRun(Unfinished, 0, retries, [])
    else if ps[i].LogsIn() then LoginRun(LoggedIn, 1, retries, ps[i].run.trace)
    else
      Continued(ps[i], AttemptFrom(username, password, ps, i + 1, if ps[i].Raised() then retries + 1 else retries))
  }

  /** A pass that did not return, in front of the passes after it. */
  function Continued(p: Pass, rest: LoginRun): LoginRun {
    LoginRun(rest.result, 1 + rest.attempts, rest.retries, p.run.trace + rest.trace)
  }

  /** The counter of the as-written loop rises by one for each pass that raised,
      and by nothing for a pass that showed the error message. */
  lemma {:induction false} AttemptFromCounts(username: string, password: string, ps: seq<Pass>, i: nat, retries: nat)
    requires i <= |ps| && retries <= RetriesCount
    ensures var r := AttemptFrom(username, password, ps, i, retries);
      r.retries == retries + RaiseCount(ps[i..i + r.attempts])
    decreases |ps| - i
  {
    if retries < RetriesCount && username != "" && password != "" && i < |ps| {
      if ps[i].LogsIn() {
        assert ps[i..i + 1][1..] == [];
      } else {
        var next := if ps[i].Raised() then retries + 1 else retries;
        var rest := AttemptFrom(username, password, ps, i + 1, next);
        AttemptFromCounts(username, password, ps, i + 1, next);
        assert ps[i..i + 1 + rest.attempts][1..] == ps[i + 1..i + 1 + rest.attempts];
      }
    }
  }

  /** How the as-written loop ends: it returns on the first pass that logs in, raises
      "Exceeded" exactly when the counter reaches four, raises "cancelled" exactly for
      empty credentials, and is otherwise still looping when the passes run out. */
  lemma {:induction false} AttemptFromEnds(username: string, password: string, ps: seq<Pass>, i: nat, retries: nat)
    requires i <= |ps| && retries <= RetriesCount
    ensures var r := AttemptFrom(username, password, ps, i, retries);
      && (r.result == LoggedIn ==> r.attempts > 0 && ps[i + r.attempts - 1].LogsIn())
      && (forall j :: i <= j < i + r.attempts && (r.result != LoggedIn || j < i + r.attempts - 1) ==> !ps[j].LogsIn())
      && (r.result == Raised(Exceeded) <==> r.retries == RetriesCount)
      && (r.result == Raised(CancelledByUser) <==> retries < RetriesCount && (username == "" || password == ""))
      && (r.result == Unfinished ==> i + r.attempts == |ps|)
      && (r.result.Raised? ==> r.result == Raised(Exceeded) || r.result == Raised(CancelledByUser))
    decreases |ps| - i
  {
    if retries < RetriesCount && username != "" && password != "" && i < |ps| && !ps[i].LogsIn() {
      AttemptFromEnds(username, password, ps, i + 1, if ps[i].Raised() then retries + 1 else retries);
    }
  }

  /** `attempt_login()` as written, over the recorded tries. */
  function AttemptLogin(username: string, password: string, tries: seq<Try>): (r: LoginRun)
    ensures r.attempts <= |tries|
    ensures r.retries == RaisesBefore(Passes(username, password, tries), r.attempts) <= RetriesCount
    ensures r.result == LoggedIn ==> LogsInAt(Passes(username, password, tries), r.attempts - 1)
    ensures NoLoginBefore(Passes(username, password, tries), if r.result == LoggedIn then r.attempts - 1 else r.attempts)
    ensures r.result == Raised(Exceeded) <==> r.retries == RetriesCount
    ensures r.result == Raised(CancelledByUser) <==> username == "" || password == ""
    ensures r.result == Unfinished ==> r.attempts == |tries|
    ensures r.result.Raised? ==> r.result == Raised(Exceeded) || r.result == Raised(CancelledByUser)
  {
    AttemptFromFromStart(username, password, Passes(username, password, tries));
    AttemptFrom(username, password, Passes(username, password, tries), 0, 0)
  }

  /** How many of the first `n` passes raised (all of them when there are fewer). */
  function RaisesBefore(ps: seq<Pass>, n: int): nat {
    if 0 <= n <= |ps| then RaiseCount(ps[..n]) else RaiseCount(ps)
  }

  /** None of the first `n` passes logs in. */
  predicate NoLoginBefore(ps: seq<Pass>, n: int) {
    forall j :: 0 <= j < n && j < |ps| ==> !ps[j].LogsIn()
  }

  lemma AttemptFromFromStart(username: string, password: string, ps: seq<Pass>)
    ensures var r := AttemptFrom(username, password, ps, 0, 0);
      && r.retries == RaisesBefore(ps, r.attempts)
      && (r.result == LoggedIn ==> LogsInAt(ps, r.attempts - 1))
      && NoLoginBefore(ps, if r.result == LoggedIn then r.attempts - 1 else r.attempts)
      && (r.result == Raised(Exceeded) <==> r.retries == RetriesCount)
      && (r.result == Raised(CancelledByUser) <==> username == "" || password == "")
      && (r.result == Unfinished ==> r.attempts == |ps|)
      && (r.result.Raised? ==> r.result == Raised(Exceeded) || r.result == Raised(CancelledByUser))
  {
    AttemptFromCounts(username, password, ps, 0, 0);
    AttemptFromEnds(username, password, ps, 0, 0);
    var r := AttemptFrom(username, password, ps, 0, 0);
    assert ps[0..r.attempts] == ps[..r.attempts];
  }

  /** Conversely, the first pass that logs in ends the loop with a return, as long
      as fewer than four passes before it raised. */
  lemma ReturnsOnFirstSuccess(username: string, password: string, tries: seq<Try>, k: nat)
    requires username != "" && password != ""
    requires var ps := Passes(username, password, tries);
      && k < |ps| && ps[k].LogsIn()
      && (forall j :: 0 <= j < k ==> !ps[j].LogsIn())
      && RaiseCount(ps[..k]) < RetriesCount
    ensures AttemptLogin(username, password, tries).result == LoggedIn
    ensures AttemptLogin(username, password, tries).attempts == k + 1
  {
    var ps := Passes(username, password, tries);
    var r := AttemptLogin(username, password, tries);
    if r.result != LoggedIn && r.attempts <= k {
      PrefixCount(ps, r.attempts, k);
    }
  }

  /** Raises in a prefix never exceed those in a longer prefix. */
  lemma {:induction false} PrefixCount(ps: seq<Pass>, a: nat, b: nat)
    requires a <= b <= |ps|
    ensures RaiseCount(ps[..a]) <= RaiseCount(ps[..b])
    decreases b
  {
    if a < b {
      PrefixCount(ps, a, b - 1);
      assert ps[..b] == ps[..b - 1] + [ps[b - 1]];
      RaiseCountSnoc(ps[..b - 1], ps[b - 1]);
    }
  }

  lemma {:induction false} RaiseCountSnoc(ps: seq<Pass>, p: Pass)
    ensures RaiseCount(ps + [p]) == RaiseCount(ps) + (if p.Raised() then 1 else 0)
    decreases |ps|
  {
    if |ps| > 0 {
      assert (ps + [p])[1..] == ps[1..] + [p];
      RaiseCountSnoc(ps[1..], p);
    }
  }

  /** A pass that shows the error message leaves the counter where it was; a pass
      that raised moves it by exactly one. */
  lemma CounterStep(username: string, password: string, ps: seq<Pass>, i: nat, retries: nat)
    requires i < |ps| && retries < RetriesCount && username != "" && password != ""
    requires !ps[i].LogsIn()
    ensures var next := AttemptFrom(username, password, ps, i + 1, if ps[i].Raised() then retries + 1 else retries);
      var r := AttemptFrom(username, password, ps, i, retries);
      r.retries == next.retries && r.result == next.result && r.attempts == next.attempts + 1
  {
  }

  /** The site shows its error message after every submitted login: the loop never
      leaves, however many tries are recorded. */
  lemma ErrorEveryTimeNeverEnds(n: nat)
    ensures var r := AttemptLogin(Username, Password, seq(n, _ => Try({}, true)));
      r.result == Unfinished && r.attempts == n && r.retries == 0
  {
    var tries := seq(n, _ => Try({}, true));
    var ps := Passes(Username, Password, tries);
    forall j | 0 <= j < n
      ensures ps[j].run.Ok() && ps[j].errorShown
    {
      assert LoginSteps(Username, Password, {}).Ok();
    }
    ErrorEveryTimeFrom(ps, 0);
  }

  lemma {:induction false} ErrorEveryTimeFrom(ps: seq<Pass>, i: nat)
    requires i <= |ps|
    requires forall j :: 0 <= j < |ps| ==> ps[j].run.Ok() && ps[j].errorShown
    ensures var r := AttemptFrom(Username, Password, ps, i, 0);
      r.result == Unfinished && r.attempts == |ps| - i && r.retries == 0
    decreases |ps| - i
  {
    if i < |ps| {
      ErrorEveryTimeFrom(ps, i + 1);
    }
  }

  /** The hard-coded credentials are never empty, so the cancel branch is dead. */
  lemma FixedCredentialsNeverCancel(tries: seq<Try>)
    ensures AttemptLogin(Username, Password, tries).result != Raised(CancelledByUser)
  {
  }

  /** The evidently intended loop: every pass that does not log in uses up one of
      the four retries, whether `perform_login` raised or the error message showed. */
  function BoundedFrom(username: string, password: string, ps: seq<Pass>, k: nat): (r: LoginRun)
    requires k <= RetriesCount && k <= |ps|
    ensures k + r.attempts <= RetriesCount
    decreases RetriesCount - k
  {
    if k == RetriesCount then LoginRun(Raised(Exceeded), 0, k, [])
    else if username == "" || password == "" then LoginRun(Raised(CancelledByUser), 0, k, [])
    else if k == |ps| then LoginRun(Unfinished, 0, k, [])
    else if ps[k].LogsIn() then LoginRun(LoggedIn, 1, k, ps[k].run.trace)
    else
      Continued(ps[k], BoundedFrom(username, password, ps, k + 1))
  }

  lemma {:induction false} BoundedFromEnds(username: string, password: string, ps: seq<Pass>, k: nat)
    requires k <= RetriesCount && k <= |ps|
    ensures var r := BoundedFrom(username, password, ps, k);
      && (r.result == LoggedIn ==> r.attempts > 0 && k + r.attempts <= |ps| && ps[k + r.attempts - 1].LogsIn())
      && (forall j :: k <= j < k + r.attempts && j < |ps| && (r.result != LoggedIn || j < k + r.attempts - 1) ==> !ps[j].LogsIn())
      && (r.result == Raised(Exceeded) ==> k + r.attempts == RetriesCount && (forall j :: k <= j < RetriesCount && j < |ps| ==> !ps[j].LogsIn()))
      && (r.result == Raised(CancelledByUser) <==> k < RetriesCount && (username == "" || password == ""))
      && (r.result == Unfinished ==> k + r.attempts == |ps| < RetriesCount && (forall j :: k <= j < |ps| ==> !ps[j].LogsIn()))
      && (r.result.Raised? ==> r.result == Raised(Exceeded) || r.result == Raised(CancelledByUser))
    decreases RetriesCount - k
  {
    if k < RetriesCount && username != "" && password != "" && k < |ps| && !ps[k].LogsIn() {
      BoundedFromEnds(username, password, ps, k + 1);
    }
  }

  /** `attempt_login` with the counter moved on every failed pass: at most four
      passes, four recorded tries always reach a verdict, and it logs in exactly
      when one of the first four passes would. */
  function AttemptLoginBounded(username: string, password: string, tries: seq<Try>): (r: LoginRun)
    ensures r.attempts <= RetriesCount
    ensures |tries| >= RetriesCount ==> r.result != Unfinished
    ensures r.result == LoggedIn <==>
      username != "" && password != "" && LogsInEarly(Passes(username, password, tries))
    ensures r.result == LoggedIn ==> LogsInAt(Passes(username, password, tries), r.attempts - 1)
    ensures NoLoginBefore(Passes(username, password, tries), if r.result == LoggedIn then r.attempts - 1 else r.attempts)
    ensures r.result == Raised(Exceeded) ==> r.attempts == RetriesCount
    ensures r.result == Raised(CancelledByUser) <==> username == "" || password == ""
  {
    BoundedFromStart(username, password, Passes(username, password, tries), |tries|);
    BoundedFrom(username, password, Passes(username, password, tries), 0)
  }

  /** One of the first four passes logs in. */
  predicate LogsInEarly(ps: seq<Pass>) {
    exists j :: 0 <= j < RetriesCount && j < |ps| && ps[j].LogsIn()
  }

  /** Pass number `j` exists and logs in. */
  predicate LogsInAt(ps: seq<Pass>, j: int) {
    0 <= j < |ps| && ps[j].LogsIn()
  }

  lemma BoundedFromStart(username: string, password: string, ps: seq<Pass>, n: nat)
    requires |ps| == n
    ensures var r := BoundedFrom(username, password, ps, 0);
      && r.attempts <= RetriesCount
      && (n >= RetriesCount ==> r.result != Unfinished)
      && (r.result == LoggedIn <==> username != "" && password != "" && LogsInEarly(ps))
      && (r.result == LoggedIn ==> LogsInAt(ps, r.attempts - 1))
      && NoLoginBefore(ps, if r.result == LoggedIn then r.attempts - 1 else r.attempts)
      && (r.result == Raised(Exceeded) ==> r.attempts == RetriesCount)
      && (r.result == Raised(CancelledByUser) <==> username == "" || password == "")
  {
    BoundedFromEnds(username, password, ps, 0);
    var r := BoundedFrom(username, password, ps, 0);
    if r.result == LoggedIn {
      assert 0 <= r.attempts - 1 < RetriesCount && r.attempts - 1 < n && ps[r.attempts - 1].LogsIn();
    }
  }
}
