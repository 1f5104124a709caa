/** `login` of the interactive lyrics script: up to four rounds of asking for
    credentials, submitting them, and checking for the error message. An empty
    username or password cancels at once. */
module LyricsLogin {
  import opened Actions

  const RetriesCount := 4
  const LoginLink := "id:user-login"
  const UsernameField := "css:#fld-uname.fw"
  const PasswordField := "css:#fld-upass.fw"
  const SubmitButton := "css:button[type=submit].lrg"

  /** One round: what the login dialog returned and whether the site then showed
      its error message (`p.err`). */
  datatype LoginRound = LoginRound(username: string, password: string, errorShown: bool)

  /** Round k; rounds past the recorded ones read as a dialog closed without input. */
  function RoundAt(rounds: seq<LoginRound>, k: nat): LoginRound {
    if k < |rounds| then rounds[k] else LoginRound("", "", false)
  }

  /** The round submits credentials (the dialog gave both). */
  predicate Submits(r: LoginRound) {
    r.username != "" && r.password != ""
  }

  /** The round submits credentials and the site rejects them. */
  predicate Rejected(r: LoginRound) {
    Submits(r) && r.errorShown
  }

  /** How many rounds, from the first, submit credentials that are rejected. */
  function RejectedRun(rounds: seq<LoginRound>): (n: nat)
    ensures forall k :: 0 <= k < n ==> Rejected(RoundAt(rounds, k))
    ensures !Rejected(RoundAt(rounds, n))
    decreases |rounds|
  {
    if |rounds| > 0 && Rejected(rounds[0]) then
      var n := 1 + RejectedRun(rounds[1..]);
      assert forall k :: 1 <= k <= n ==> RoundAt(rounds, k) == RoundAt(rounds[1..], k - 1);
      n
    else 0
  }

  /** `perform_login(username, password)`: open the login form, type each
      credential into its own field, then submit. */
  function PerformLogin(username: string, password: string): (r: seq<Action>)
    ensures |r| == 4 && r[0] == Click(LoginLink) && r[3] == Click(SubmitButton)
    ensures r[1] == InputText(UsernameField, username) && r[2] == InputText(PasswordField, password)
    ensures forall i :: 0 <= i < |r| && r[i].InputText? ==>
      || (r[i].selector == UsernameField && r[i].text == username)
      || (r[i].selector == PasswordField && r[i].text == password)
  {
    [Click(LoginLink), InputText(UsernameField, username), InputText(PasswordField, password), Click(SubmitButton)]
  }

  datatype LoginEnd = LoggedIn | Cancelled | GaveUp

  datatype LoginRun = LoginRun(result: LoginEnd, attempts: nat, trace: seq<Action>) {
    /** What `login()` returns. */
    predicate Returned() {
      result == LoggedIn
    }
  }

  /** The `while retries < RETRIES_COUNT` loop from `retries` on. */
  function LoginFrom(rounds: seq<LoginRound>, retries: nat): (r: LoginRun)
    requires retries <= RetriesCount
    ensures retries + r.attempts <= RetriesCount
    ensures |r.trace| == 4 * r.attempts
    decreases RetriesCount - retries
  {
    if retries == RetriesCount then LoginRun(GaveUp, 0, [])
    else
      var round := RoundAt(rounds, retries);
      if !Submits(round) then LoginRun(Cancelled, 0, [])
      else
        var tried := PerformLogin(round.username, round.password);
        if !round.errorShown then LoginRun(LoggedIn, 1, tried)
        else
          var rest := LoginFrom(rounds, retries + 1);
          LoginRun(rest.result, 1 + rest.attempts, tried + rest.trace)
  }

  /** `login()`: with k the number of leading rejected rounds, four rejections
      give up after four attempts; otherwise round k decides, logging in on its
      attempt or cancelling before any browser action of its own. */
  function Login(rounds: seq<LoginRound>): (r: LoginRun)
    ensures r.attempts <= RetriesCount
    ensures |r.trace| == 4 * r.attempts
    ensures var k := RejectedRun(rounds);
      && (k >= RetriesCount ==> r.result == GaveUp && r.attempts == RetriesCount)
      && (k < RetriesCount && Submits(RoundAt(rounds, k)) ==> r.result == LoggedIn && r.attempts == k + 1)
      && (k < RetriesCount && !Submits(RoundAt(rounds, k)) ==> r.result == Cancelled && r.attempts == k)
  {
    LoginFromOutcome(rounds, 0);
    LoginFrom(rounds, 0)
  }

  lemma {:induction false} LoginFromOutcome(rounds: seq<LoginRound>, retries: nat)
    requires retries <= RetriesCount
    requires retries <= RejectedRun(rounds)
    ensures var r := LoginFrom(rounds, retries);
      var k := RejectedRun(rounds);
      && (k >= RetriesCount ==> r.result == GaveUp && retries + r.attempts == RetriesCount)
      && (k < RetriesCount && Submits(RoundAt(rounds, k)) ==> r.result == LoggedIn && retries + r.attempts == k + 1)
      && (k < RetriesCount && !Submits(RoundAt(rounds, k)) ==> r.result == Cancelled && retries + r.attempts == k)
    decreases RetriesCount - retries
  {
    var k := RejectedRun(rounds);
    if retries < RetriesCount && retries < k {
      assert Rejected(RoundAt(rounds, retries));
      LoginFromOutcome(rounds, retries + 1);
    }
  }

  /** An empty username or password in the first dialog returns False before any browser action. */
  lemma CancelFirst(rounds: seq<LoginRound>)
    requires !Submits(RoundAt(rounds, 0))
    ensures Login(rounds) == LoginRun(Cancelled, 0, [])
  {
  }

  /** The first accepted attempt returns True at once, and each attempt before it
      ran the full login sequence with the credentials of its round. */
  lemma {:induction false} AttemptsReplayRounds(rounds: seq<LoginRound>, retries: nat, i: nat)
    requires retries <= RetriesCount
    requires i < LoginFrom(rounds, retries).attempts
    ensures var rd := RoundAt(rounds, retries + i);
      LoginFrom(rounds, retries).trace[4 * i..4 * i + 4] == PerformLogin(rd.username, rd.password)
    decreases RetriesCount - retries
  {
    var round := RoundAt(rounds, retries);
    var tried := PerformLogin(round.username, round.password);
    if i == 0 {
      FirstAttempt(rounds, retries);
    } else {
      var rest := LoginFrom(rounds, retries + 1);
      LaterAttempts(rounds, retries);
      AttemptsReplayRounds(rounds, retries + 1, i - 1);
      SliceAfterPrefix(tried, rest.trace, 4 * (i - 1), 4 * (i - 1) + 4);
    }
  }

  /** The first attempt of a loop that made any attempt types in the round for its counter value. */
  lemma FirstAttempt(rounds: seq<LoginRound>, retries: nat)
    requires retries <= RetriesCount
    requires 0 < LoginFrom(rounds, retries).attempts
    ensures var rd := RoundAt(rounds, retries);
      LoginFrom(rounds, retries).trace[..4] == PerformLogin(rd.username, rd.password)
  {
  }

  /** An attempt that did not end the loop is followed by the loop from the next counter value. */
  lemma LaterAttempts(rounds: seq<LoginRound>, retries: nat)
    requires retries <= RetriesCount
    requires 1 < LoginFrom(rounds, retries).attempts
    ensures retries < RetriesCount
    ensures var rd := RoundAt(rounds, retries);
      && LoginFrom(rounds, retries).trace == PerformLogin(rd.username, rd.password) + LoginFrom(rounds, retries + 1).trace
      && LoginFrom(rounds, retries + 1).attempts == LoginFrom(rounds, retries).attempts - 1
  {
  }

  /** A slice past a prefix of length 4 is the matching slice of the rest. */
  lemma SliceAfterPrefix(p: seq<Action>, t: seq<Action>, lo: nat, hi: nat)
    requires |p| == 4 && lo <= hi <= |t|
    ensures (p + t)[lo + 4..hi + 4] == t[lo..hi]
  {
  }

  /** Four rejected rounds: False after exactly four attempts. */
  lemma FourRejections(rounds: seq<LoginRound>)
    requires |rounds| >= RetriesCount
    requires forall k :: 0 <= k < RetriesCount ==> Rejected(rounds[k])
    ensures !Login(rounds).Returned() && Login(rounds).attempts == RetriesCount
  {
    var k := RejectedRun(rounds);
    if k < RetriesCount {
      assert false;
    }
  }
}
