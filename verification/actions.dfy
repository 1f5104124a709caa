/** The browser and file effects the automation scripts issue.

    Every operation of the model returns the actions it attempted, in order,
    together with the fault that ended it early, if any. A browser is
    abstracted as the set of actions it rejects: an action in that set raises
    whenever it is issued, every other action succeeds. */
module Actions {
  import opened Optional

  datatype Action =
    | Click(selector: string)
    | ClickWhenVisible(selector: string)
    | SelectByValue(selector: string, value: string)
    | InputText(selector: string, text: string)
    | SendKeys(text: string)
    | WaitVisible(selector: string)
    | GoTo(url: string)
    | Download(url: string, path: string)
    | WriteImage(path: string, width: int, height: int)
    | WritePdf(path: string, orderId: string, receiptHtml: string, imagePath: string)
    | WriteFile(path: string, text: string)

  /** Why an operation stopped early: the exception that escaped it. */
  datatype Fault =
    | ActionFailed(action: Action)   // the browser or a file/HTTP collaborator raised on this action
    | ElementMissing                 // a required element lookup raised
    | TranslatorFailed               // the translation service raised
    | LoginError(message: string)    // the scripts' own LoginError

  /** What one operation did: the actions it attempted, and the fault that ended it, if any. */
  datatype Run = Run(trace: seq<Action>, fault: Option<Fault>) {
    predicate Ok() {
      fault.None?
    }
  }

  /** Issues one action against a browser that rejects the actions in `failing`. */
  function Perform(a: Action, failing: set<Action>): (r: Run)
    ensures r.trace == [a]
    ensures r.Ok() <==> a !in failing
    ensures !r.Ok() ==> r.fault == Some(ActionFailed(a))
  {
    if a in failing then Run([a], Some(ActionFailed(a))) else Run([a], None)
  }

  /** Runs `first` and, only when it completed, `next` after it: an exception skips the rest. */
  function Then(first: Run, next: Run): (r: Run)
    ensures r.Ok() <==> first.Ok() && next.Ok()
    ensures first.Ok() ==> r.trace == first.trace + next.trace && r.fault == next.fault
    ensures !first.Ok() ==> r == first
  {
    if first.Ok() then Run(first.trace + next.trace, next.fault) else first
  }

  /** Issues `actions` in order, stopping at the first one the browser rejects. */
  function PerformAll(actions: seq<Action>, failing: set<Action>): (r: Run)
    ensures r.Ok() <==> forall i :: 0 <= i < |actions| ==> actions[i] !in failing
    ensures r.Ok() ==> r.trace == actions
    ensures !r.Ok() ==>
      && 0 < |r.trace| <= |actions|
      && r.trace == actions[..|r.trace|]
      && r.trace[|r.trace| - 1] in failing
      && r.fault == Some(ActionFailed(r.trace[|r.trace| - 1]))
      && (forall i :: 0 <= i < |r.trace| - 1 ==> r.trace[i] !in failing)
    decreases |actions|
  {
    if |actions| == 0 then Run([], None)
    else Then(Perform(actions[0], failing), PerformAll(actions[1..], failing))
  }

  /** A run that raised did so on the last action it attempted, one the browser rejects. */
  predicate RaisedOnLast(r: Run, failing: set<Action>) {
    !r.Ok() ==>
      && |r.trace| > 0
      && r.trace[|r.trace| - 1] in failing
      && r.fault == Some(ActionFailed(r.trace[|r.trace| - 1]))
  }

  /** A run that completed ended on `last`. */
  predicate EndsOn(r: Run, last: Action) {
    r.Ok() ==> |r.trace| > 0 && r.trace[|r.trace| - 1] == last
  }

  /** Chaining keeps both shapes: the chain raises on its last action, and it
      ends where its second run ends. */
  lemma ThenKeepsShape(a: Run, b: Run, failing: set<Action>, last: Action)
    requires RaisedOnLast(a, failing) && RaisedOnLast(b, failing)
    requires EndsOn(b, last)
    ensures RaisedOnLast(Then(a, b), failing)
    ensures EndsOn(Then(a, b), last)
  {
    if a.Ok() {
      var r := Then(a, b);
      if |b.trace| > 0 {
        assert r.trace[|r.trace| - 1] == b.trace[|b.trace| - 1];
      }
    }
  }

  lemma PerformAllCons(a: Action, rest: seq<Action>, failing: set<Action>)
    ensures PerformAll([a] + rest, failing) == Then(Perform(a, failing), PerformAll(rest, failing))
  {
    assert ([a] + rest)[1..] == rest;
  }

  /** Chaining is associative. */
  lemma ThenAssoc(a: Run, b: Run, c: Run)
    ensures Then(Then(a, b), c) == Then(a, Then(b, c))
  {
  }

  /** How many times `a` occurs in `trace`. */
  function Count(trace: seq<Action>, a: Action): nat
    decreases |trace|
  {
    if |trace| == 0 then 0
    else (if trace[0] == a then 1 else 0) + Count(trace[1..], a)
  }

  lemma {:induction false} CountAppend(s: seq<Action>, t: seq<Action>, a: Action)
    ensures Count(s + t, a) == Count(s, a) + Count(t, a)
    decreases |s|
  {
    if |s| == 0 {
      assert s + t == t;
    } else {
      assert (s + t)[1..] == s[1..] + t;
      CountAppend(s[1..], t, a);
    }
  }

  lemma {:induction false} CountAbsent(s: seq<Action>, a: Action)
    requires a !in s
    ensures Count(s, a) == 0
    decreases |s|
  {
    if |s| > 0 {
      CountAbsent(s[1..], a);
    }
  }
}
