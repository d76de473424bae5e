/** The procurement workflow pages: every step is gated by a token that only the step before it
    serves. */
module Workflow {
  import opened Common

  /** The generated workflow: option scores and the token of every step. */
  datatype Setup = Setup(scores: seq<seq<int>>, correct: seq<nat>, tokens: seq<string>)

  function Steps(w: Setup): nat {
    |w.scores|
  }

  function BestUpTo(scores: seq<int>, n: nat): (best: nat)
    requires 0 < n <= |scores|
    ensures best < n && forall j :: 0 <= j < n ==> scores[j] <= scores[best] && (j < best ==> scores[j] < scores[best])
  {
    if n == 1 then 0
    else
      var before := BestUpTo(scores, n - 1);
      if scores[n - 1] > scores[before] then n - 1 else before
  }

  function BestOption(scores: seq<int>): (best: nat)
    requires scores != []
    ensures best < |scores| && forall j :: 0 <= j < |scores| ==> scores[j] <= scores[best]
  {
    BestUpTo(scores, |scores|)
  }

  /** Correct choices are the highest scores; tokens are distinct and never empty. */
  ghost predicate Valid(w: Setup) {
    && Steps(w) > 0 && |w.correct| == Steps(w) == |w.tokens|
    && (forall k :: 0 <= k < Steps(w) ==> w.scores[k] != [] && w.correct[k] == BestOption(w.scores[k]))
    && Unique(w.tokens) && "" !in w.tokens
  }

  /** The generator draws one score list per step; the token of a step commits to the correct
      choices before it. */
  method Generate(drawn: seq<seq<int>>, token: seq<nat> -> string) returns (w: Setup)
    requires drawn != [] && forall k :: 0 <= k < |drawn| ==> drawn[k] != []
    requires forall a, b :: token(a) == token(b) ==> a == b
    requires forall a :: token(a) != ""
    ensures Valid(w) && w.scores == drawn
    ensures forall k :: 0 <= k < |drawn| ==> w.tokens[k] == token(w.correct[..k])
  {
    var correct: seq<nat> := [];
    for k := 0 to |drawn|
      invariant |correct| == k
      invariant forall j :: 0 <= j < k ==> correct[j] == BestOption(drawn[j])
    {
      correct := correct + [BestOption(drawn[k])];
    }
    var tokens: seq<string> := [];
    for k := 0 to |drawn|
      invariant |tokens| == k
      invariant forall j :: 0 <= j < k ==> tokens[j] == token(correct[..j])
    {
      tokens := tokens + [token(correct[..k])];
    }
    assert Unique(tokens) by {
      forall i, j | 0 <= i < j < |tokens| ensures tokens[i] != tokens[j] {
        assert |correct[..i]| != |correct[..j]|;
      }
    }
    w := Setup(drawn, correct, tokens);
  }

  // ---- Serving a page ----

  /** A step request without a state parameter carries the empty one; a choice that is not a number
      counts as none. */
  datatype Request = Index | Step(step: int, state: string, choice: Option<int>)

  datatype Page =
    | Options(step: nat, state: string)
    | InvalidStep
    | StateError
    | SelectionError(step: nat, state: string)
    | Complete

  function Serve(w: Setup, r: Request): Page
    requires Valid(w)
  {
    match r
    case Index => Options(0, w.tokens[0])
    case Step(step, state, choice) =>
      if step < 0 || step >= Steps(w) then InvalidStep
      else if state != w.tokens[step] then StateError
      else if choice.None? then Options(step, w.tokens[step])
      else if choice.value != w.correct[step] then SelectionError(step, w.tokens[step])
      else if step + 1 >= Steps(w) then Complete
      else Options(step + 1, w.tokens[step + 1])
  }

  // ---- A client that invents no tokens ----

  /** The tokens on a page's links. */
  function Served(p: Page): set<string> {
    if p.Options? || p.SelectionError? then {p.state} else {}
  }

  function Known(w: Setup, trace: seq<Request>): set<string>
    requires Valid(w)
  {
    if trace == [] then {""}
    else Known(w, trace[..|trace| - 1]) + Served(Serve(w, trace[|trace| - 1]))
  }

  /** Every request sends only a token that some earlier page served, or none. */
  ghost predicate Honest(w: Setup, trace: seq<Request>)
    requires Valid(w)
  {
    forall i :: 0 <= i < |trace| && trace[i].Step? ==> trace[i].state in Known(w, trace[..i])
  }

  predicate Passes(w: Setup, r: Request, k: nat)
    requires Valid(w) && k < Steps(w)
  {
    r == Step(k, w.tokens[k], Some(w.correct[k]))
  }

  /** The trace answers steps 0 to k-1 correctly in that order, with anything in between. */
  ghost predicate Answered(w: Setup, trace: seq<Request>, k: nat)
    requires Valid(w) && k <= Steps(w)
  {
    k == 0 || exists i :: 0 <= i < |trace| && Passes(w, trace[i], k - 1) && Answered(w, trace[..i], k - 1)
  }

  lemma AnsweredLater(w: Setup, trace: seq<Request>, n: nat, k: nat)
    requires Valid(w) && k <= Steps(w) && n <= |trace| && Answered(w, trace[..n], k)
    ensures Answered(w, trace, k)
  {
    if k > 0 {
      var i :| 0 <= i < n && Passes(w, trace[..n][i], k - 1) && Answered(w, trace[..n][..i], k - 1);
      assert trace[..n][..i] == trace[..i];
      assert Passes(w, trace[i], k - 1);
    }
  }

  lemma HonestPrefix(w: Setup, trace: seq<Request>, n: nat)
    requires Valid(w) && Honest(w, trace) && n <= |trace|
    ensures Honest(w, trace[..n])
  {
    forall i | 0 <= i < n && trace[..n][i].Step? ensures trace[..n][i].state in Known(w, trace[..n][..i]) {
      assert trace[..n][..i] == trace[..i];
    }
  }

  /** Knowing the token of step k proves that all steps before it were answered. */
  lemma {:induction false} TokensAreEarned(w: Setup, trace: seq<Request>, k: nat)
    requires Valid(w) && Honest(w, trace) && k < Steps(w) && w.tokens[k] in Known(w, trace)
    ensures Answered(w, trace, k)
    decreases |trace|
  {
    hide Serve;
    if trace != [] && k > 0 {
      var n := |trace| - 1;
      HonestPrefix(w, trace, n);
      if w.tokens[k] in Known(w, trace[..n]) {
        TokensAreEarned(w, trace[..n], k);
        AnsweredLater(w, trace, n, k);
      } else {
        ServedToken(w, trace[n], k);
        assert trace[n].state in Known(w, trace[..n]);
        TokensAreEarned(w, trace[..n], k - 1);
        assert Passes(w, trace[n], k - 1);
      }
    }
  }

  /** A page that serves the token of a later step was asked for with that step's own token, or with
      a correct answer to the step before. */
  lemma ServedToken(w: Setup, r: Request, k: nat)
    requires Valid(w) && 0 < k < Steps(w) && w.tokens[k] in Served(Serve(w, r))
    ensures r.Step? && 0 <= r.step < Steps(w) && r.state == w.tokens[r.step]
    ensures r.step == k || (r.step == k - 1 && Passes(w, r, k - 1))
  {
    assert w.tokens[k] != w.tokens[0];
  }

  /** Main result: whatever detours, retries and stale requests a client makes, if it sends only
      tokens it was served it sees the verification key only after answering every step correctly
      in order. */
  lemma CompletionIsEarned(w: Setup, trace: seq<Request>)
    requires Valid(w) && Honest(w, trace) && trace != []
    requires Serve(w, trace[|trace| - 1]) == Complete
    ensures Answered(w, trace, Steps(w))
  {
    var n := |trace| - 1;
    var last := trace[n];
    assert last.Step? && Passes(w, last, Steps(w) - 1);
    assert w.tokens[Steps(w) - 1] in Known(w, trace[..n]) by {
      assert trace[n].state in Known(w, trace[..n]);
    }
    HonestPrefix(w, trace, n);
    TokensAreEarned(w, trace[..n], Steps(w) - 1);
  }

  /** Answering k steps takes at least k requests. */
  lemma {:induction false} AnswersTakeRequests(w: Setup, trace: seq<Request>, k: nat)
    requires Valid(w) && k <= Steps(w) && Answered(w, trace, k)
    ensures |trace| >= k
    decreases k
  {
    if k > 0 {
      var i :| 0 <= i < |trace| && Passes(w, trace[i], k - 1) && Answered(w, trace[..i], k - 1);
      AnswersTakeRequests(w, trace[..i], k - 1);
    }
  }

  // ---- The intended path ----

  /** Takes the link with the highest score from an options page. */
  function ClickBest(w: Setup, p: Page): Request
    requires Valid(w) && p.Options? && p.step < Steps(w)
  {
    Step(p.step, p.state, Some(BestOption(w.scores[p.step])))
  }

  /** The page after n clicks on the highest score, starting from the index. */
  function AfterClicks(w: Setup, n: nat): Page
    requires Valid(w)
  {
    if n == 0 then Serve(w, Index)
    else
      var p := AfterClicks(w, n - 1);
      if p.Options? && p.step < Steps(w) then Serve(w, ClickBest(w, p)) else p
  }

  lemma {:induction false} ClicksAdvance(w: Setup, n: nat)
    requires Valid(w) && n < Steps(w)
    ensures AfterClicks(w, n) == Options(n, w.tokens[n])
  {
    if n > 0 {
      ClicksAdvance(w, n - 1);
    }
  }

  /** Main result: always taking the highest score completes the workflow in exactly as many clicks
      as there are steps, the fewest any honest client could need. */
  lemma HighestScoresFinish(w: Setup, n: nat)
    requires Valid(w)
    ensures AfterClicks(w, n) == Complete <==> n >= Steps(w)
  {
    if n < Steps(w) {
      ClicksAdvance(w, n);
    } else {
      ClicksAdvance(w, Steps(w) - 1);
      StaysComplete(w, n);
    }
  }

  lemma {:induction false} StaysComplete(w: Setup, n: nat)
    requires Valid(w) && n >= Steps(w) && AfterClicks(w, Steps(w) - 1) == Options(Steps(w) - 1, w.tokens[Steps(w) - 1])
    ensures AfterClicks(w, n) == Complete
  {
    if n > Steps(w) {
      StaysComplete(w, n - 1);
    }
  }

  /** The index, and then the right answer to each of the first n steps. */
  function RightAnswers(w: Setup, n: nat): seq<Request>
    requires Valid(w) && n <= Steps(w)
  {
    if n == 0 then [Index] else RightAnswers(w, n - 1) + [Step(n - 1, w.tokens[n - 1], Some(w.correct[n - 1]))]
  }

  /** And honest clients do finish: answering right sends only served tokens, opens one step after the other and
      completes with the last. */
  lemma {:induction false} RightAnswersFinish(w: Setup, n: nat)
    requires Valid(w) && n <= Steps(w)
    ensures var trace := RightAnswers(w, n);
      && |trace| == n + 1 && Honest(w, trace) && Answered(w, trace, n)
      && Serve(w, trace[n]) == (if n == Steps(w) then Complete else Options(n, w.tokens[n]))
      && (n < Steps(w) ==> w.tokens[n] in Known(w, trace))
  {
    hide Serve, Valid, Known, Honest, Answered;
    if n == 0 {
      FirstPage(w);
    } else {
      RightAnswersFinish(w, n - 1);
      OneAnswerMore(w, RightAnswers(w, n - 1), n - 1);
    }
  }

  lemma FirstPage(w: Setup)
    requires Valid(w)
    ensures Steps(w) > 0 && Serve(w, Index) == Options(0, w.tokens[0])
    ensures Honest(w, [Index]) && Answered(w, [Index], 0) && w.tokens[0] in Known(w, [Index])
  {
    assert [Index][..0] == [];
  }

  lemma OneAnswerMore(w: Setup, before: seq<Request>, k: nat)
    requires Valid(w) && k < Steps(w) && before != [] && Honest(w, before) && Answered(w, before, k)
    requires w.tokens[k] in Known(w, before)
    ensures var last := Step(k, w.tokens[k], Some(w.correct[k]));
      var trace := before + [last];
      && Honest(w, trace) && Answered(w, trace, k + 1)
      && Serve(w, last) == (if k + 1 == Steps(w) then Complete else Options(k + 1, w.tokens[k + 1]))
      && (k + 1 < Steps(w) ==> w.tokens[k + 1] in Known(w, trace))
  {
    hide Answered;
    var n, last := |before|, Step(k, w.tokens[k], Some(w.correct[k]));
    var trace := before + [last];
    assert trace[..n] == before;
    StillHonest(w, before, last);
    Passed(w, trace, n, k);
  }

  lemma StillHonest(w: Setup, before: seq<Request>, last: Request)
    requires Valid(w) && Honest(w, before) && (last.Step? ==> last.state in Known(w, before))
    ensures Honest(w, before + [last])
  {
    hide Known, Valid;
    var trace := before + [last];
    forall i | 0 <= i < |trace| && trace[i].Step? ensures trace[i].state in Known(w, trace[..i]) {
      assert trace[..i] == before[..i] && (i < |before| ==> trace[i] == before[i]);
      assert before[..|before|] == before;
    }
  }

  lemma Passed(w: Setup, trace: seq<Request>, i: nat, k: nat)
    requires Valid(w) && k < Steps(w) && i < |trace| && Passes(w, trace[i], k) && Answered(w, trace[..i], k)
    ensures Answered(w, trace, k + 1)
  {}
}
