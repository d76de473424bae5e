/** The worker's JSON-RPC client: a table of pending requests, settled by responses, aborts, send
    failures and worker exits. */
module Rpc {
  import opened Common

  datatype Outcome = Resolved | RemoteFailure | Aborted | SendFailed | WorkerGone

  datatype Settlement = Settlement(id: nat, outcome: Outcome)

  /** `pending` maps an id to whether its caller can abort it; `settled` is the history of promises. */
  datatype State = State(pending: map<nat, bool>, nextId: nat, settled: seq<Settlement>)

  /** What happens around the client. A response may carry any id, late or unknown. */
  datatype Action =
    | Call(alreadyAborted: bool, abortable: bool, sendFails: bool)
    | Response(id: nat, ok: bool)
    | MalformedLine
    | AbortSignal(id: nat)
    | WorkerExit

  const INITIAL := State(map[], 0, [])

  function Settle(s: State, id: nat, outcome: Outcome): State {
    s.(pending := s.pending - {id}, settled := s.settled + [Settlement(id, outcome)])
  }

  /** Rejects the pending ids up to n in the order they were issued. */
  function RejectUpTo(s: State, n: nat): State {
    if n == 0 then s
    else
      var before := RejectUpTo(s, n - 1);
      if n in before.pending then Settle(before, n, WorkerGone) else before
  }

  function Step(s: State, a: Action): State {
    match a
    case Call(alreadyAborted, abortable, sendFails) =>
      if alreadyAborted then s
      else
        var id := s.nextId + 1;
        var issued := s.(nextId := id, pending := s.pending[id := abortable]);
        if sendFails then Settle(issued, id, SendFailed) else issued
    case Response(id, ok) =>
      if id in s.pending then Settle(s, id, if ok then Resolved else RemoteFailure) else s
    case MalformedLine => s
    case AbortSignal(id) => if id in s.pending && s.pending[id] then Settle(s, id, Aborted) else s
    case WorkerExit => RejectUpTo(s, s.nextId).(pending := map[])
  }

  /** A line from the worker. The JSON value null has no id to look up. */
  datatype Line = Malformed | NullValue | Message(id: nat, ok: bool)

  class RpcClient {
    var pending: map<nat, bool>
    var nextId: nat
    ghost var settled: seq<Settlement>

    ghost function Current(): State
      reads this
    {
      State(pending, nextId, settled)
    }

    constructor ()
      ensures Current() == INITIAL
    {
      pending, nextId, settled := map[], 0, [];
    }

    method Finish(id: nat, ghost outcome: Outcome)
      modifies this
      ensures Current() == Settle(old(Current()), id, outcome)
    {
      pending := pending - {id};
      settled := settled + [Settlement(id, outcome)];
    }

    method RpcCall(alreadyAborted: bool, abortable: bool, sendFails: bool) returns (issued: Option<nat>)
      modifies this
      ensures Current() == Step(old(Current()), Call(alreadyAborted, abortable, sendFails))
      ensures issued == if alreadyAborted then None else Some(old(nextId) + 1)
    {
      if alreadyAborted {
        return None;
      }
      nextId := nextId + 1;
      var id := nextId;
      pending := pending[id := abortable];
      if sendFails {
        Finish(id, SendFailed);
      }
      return Some(id);
    }

    method HandleRpcLine(line: Line) returns (raised: bool)
      modifies this
      ensures Current() == if line.Message? then Step(old(Current()), Response(line.id, line.ok)) else old(Current())
      ensures raised <==> line.NullValue?
    {
      match line
      case Malformed =>
        return false;
      case NullValue =>
        return true;
      case Message(id, ok) =>
        if id in pending {
          Finish(id, if ok then Resolved else RemoteFailure);
        }
        return false;
    }

    method OnAbort(id: nat)
      modifies this
      ensures Current() == Step(old(Current()), AbortSignal(id))
    {
      if id in pending && pending[id] {
        Finish(id, Aborted);
      }
    }

    method RejectAllPending()
      modifies this
      ensures Current() == Step(old(Current()), WorkerExit) && pending == map[]
    {
      for k := 0 to nextId
        invariant nextId == old(nextId) && Current() == RejectUpTo(old(Current()), k)
      {
        if k + 1 in pending {
          Finish(k + 1, WorkerGone);
        }
      }
      pending := map[];
    }
  }

  // ---- Every run ----

  function Run(actions: seq<Action>): State {
    if actions == [] then INITIAL else Step(Run(actions[..|actions| - 1]), actions[|actions| - 1])
  }

  ghost predicate SettledOnce(settled: seq<Settlement>) {
    forall i, j :: 0 <= i < j < |settled| ==> settled[i].id != settled[j].id
  }

  predicate IsSettled(settled: seq<Settlement>, id: nat) {
    exists x <- settled :: x.id == id
  }

  /** Every issued id is pending or settled, never both, and no promise is settled twice. */
  ghost predicate Inv(s: State) {
    && (forall id: nat :: 1 <= id <= s.nextId <==> (id in s.pending || IsSettled(s.settled, id)))
    && (forall id :: id in s.pending ==> !IsSettled(s.settled, id))
    && SettledOnce(s.settled)
  }

  lemma SettleKeeps(s: State, id: nat, outcome: Outcome)
    requires Inv(s) && id in s.pending
    ensures Inv(Settle(s, id, outcome))
  {
    var next := Settle(s, id, outcome);
    var x := Settlement(id, outcome);
    assert x in next.settled;
    forall k ensures IsSettled(next.settled, k) <==> k == id || IsSettled(s.settled, k) {
      assert forall y <- s.settled :: y in next.settled;
    }
    forall i, j | 0 <= i < j < |next.settled| ensures next.settled[i].id != next.settled[j].id {
      if j == |s.settled| {
        assert s.settled[i] in s.settled;
      }
    }
  }

  lemma {:induction false} RejectKeeps(s: State, n: nat)
    requires Inv(s)
    ensures Inv(RejectUpTo(s, n)) && RejectUpTo(s, n).nextId == s.nextId
    ensures forall id :: id in RejectUpTo(s, n).pending <==> id in s.pending && id > n
  {
    hide Inv;
    if n > 0 {
      RejectKeeps(s, n - 1);
      var before := RejectUpTo(s, n - 1);
      if n in before.pending {
        SettleKeeps(before, n, WorkerGone);
      }
    } else {
      PendingArePositive(s);
    }
  }

  lemma PendingArePositive(s: State)
    requires Inv(s)
    ensures forall id <- s.pending :: 1 <= id <= s.nextId
  {}

  lemma IssueKeeps(s: State, abortable: bool)
    requires Inv(s)
    ensures Inv(s.(nextId := s.nextId + 1, pending := s.pending[s.nextId + 1 := abortable]))
  {
    assert s.nextId + 1 !in s.pending && !IsSettled(s.settled, s.nextId + 1);
  }

  lemma StepKeeps(s: State, a: Action)
    requires Inv(s)
    ensures Inv(Step(s, a)) && s.nextId <= Step(s, a).nextId
    ensures a.WorkerExit? ==> Step(s, a).pending == map[]
  {
    hide Inv;
    match a {
      case Call(alreadyAborted, abortable, sendFails) =>
        if !alreadyAborted {
          IssueKeeps(s, abortable);
          if sendFails {
            SettleKeeps(s.(nextId := s.nextId + 1, pending := s.pending[s.nextId + 1 := abortable]), s.nextId + 1,
                        SendFailed);
          }
        }
      case Response(id, ok) =>
        if id in s.pending {
          SettleKeeps(s, id, if ok then Resolved else RemoteFailure);
        }
      case MalformedLine =>
      case AbortSignal(id) =>
        if id in s.pending && s.pending[id] {
          SettleKeeps(s, id, Aborted);
        }
      case WorkerExit =>
        RejectKeeps(s, s.nextId);
        PendingArePositive(s);
        assert RejectUpTo(s, s.nextId).pending == map[];
    }
  }

  /** Main result: in every interleaving each issued id is pending or settled exactly once. */
  lemma {:induction false} EveryRunSettlesOnce(actions: seq<Action>)
    ensures Inv(Run(actions))
  {
    hide Inv;
    if actions == [] {
      InitialHolds();
    } else {
      EveryRunSettlesOnce(actions[..|actions| - 1]);
      StepKeeps(Run(actions[..|actions| - 1]), actions[|actions| - 1]);
    }
  }

  lemma InitialHolds()
    ensures Inv(INITIAL)
  {}

  /** A worker exit leaves nothing pending, and ids go on rising past every id issued before. */
  lemma ExitEmptiesTheTable(actions: seq<Action>)
    ensures Run(actions + [WorkerExit]).pending == map[]
    ensures Run(actions + [WorkerExit]).nextId == Run(actions).nextId
  {
    EveryRunSettlesOnce(actions);
    assert (actions + [WorkerExit])[..|actions|] == actions;
    StepKeeps(Run(actions), WorkerExit);
    RejectKeeps(Run(actions), Run(actions).nextId);
  }

  /** What was settled stays settled the same way, and a fresh call never reuses an id: not a pending
      one, and not one settled under an earlier worker. */
  lemma HistoryOnlyGrows(s: State, a: Action)
    requires Inv(s)
    ensures s.settled <= Step(s, a).settled
    ensures a.Call? && !a.alreadyAborted ==> s.nextId + 1 !in s.pending && !IsSettled(s.settled, s.nextId + 1)
    ensures a.Response? && a.id !in s.pending ==> Step(s, a) == s
  {
    if a.WorkerExit? {
      RejectGrows(s, s.nextId);
    }
  }

  lemma {:induction false} RejectGrows(s: State, n: nat)
    ensures s.settled <= RejectUpTo(s, n).settled
  {
    if n > 0 {
      RejectGrows(s, n - 1);
    }
  }

  // ---- What settles a promise ----

  /** The action that settles a promise this way, in the state it meets. */
  predicate Causes(s: State, a: Action, x: Settlement) {
    match x.outcome
    case Resolved => a == Response(x.id, true) && x.id in s.pending
    case RemoteFailure => a == Response(x.id, false) && x.id in s.pending
    case Aborted => a == AbortSignal(x.id) && x.id in s.pending && s.pending[x.id]
    case SendFailed => a.Call? && !a.alreadyAborted && a.sendFails && x.id == s.nextId + 1
    case WorkerGone => a == WorkerExit && x.id in s.pending
  }

  lemma {:induction false} RejectSettles(s: State, n: nat)
    ensures s.settled <= RejectUpTo(s, n).settled
    ensures forall p :: |s.settled| <= p < |RejectUpTo(s, n).settled| ==>
      RejectUpTo(s, n).settled[p].outcome == WorkerGone && RejectUpTo(s, n).settled[p].id in s.pending
    ensures forall id <- s.pending ::
      id in RejectUpTo(s, n).pending || Settlement(id, WorkerGone) in RejectUpTo(s, n).settled
    ensures forall id <- RejectUpTo(s, n).pending :: id in s.pending
  {
    if n > 0 {
      RejectSettles(s, n - 1);
    }
  }

  lemma ExitSettles(s: State, x: Settlement)
    requires Inv(s) && x.outcome == WorkerGone && x.id in s.pending
    ensures s.settled <= RejectUpTo(s, s.nextId).settled
    ensures x in RejectUpTo(s, s.nextId).settled[|s.settled|..]
  {
    RejectSettles(s, s.nextId);
    RejectKeeps(s, s.nextId);
    PendingArePositive(s);
    var settled := RejectUpTo(s, s.nextId).settled;
    assert x in settled && x !in s.settled;
    hide RejectUpTo, Inv;
    var p :| 0 <= p < |settled| && settled[p] == x;
    assert settled[p] == settled[|s.settled|..][p - |s.settled|];
  }

  /** A step settles exactly what it is the cause of. */
  lemma StepSettles(s: State, a: Action)
    requires Inv(s)
    ensures s.settled <= Step(s, a).settled
    ensures forall p :: |s.settled| <= p < |Step(s, a).settled| ==> Causes(s, a, Step(s, a).settled[p])
    ensures forall x :: Causes(s, a, x) ==> x in Step(s, a).settled[|s.settled|..]
  {
    hide Inv, RejectUpTo;
    if a.WorkerExit? {
      RejectSettles(s, s.nextId);
      forall x | Causes(s, a, x) ensures x in Step(s, a).settled[|s.settled|..] {
        ExitSettles(s, x);
      }
    } else {
      var settled := Step(s, a).settled;
      assert |settled| <= |s.settled| + 1;
      forall x | Causes(s, a, x) ensures x in settled[|s.settled|..] {
        assert settled[|s.settled|..] == [x];
      }
    }
  }

  lemma {:induction false} PrefixSettles(actions: seq<Action>, k: nat)
    requires k <= |actions|
    ensures Run(actions[..k]).settled <= Run(actions).settled
  {
    if k < |actions| {
      var n := |actions| - 1;
      assert actions[..n][..k] == actions[..k];
      PrefixSettles(actions[..n], k);
      EveryRunSettlesOnce(actions[..n]);
      StepSettles(Run(actions[..n]), actions[n]);
    } else {
      assert actions[..k] == actions;
    }
  }

  /** Action `k` made settlement `p`, and is the cause of it. */
  predicate SettledBy(actions: seq<Action>, k: nat, p: nat)
    requires k < |actions| && p < |Run(actions).settled|
  {
    && |Run(actions[..k]).settled| <= p < |Run(actions[..k + 1]).settled|
    && Causes(Run(actions[..k]), actions[k], Run(actions).settled[p])
  }

  /** Main result: every settlement was made by the one action that causes it, at the moment that action
      met its promise pending: a value or a remote error only by a response of the same id, an abort
      only by the promise's own signal, a failed send only by its own call, the rest by a worker exit. */
  lemma {:induction false} EverySettlementHasItsCause(actions: seq<Action>, p: nat)
    requires p < |Run(actions).settled|
    ensures exists k :: 0 <= k < |actions| && SettledBy(actions, k, p)
  {
    var n := |actions| - 1;
    var before := Run(actions[..n]);
    assert actions[..n + 1] == actions;
    EveryRunSettlesOnce(actions[..n]);
    StepSettles(before, actions[n]);
    if p < |before.settled| {
      EverySettlementHasItsCause(actions[..n], p);
      var k :| 0 <= k < n && SettledBy(actions[..n], k, p);
      assert actions[..n][..k] == actions[..k] && actions[..n][..k + 1] == actions[..k + 1];
      assert SettledBy(actions, k, p);
    } else {
      assert SettledBy(actions, n, p);
    }
  }

  /** And every action that is the cause of a settlement makes it, for good. */
  lemma CausedIsSettled(actions: seq<Action>, k: nat, x: Settlement)
    requires k < |actions| && Causes(Run(actions[..k]), actions[k], x)
    ensures x in Run(actions).settled
  {
    var before := Run(actions[..k]);
    EveryRunSettlesOnce(actions[..k]);
    StepSettles(before, actions[k]);
    assert actions[..k + 1][..k] == actions[..k];
    PrefixSettles(actions, k + 1);
  }

  /** The call that issued an id, with its caller's signal or without. */
  ghost predicate IssuedBy(actions: seq<Action>, k: nat, id: nat, abortable: bool)
    requires k < |actions|
  {
    actions[k] == Call(false, abortable, false) && id == Run(actions[..k]).nextId + 1
  }

  /** What is pending was issued by one call, and can be aborted exactly if that call can. */
  lemma {:induction false} PendingByItsCall(actions: seq<Action>, id: nat)
    requires id in Run(actions).pending
    ensures exists k :: 0 <= k < |actions| && IssuedBy(actions, k, id, Run(actions).pending[id])
  {
    var n := |actions| - 1;
    var before := Run(actions[..n]);
    EveryRunSettlesOnce(actions[..n]);
    StepKeeps(before, actions[n]);
    if id in before.pending {
      PendingByItsCall(actions[..n], id);
      var k :| 0 <= k < n && IssuedBy(actions[..n], k, id, before.pending[id]);
      assert actions[..n][..k] == actions[..k];
      NotReissued(before, actions[n], id);
      assert IssuedBy(actions, k, id, before.pending[id]);
    } else {
      assert IssuedBy(actions, n, id, Run(actions).pending[id]);
    }
  }

  lemma NotReissued(s: State, a: Action, id: nat)
    requires Inv(s) && id in s.pending && id in Step(s, a).pending
    ensures Step(s, a).pending[id] == s.pending[id]
  {
    PendingArePositive(s);
    hide RejectUpTo;
  }
}
