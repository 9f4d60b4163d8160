/** Invariants of every serialised run of the intent handlers. */
module IntentRuns {
  import opened Bytes
  import opened IntentModel

  // ----- One intent -----

  ghost predicate DistinctApprovers(a: seq<string>) {
    forall i, j :: 0 <= i < j < |a| ==> a[i] != a[j]
  }

  predicate PastApproval(st: Status) {
    st == Approved || st == Executing || st == Sent || st == Failed
  }

  /** Exact approval counts. A retry of a multi-signature intent keeps its approvals, so each retry
      takes one more approver, not a new quorum. */
  predicate ApprovalsExact(i: Intent) {
    var n, r, k := |i.approvedBy|, i.requiredSigs, i.retryCount;
    if r == 1 then
      (PastApproval(i.status) ==> n == 1) &&
      (i.status == Draft || i.status == Rejected ==> n == 0 && k == 0) &&
      (i.status == Expired ==> n <= 1)
    else
      (PastApproval(i.status) ==> n == r + k) &&
      (i.status == Draft || i.status == Rejected ==> if k == 0 then n < r else n == r + k - 1) &&
      (i.status == Expired ==> if k == 0 then n <= r else n == r + k || n == r + k - 1)
  }

  ghost predicate Good(i: Intent) {
    && 1 <= i.requiredSigs && 1 <= i.maxRetries && 0 <= i.retryCount <= i.maxRetries
    && i.status != Pending && i.status != Signed && i.status != PermanentFail
    && DistinctApprovers(i.approvedBy) && ApprovalsExact(i)
  }

  function Rank(st: Status): (r: nat) {
    match st
    case Draft => 4
    case Pending => 4
    case Approved => 3
    case Executing => 2
    case Failed => 1
    case PermanentFail => 1
    case _ => 0
  }

  function MissingApprovals(i: Intent): (r: nat) {
    if |i.approvedBy| < i.requiredSigs then i.requiredSigs - |i.approvedBy| else 0
  }

  /** Strictly decreasing along the life of an intent: retries left, then status, then approvals missing. */
  function Measure(i: Intent): (r: int) {
    5 * (i.maxRetries - i.retryCount) + Rank(i.status) + MissingApprovals(i)
  }

  /** Sends an intent may have behind it, given where it stands. */
  function SendsAllowed(i: Intent): (r: int) {
    i.retryCount + if i.status == Executing || i.status == Sent || i.status == Failed then 1 else 0
  }

  predicate Closed(st: Status) {
    st == Sent || st == Rejected || st == Expired
  }

  /** The writes that handlers make to a stored intent. */
  ghost predicate LegalWrite(i: Intent, j: Intent) {
    && j.id == i.id && j.requiredSigs == i.requiredSigs && j.maxRetries == i.maxRetries
    && (ApprovalWrite(i, j) || StatusWrite(i, j) || RetryWrite(i, j))
  }

  ghost predicate ApprovalWrite(i: Intent, j: Intent) {
    && i.status == Draft && j.retryCount == i.retryCount
    && (exists a :: a !in i.approvedBy && j.approvedBy == i.approvedBy + [a])
    && j.status == (if |j.approvedBy| >= i.requiredSigs then Approved else Draft)
  }

  predicate StatusWrite(i: Intent, j: Intent) {
    && j.approvedBy == i.approvedBy && j.retryCount == i.retryCount
    && (match j.status
        case Executing => i.status == Approved
        case Failed => i.status == Approved || i.status == Executing
        case Sent => i.status == Executing
        case Rejected => i.status == Draft
        case Expired => i.status == Draft || i.status == Approved
        case _ => false)
  }

  predicate RetryWrite(i: Intent, j: Intent) {
    && i.status == Failed && i.retryCount < i.maxRetries
    && j.approvedBy == i.approvedBy && j.retryCount == i.retryCount + 1
    && j.status == (if i.requiredSigs > 1 then Draft else Approved)
  }

  lemma ApproversGrow(a: seq<string>, x: string)
    requires DistinctApprovers(a) && x !in a
    ensures DistinctApprovers(a + [x])
  {
  }

  /** Every write keeps an intent good and strictly decreases its measure. */
  lemma LegalWriteProgress(i: Intent, j: Intent)
    requires Good(i) && LegalWrite(i, j)
    ensures Good(j)
    ensures 0 <= Measure(j) < Measure(i)
  {
    if ApprovalWrite(i, j) {
      var a :| a !in i.approvedBy && j.approvedBy == i.approvedBy + [a];
      ApproversGrow(i.approvedBy, a);
    }
  }

  /** Only the "executing" write raises the number of sends allowed; closed intents are never written. */
  lemma LegalWriteSends(i: Intent, j: Intent)
    requires Good(i) && LegalWrite(i, j)
    ensures SendsAllowed(i) <= SendsAllowed(j)
    ensures !Closed(i.status)
  {
  }

  // ----- The log -----

  function Sends(log: seq<Event>, id: string): (r: nat) {
    if log == [] then 0 else
      Sends(log[..|log| - 1], id) + if log[|log| - 1] == Broadcast(id) then 1 else 0
  }

  function Writes(log: seq<Event>, id: string): (r: nat) {
    if log == [] then 0 else
      var e := log[|log| - 1];
      Writes(log[..|log| - 1], id) + if e.Wrote? && e.id == id then 1 else 0
  }

  lemma CountSnoc(log: seq<Event>, e: Event, id: string)
    ensures Sends(log + [e], id) == Sends(log, id) + if e == Broadcast(id) then 1 else 0
    ensures Writes(log + [e], id) == Writes(log, id) + if e.Wrote? && e.id == id then 1 else 0
  {
    assert (log + [e])[..|log|] == log;
  }

  /** Each send directly follows the persisted "executing" write of its intent. */
  ghost predicate SendsFollowWrite(log: seq<Event>) {
    forall k :: 0 <= k < |log| && log[k].Broadcast? ==> 0 < k && log[k - 1] == Wrote(log[k].id, Executing)
  }

  ghost predicate ClosedIn(log: seq<Event>, id: string) {
    exists k :: 0 <= k < |log| && log[k].Wrote? && log[k].id == id && Closed(log[k].status)
  }

  /** Nothing is sent for an intent after a write that closes it. */
  ghost predicate QuietAfterClose(log: seq<Event>) {
    forall k :: 0 <= k < |log| && log[k].Broadcast? ==> !ClosedIn(log[..k], log[k].id)
  }

  ghost predicate LogGood(log: seq<Event>) {
    SendsFollowWrite(log) && QuietAfterClose(log)
  }

  lemma ClosedSnoc(log: seq<Event>, e: Event, id: string)
    ensures ClosedIn(log + [e], id) <==> ClosedIn(log, id) || (e.Wrote? && e.id == id && Closed(e.status))
  {
    var more := log + [e];
    if ClosedIn(log, id) {
      var k :| 0 <= k < |log| && log[k].Wrote? && log[k].id == id && Closed(log[k].status);
      assert more[k] == log[k];
    }
    if e.Wrote? && e.id == id && Closed(e.status) {
      assert more[|log|] == e;
    }
  }

  lemma LogGoodSnoc(log: seq<Event>, e: Event)
    requires LogGood(log)
    requires e.Broadcast? ==> log != [] && log[|log| - 1] == Wrote(e.id, Executing) && !ClosedIn(log, e.id)
    ensures LogGood(log + [e])
  {
    hide ClosedIn;
    var more := log + [e];
    forall k | 0 <= k < |more| && more[k].Broadcast?
      ensures 0 < k && more[k - 1] == Wrote(more[k].id, Executing) && !ClosedIn(more[..k], more[k].id)
    {
      assert more[..k] == if k < |log| then log[..k] else log;
    }
  }

  // ----- The service -----

  /** Writes an intent may see in its whole life. */
  function WriteBudget(i: Intent): (r: int) {
    5 * i.maxRetries + i.requiredSigs + 6
  }

  ghost predicate Tracked(s: Service, id: string)
    requires id in s.intents
  {
    var i := s.intents[id];
    && i.id == id && Good(i)
    && Sends(s.log, id) <= SendsAllowed(i)
    && Writes(s.log, id) + Measure(i) <= WriteBudget(i)
    && (ClosedIn(s.log, id) ==> Closed(i.status))
  }

  ghost predicate Untouched(s: Service, id: string) {
    Sends(s.log, id) == 0 && Writes(s.log, id) == 0 && !ClosedIn(s.log, id)
  }

  ghost predicate Inv(s: Service) {
    && LogGood(s.log)
    && (forall id :: id in s.intents ==> Tracked(s, id))
    && (forall id :: id !in s.intents ==> Untouched(s, id))
  }

  /** A legal write of a stored intent keeps the invariant. */
  lemma WriteKeeps(s: Service, j: Intent, ok: bool)
    requires Inv(s) && j.id in s.intents && LegalWrite(s.intents[j.id], j)
    ensures Inv(Save(s, j, ok))
  {
    if ok {
      hide LogGood, LegalWrite, Good, Measure, SendsAllowed, ClosedIn, Sends, Writes;
      var s' := Save(s, j, ok);
      var e := Wrote(j.id, j.status);
      LogGoodSnoc(s.log, e);
      forall id | id in s'.intents ensures Tracked(s', id) {
        CountSnoc(s.log, e, id);
        ClosedSnoc(s.log, e, id);
        if id == j.id {
          WrittenTracked(s, j);
        }
      }
      forall id | id !in s'.intents ensures Untouched(s', id) {
        CountSnoc(s.log, e, id);
        ClosedSnoc(s.log, e, id);
      }
    }
  }

  lemma WrittenTracked(s: Service, j: Intent)
    requires j.id in s.intents && Tracked(s, j.id) && LegalWrite(s.intents[j.id], j)
    ensures Tracked(Save(s, j, true), j.id)
  {
    hide LegalWrite, Good, Measure, SendsAllowed, ClosedIn, Sends, Writes;
    var i, e := s.intents[j.id], Wrote(j.id, j.status);
    LegalWriteProgress(i, j);
    LegalWriteSends(i, j);
    SameLimits(i, j);
    CountSnoc(s.log, e, j.id);
    ClosedSnoc(s.log, e, j.id);
  }

  lemma SameLimits(i: Intent, j: Intent)
    requires LegalWrite(i, j)
    ensures WriteBudget(i) == WriteBudget(j) && j.id == i.id
  {
  }

  /** A send right after the "executing" write, with the send budget not yet used up. */
  lemma SendKeeps(s: Service, id: string)
    requires Inv(s) && id in s.intents && s.intents[id].status == Executing
    requires Sends(s.log, id) <= s.intents[id].retryCount
    requires s.log != [] && s.log[|s.log| - 1] == Wrote(id, Executing)
    ensures Inv(s.(log := s.log + [Broadcast(id)]))
  {
    hide LogGood, Good, Measure, ClosedIn, Sends, Writes;
    var e := Broadcast(id);
    var s' := s.(log := s.log + [e]);
    LogGoodSnoc(s.log, e);
    forall x | x in s'.intents ensures Tracked(s', x) {
      CountSnoc(s.log, e, x);
      ClosedSnoc(s.log, e, x);
      assert Tracked(s, x);
    }
    forall x | x !in s'.intents ensures Untouched(s', x) {
      CountSnoc(s.log, e, x);
      ClosedSnoc(s.log, e, x);
      assert Untouched(s, x);
    }
  }

  // ----- The handlers -----

  lemma ApproveKeeps(s: Service, id: string, approver: string, now: nat, ok: bool)
    requires Inv(s)
    ensures Inv(ApproveIntent(s, id, approver, now, ok).service)
  {
    if id in s.intents {
      var i := s.intents[id];
      assert Tracked(s, id);
      if i.status == Draft && approver !in i.approvedBy {
        var approvers := i.approvedBy + [approver];
        var j := i.(approvedBy := approvers, updatedAt := now,
                    status := if |approvers| >= i.requiredSigs then Approved else i.status);
        assert ApprovalWrite(i, j);
        hide Inv;
        WriteKeeps(s, j, ok);
      }
    }
  }

  lemma StatusKeeps(s: Service, id: string, st: Status, txHash: string, error: string, now: nat, ok: bool)
    requires Inv(s) && id in s.intents && StatusWrite(s.intents[id], s.intents[id].(status := st))
    ensures Inv(UpdateIntentStatus(s, id, st, txHash, error, now, ok).service)
  {
    var j := WithStatus(s.intents[id], st, txHash, error, now);
    assert Tracked(s, id);
    assert StatusWrite(s.intents[id], j);
    hide Inv;
    WriteKeeps(s, j, ok);
  }

  lemma Stored(s: Service, id: string)
    requires Inv(s) && id in s.intents
    ensures s.intents[id].id == id && s.intents[id].status != PermanentFail
  {
    assert Tracked(s, id);
  }

  lemma RetryKeeps(s: Service, id: string, now: nat, ok: bool)
    requires Inv(s)
    ensures Inv(HandleRetry(s, id, now, ok).service)
  {
    hide Inv;
    if id in s.intents {
      var i := s.intents[id];
      Stored(s, id);
      if i.status == Failed && i.retryCount < i.maxRetries {
        var j := i.(retryCount := i.retryCount + 1, updatedAt := now, error := "",
                    status := if i.requiredSigs > 1 then Draft else Approved);
        assert RetryWrite(i, j);
        WriteKeeps(s, j, ok);
      }
    }
  }

  lemma RejectKeeps(s: Service, id: string, reason: string, now: nat, ok: bool)
    requires Inv(s)
    ensures Inv(HandleReject(s, id, reason, now, ok).service)
  {
    if id in s.intents {
      assert Tracked(s, id);
      if s.intents[id].status == Draft {
        StatusKeeps(s, id, Rejected, "", reason, now, ok);
      }
    }
  }

  lemma ExpireOneKeeps(s: Service, id: string, now: nat, ok: bool)
    requires Inv(s)
    ensures Inv(ExpireOne(s, id, now, ok))
  {
    if id in s.intents && Expirable(s.intents[id], now) {
      var i := s.intents[id];
      assert Tracked(s, id);
      var j := i.(status := Expired, updatedAt := now, error := "Intent expired due to timeout");
      assert StatusWrite(i, j);
      hide Inv;
      WriteKeeps(s, j, ok);
    }
  }

  lemma {:induction false} ExpireKeeps(s: Service, order: seq<string>, now: nat, ok: seq<bool>)
    requires Inv(s) && |ok| == |order|
    ensures Inv(ExpireIntents(s, order, now, ok))
    decreases |order|
  {
    hide Inv, ExpireOne;
    if order != [] {
      var n := |order| - 1;
      ExpireKeeps(s, order[..n], now, ok[..n]);
      ExpireOneKeeps(ExpireIntents(s, order[..n], now, ok[..n]), order[n], now, ok[n]);
    }
  }

  lemma FailKeeps(s: Service, id: string, env: Env)
    requires Inv(s) && id in s.intents && (s.intents[id].status == Approved || s.intents[id].status == Executing)
    ensures Inv(MarkFailed(s, id, env).service)
  {
    hide Inv;
    StatusKeeps(s, id, Failed, "", "error", env.now, env.failedOk);
  }

  /** Everything from the persisted "executing" write to the end of the execution. */
  lemma SendPhaseKeeps(s: Service, id: string, path: Path, env: Env)
    requires Inv(s) && id in s.intents && s.intents[id].status == Executing
    requires Sends(s.log, id) <= s.intents[id].retryCount
    requires s.log != [] && s.log[|s.log| - 1] == Wrote(id, Executing)
    ensures Inv(Send(s, id, path, env).service)
  {
    hide Inv, Sends;
    if (path.EthereumNative? || path.Erc20?) && !env.signerBuilds {
      FailKeeps(s, id, env);
    } else {
      SendKeeps(s, id);
      var sent := s.(log := s.log + [Broadcast(id)]);
      if env.sent.Some? {
        StatusKeeps(sent, id, Sent, env.sent.value, "", env.now, env.sentOk);
      } else if path.SolanaNative? {
        FailKeeps(sent, id, env);
      }
    }
  }

  lemma ExecuteKeeps(s: Service, id: string, env: Env)
    requires Inv(s)
    ensures Inv(HandleExecute(s, id, env).service)
  {
    if id in s.intents && s.intents[id].status == Approved && env.lockTaken {
      var i := s.intents[id];
      assert Tracked(s, id);
      hide Inv, Send, Sends;
      if Check(i, env) == RecordFailure {
        FailKeeps(s, id, env);
      } else if Check(i, env) == Proceed {
        StatusKeeps(s, id, Executing, "", "", env.now, env.executingOk);
        var w := UpdateIntentStatus(s, id, Executing, "", "", env.now, env.executingOk);
        if w.answer == Ok {
          CountSnoc(s.log, Wrote(i.id, Executing), id);
          SendPhaseKeeps(w.service, id, PathOf(i), env);
        }
      }
    }
  }

  lemma NewKeeps(s: Service, i: Intent)
    requires Inv(s) && i.id !in s.intents
    requires i.status == Draft && i.approvedBy == [] && i.retryCount == 0
    requires 1 <= i.requiredSigs && 1 <= i.maxRetries
    ensures Inv(Save(s, i, true))
    ensures Writes(Save(s, i, true).log, i.id) == 1
  {
    hide LogGood, ClosedIn, Sends, Writes;
    var e := Wrote(i.id, Draft);
    var s' := Save(s, i, true);
    assert Untouched(s, i.id);
    LogGoodSnoc(s.log, e);
    CountSnoc(s.log, e, i.id);
    ClosedSnoc(s.log, e, i.id);
    hide Good, Measure, SendsAllowed;
    NewTracked(i);
    forall id | id in s'.intents ensures Tracked(s', id) {
      CountSnoc(s.log, e, id);
      ClosedSnoc(s.log, e, id);
      if id != i.id {
        assert Tracked(s, id);
      }
    }
    forall id | id !in s'.intents ensures Untouched(s', id) {
      CountSnoc(s.log, e, id);
      ClosedSnoc(s.log, e, id);
      assert Untouched(s, id);
    }
  }

  lemma NewTracked(i: Intent)
    requires i.status == Draft && i.approvedBy == [] && i.retryCount == 0
    requires 1 <= i.requiredSigs && 1 <= i.maxRetries
    ensures Good(i) && SendsAllowed(i) == 0 && Measure(i) + 2 == WriteBudget(i)
  {
  }

  /** Rewriting the token fields of the intent just created. */
  lemma TokenKeeps(s: Service, j: Intent, ok: bool)
    requires Inv(s) && j.id in s.intents && Writes(s.log, j.id) == 1
    requires j.status == Draft && j.approvedBy == [] && j.retryCount == 0
    requires 1 <= j.requiredSigs && 1 <= j.maxRetries
    requires Sends(s.log, j.id) == 0 && !ClosedIn(s.log, j.id)
    ensures Inv(Save(s, j, ok))
  {
    if ok {
      hide LogGood, ClosedIn, Sends, Writes;
      var e := Wrote(j.id, Draft);
      var s' := Save(s, j, true);
      LogGoodSnoc(s.log, e);
      hide Good, Measure, SendsAllowed;
      NewTracked(j);
      forall id | id in s'.intents ensures Tracked(s', id) {
        CountSnoc(s.log, e, id);
        ClosedSnoc(s.log, e, id);
        if id != j.id {
          assert Tracked(s, id);
        }
      }
      forall id | id !in s'.intents ensures Untouched(s', id) {
        CountSnoc(s.log, e, id);
        ClosedSnoc(s.log, e, id);
        assert Untouched(s, id);
      }
    }
  }

  ghost predicate Newborn(s: Service, i: Intent) {
    && i.status == Draft && i.approvedBy == [] && i.retryCount == 0
    && 1 <= i.requiredSigs && 1 <= i.maxRetries
    && i.id in s.intents && Writes(s.log, i.id) == 1 && Sends(s.log, i.id) == 0 && !ClosedIn(s.log, i.id)
  }

  /** The first write of a new intent. */
  lemma BirthKeeps(s: Service, i: Intent)
    requires Inv(s) && i.id !in s.intents
    requires i.status == Draft && i.approvedBy == [] && i.retryCount == 0
    requires 1 <= i.requiredSigs && 1 <= i.maxRetries
    ensures Inv(Save(s, i, true)) && Newborn(Save(s, i, true), i)
  {
    hide Inv, Sends, Writes, ClosedIn;
    NewKeeps(s, i);
    Unseen(s, i.id);
    CountSnoc(s.log, Wrote(i.id, Draft), i.id);
    ClosedSnoc(s.log, Wrote(i.id, Draft), i.id);
  }

  lemma CreateKeeps(s: Service, op: Op)
    requires Inv(s) && op.Create? && Enabled(s, op)
    ensures Inv(Step(s, op))
  {
    hide Inv, Newborn, ApproveIntent, Save;
    if op.accountFound && op.createOk {
      var onChain := if op.chain == "" then "ethereum" else op.chain;
      var kind := if op.tokenType != "" then op.tokenType
                  else if op.tokenAddress == "" then "native"
                  else if onChain == "solana" then "spl" else "erc20";
      var sigs := if op.sigs <= 0 then 1 else op.sigs;
      var i := NewIntent(op.id, op.walletId, onChain, sigs, op.expiryHours, op.maxRetries, op.now);
      BirthKeeps(s, i);
      var s1 := Save(s, i, true);
      var j := i.(tokenAddress := op.tokenAddress, tokenType := kind, updatedAt := op.now);
      RewriteKeeps(s1, i, j, op.tokenOk);
      var s2 := if op.tokenAddress != "" || kind != "native" then Save(s1, j, op.tokenOk) else s1;
      var who := if op.creator == "" then "creator" else op.creator;
      ApproveKeeps(s2, op.id, who, op.now, op.approveOk);
    }
  }

  lemma RewriteKeeps(s: Service, i: Intent, j: Intent, ok: bool)
    requires Inv(s) && Newborn(s, i)
    requires j == i.(tokenAddress := j.tokenAddress, tokenType := j.tokenType, updatedAt := j.updatedAt)
    ensures Inv(Save(s, j, ok))
  {
    hide Inv, Sends, Writes, ClosedIn, Save;
    TokenKeeps(s, j, ok);
  }

  lemma Unseen(s: Service, id: string)
    requires Inv(s) && id !in s.intents
    ensures Untouched(s, id)
  {
  }

  /** Every handler call keeps the invariant. */
  lemma StepKeeps(s: Service, op: Op)
    requires Inv(s) && Enabled(s, op)
    ensures Inv(Step(s, op))
  {
    hide Inv, ApproveIntent, HandleReject, HandleRetry, HandleExecute, ExpireIntents, HandleCreate;
    match op
    case Create(_, _, _, _, _, _, _, _, _, _, _, _, _, _) => CreateKeeps(s, op);
    case Approve(id, approver, now, ok) =>
      ApproveKeeps(s, id, if approver == "" then "unknown" else approver, now, ok);
    case Reject(id, reason, now, ok) => RejectKeeps(s, id, reason, now, ok);
    case Execute(id, env) => ExecuteKeeps(s, id, env);
    case Retry(id, now, ok) => RetryKeeps(s, id, now, ok);
    case Expire(order, now, oks) => ExpireKeeps(s, order, now, oks);
  }

  lemma {:induction false} RunKeeps(ops: seq<Op>)
    ensures Inv(Run(ops))
  {
    if ops == [] {
      assert forall id :: Untouched(Empty, id);
    } else {
      hide Inv, Step;
      var before, op := Run(ops[..|ops| - 1]), ops[|ops| - 1];
      RunKeeps(ops[..|ops| - 1]);
      if Enabled(before, op) {
        StepKeeps(before, op);
      }
    }
  }

  // ----- Consequences for whole runs -----

  /** Sends for an intent never exceed its retries plus one, whatever writes failed along the way. */
  lemma SendsBounded(ops: seq<Op>, id: string)
    requires id in Run(ops).intents
    ensures var i := Run(ops).intents[id];
            Sends(Run(ops).log, id) <= i.retryCount + 1 <= i.maxRetries + 1
  {
    RunKeeps(ops);
    assert Tracked(Run(ops), id);
  }

  /** Each send directly follows a persisted "executing" write of its intent, and none follows a write
      of "sent", "rejected" or "expired". */
  lemma SendsJustified(ops: seq<Op>, k: nat)
    requires k < |Run(ops).log| && Run(ops).log[k].Broadcast?
    ensures var log := Run(ops).log;
            0 < k && log[k - 1] == Wrote(log[k].id, Executing) &&
            forall j :: 0 <= j < k && log[j].Wrote? && log[j].id == log[k].id ==> !Closed(log[j].status)
  {
    RunKeeps(ops);
    var log := Run(ops).log;
    assert !ClosedIn(log[..k], log[k].id);
    forall j | 0 <= j < k && log[j].Wrote? && log[j].id == log[k].id ensures !Closed(log[j].status) {
      assert log[..k][j] == log[j];
    }
  }

  /** Approvers are distinct and the number of approvals is exact in every reachable store. */
  lemma ApprovalCountsExact(ops: seq<Op>, id: string)
    requires id in Run(ops).intents
    ensures var i := Run(ops).intents[id];
            DistinctApprovers(i.approvedBy) && ApprovalsExact(i) && 1 <= i.requiredSigs
  {
    RunKeeps(ops);
    assert Tracked(Run(ops), id);
  }

  /** An intent is written at most 5 * MaxRetries + RequiredSigs + 6 times in its life. */
  lemma WritesBounded(ops: seq<Op>, id: string)
    requires id in Run(ops).intents
    ensures Writes(Run(ops).log, id) <= WriteBudget(Run(ops).intents[id])
  {
    RunKeeps(ops);
    var s := Run(ops);
    assert Tracked(s, id);
    assert 0 <= Measure(s.intents[id]);
  }

  // ----- Progress -----

  /** The intent is untouched, or its measure went down. */
  predicate Progress(i: Intent, j: Intent) {
    j == i || (Measure(j) < Measure(i) && j.id == i.id)
  }

  predicate Progressed(s: Service, t: Service, id: string)
    requires id in s.intents
  {
    id in t.intents && Progress(s.intents[id], t.intents[id])
  }

  lemma ExecuteProgress(s: Service, x: string, env: Env, id: string)
    requires id in s.intents && (x in s.intents ==> s.intents[x].id == x)
    ensures Progressed(s, HandleExecute(s, x, env).service, id)
  {
    hide Check;
  }

  lemma ApproveProgress(s: Service, x: string, approver: string, now: nat, ok: bool, id: string)
    requires id in s.intents && (x in s.intents ==> s.intents[x].id == x && s.intents[x].requiredSigs >= 1)
    ensures Progressed(s, HandleApprove(s, x, approver, now, ok).service, id)
  {
  }

  lemma SmallOpProgress(s: Service, op: Op, id: string)
    requires Enabled(s, op) && (op.Reject? || op.Retry?) && id in s.intents
    requires op.id in s.intents ==> s.intents[op.id].id == op.id && s.intents[op.id].status != PermanentFail
    ensures Progressed(s, Step(s, op), id)
  {
  }

  ghost predicate OwnKeys(s: Service) {
    forall x :: x in s.intents ==> s.intents[x].id == x
  }

  lemma ExpireOneProgress(s: Service, x: string, now: nat, ok: bool, id: string)
    requires OwnKeys(s) && id in s.intents
    ensures OwnKeys(ExpireOne(s, x, now, ok)) && Progressed(s, ExpireOne(s, x, now, ok), id)
  {
  }

  lemma {:induction false} ExpireProgress(s: Service, order: seq<string>, now: nat, ok: seq<bool>, id: string)
    requires |ok| == |order| && OwnKeys(s) && id in s.intents
    ensures OwnKeys(ExpireIntents(s, order, now, ok)) && Progressed(s, ExpireIntents(s, order, now, ok), id)
    decreases |order|
  {
    hide OwnKeys, ExpireOne, Measure;
    if order != [] {
      var n := |order| - 1;
      ExpireProgress(s, order[..n], now, ok[..n], id);
      ExpireOneProgress(ExpireIntents(s, order[..n], now, ok[..n]), order[n], now, ok[n], id);
    }
  }

  /** Every handler call that changes a stored intent strictly decreases its measure, and none removes
      one. */
  lemma StepDecreases(s: Service, op: Op, id: string)
    requires Inv(s) && Enabled(s, op) && id in s.intents
    ensures Progressed(s, Step(s, op), id)
  {
    forall x | x in s.intents ensures s.intents[x].id == x && Good(s.intents[x]) {
      assert Tracked(s, x);
    }
    hide Inv, Progress, HandleCreate, HandleExecute, HandleApprove, HandleReject, HandleRetry, ExpireIntents;
    match op
    case Expire(order, now, oks) => ExpireProgress(s, order, now, oks, id);
    case Execute(x, env) => ExecuteProgress(s, x, env, id);
    case Approve(x, approver, now, ok) => ApproveProgress(s, x, approver, now, ok, id);
    case Create(x, w, c, tt, ta, sigs, creator, hours, retries, found, ok1, ok2, ok3, now) =>
      CreateLeavesOthers(s, op, id);
      Unchanged(s.intents[id]);
    case _ => SmallOpProgress(s, op, id);
  }

  lemma Unchanged(i: Intent)
    ensures Progress(i, i)
  {
  }

  // ----- Intents stuck in "executing" -----

  /** No handler changes an intent that is in "executing": the retry handler refuses it, although the
      store's own retry would accept it. */
  lemma ExecutingIsStuck(s: Service, op: Op, id: string)
    requires Enabled(s, op) && id in s.intents && s.intents[id].id == id && s.intents[id].status == Executing
    requires forall x :: x in s.intents ==> s.intents[x].id == x
    ensures id in Step(s, op).intents && Step(s, op).intents[id] == s.intents[id]
  {
    hide HandleCreate, HandleExecute;
    match op
    case Expire(order, now, oks) => ExpireLeavesExecuting(s, order, now, oks, id);
    case Execute(x, env) => ExecuteLeavesExecuting(s, x, env, id);
    case Create(x, w, c, tt, ta, sigs, creator, hours, retries, found, ok1, ok2, ok3, now) =>
      CreateLeavesOthers(s, op, id);
    case _ =>
  }

  lemma ExecuteLeavesExecuting(s: Service, x: string, env: Env, id: string)
    requires x in s.intents ==> s.intents[x].id == x
    requires id in s.intents && s.intents[id].status == Executing
    ensures var s' := HandleExecute(s, x, env).service; id in s'.intents && s'.intents[id] == s.intents[id]
  {
    hide Check;
  }

  lemma CreateLeavesOthers(s: Service, op: Op, id: string)
    requires op.Create? && Enabled(s, op) && id in s.intents
    ensures id in Step(s, op).intents && Step(s, op).intents[id] == s.intents[id]
  {
  }

  lemma {:induction false} ExpireLeavesExecuting(s: Service, order: seq<string>, now: nat, ok: seq<bool>, id: string)
    requires |ok| == |order| && id in s.intents && s.intents[id].status == Executing
    requires forall x :: x in s.intents ==> s.intents[x].id == x
    ensures var s' := ExpireIntents(s, order, now, ok);
            id in s'.intents && s'.intents[id] == s.intents[id] && forall x :: x in s'.intents ==> s'.intents[x].id == x
    decreases |order|
  {
    if order != [] {
      ExpireLeavesExecuting(s, order[..|order| - 1], now, ok[..|ok| - 1], id);
    }
  }

  /** Once a handler call has left an intent in "executing", it stays exactly as it is. */
  lemma {:induction false} StuckForever(ops: seq<Op>, n: nat, id: string)
    requires n <= |ops| && id in Run(ops[..n]).intents && Run(ops[..n]).intents[id].status == Executing
    ensures id in Run(ops).intents && Run(ops).intents[id] == Run(ops[..n]).intents[id]
    decreases |ops|
  {
    if n == |ops| {
      assert ops[..n] == ops;
    } else {
      var before := ops[..|ops| - 1];
      assert before[..n] == ops[..n];
      StuckForever(before, n, id);
      RunKeeps(before);
      hide Step, Enabled;
      var s, op := Run(before), ops[|ops| - 1];
      assert forall x :: x in s.intents ==> Tracked(s, x);
      if Enabled(s, op) {
        ExecutingIsStuck(s, op, id);
      }
    }
  }

  predicate SignerMissing(path: Path, env: Env) {
    (path.EthereumNative? || path.Erc20?) && !env.signerBuilds
  }

  /** Exactly when an execution leaves its intent stuck: the "executing" write succeeded and then
      either the send failed on a path that does not record it, or the closing write failed. */
  lemma StuckExactlyWhen(s: Service, id: string, env: Env)
    requires id in s.intents && s.intents[id].id == id && s.intents[id].status == Approved
    ensures var i, path := s.intents[id], PathOf(s.intents[id]);
            HandleExecute(s, id, env).service.intents[id].status == Executing <==>
              env.lockTaken && Check(i, env) == Proceed && env.executingOk &&
              (if SignerMissing(path, env) then !env.failedOk
               else if env.sent.Some? then !env.sentOk
               else path != SolanaNative || !env.failedOk)
  {
    hide Check;
  }

  // ----- Runs that reach these states -----

  lemma RunNext(ops: seq<Op>, op: Op)
    ensures Run(ops + [op]) == if Enabled(Run(ops), op) then Step(Run(ops), op) else Run(ops)
  {
    hide Step;
    assert (ops + [op])[..|ops|] == ops;
  }

  /** After the run, the intent called "i" is stored as `i`. */
  ghost predicate Holds(ops: seq<Op>, i: Intent) {
    i.id == "i" && "i" in Run(ops).intents && Run(ops).intents["i"] == i
  }

  function CreateEth(sigs: int): (r: Op) {
    Create("i", "w", "", "", "", sigs, "alice", 0, 0, true, true, true, true, 0)
  }

  function FirstEth(sigs: int): (r: Intent) {
    var i := NewIntent("i", "w", "ethereum", sigs, 0, 0, 0);
    if sigs == 1 then i.(approvedBy := ["alice"], status := Approved) else i
  }

  lemma CreateHolds(sigs: int)
    requires sigs >= 1
    ensures Holds([CreateEth(sigs)], FirstEth(sigs))
  {
    RunNext([], CreateEth(sigs));
    assert [] + [CreateEth(sigs)] == [CreateEth(sigs)];
  }

  lemma ApproveHolds(ops: seq<Op>, i: Intent, who: string)
    requires Holds(ops, i) && i.status == Draft && who !in i.approvedBy && who != ""
    ensures var approvers := i.approvedBy + [who];
            Holds(ops + [Approve("i", who, 0, true)],
                  i.(approvedBy := approvers, updatedAt := 0,
                     status := if |approvers| >= i.requiredSigs then Approved else Draft))
  {
    hide Run;
    RunNext(ops, Approve("i", who, 0, true));
  }

  lemma RetryHolds(ops: seq<Op>, i: Intent)
    requires Holds(ops, i) && i.status == Failed && i.retryCount < i.maxRetries && i.requiredSigs > 1
    ensures Holds(ops + [Retry("i", 0, true)],
                  i.(retryCount := i.retryCount + 1, updatedAt := 0, status := Draft, error := ""))
  {
    hide Run;
    RunNext(ops, Retry("i", 0, true));
  }

  /** Everything works up to the send, which fails. */
  const SendFails := Env(true, false, true, true, true, true, Sufficient, None, true, true, true, 0)

  /** The policy check stops the execution. */
  const PolicyFails := SendFails.(policyHolds := false)

  lemma ExecuteHolds(ops: seq<Op>, i: Intent)
    requires Holds(ops, i) && i.status == Approved && i.chain == "ethereum" && i.tokenType == ""
    ensures Holds(ops + [Execute("i", SendFails)], i.(status := Executing, updatedAt := 0))
    ensures Holds(ops + [Execute("i", PolicyFails)], i.(status := Failed, updatedAt := 0, error := "error"))
  {
    hide Run;
    RunNext(ops, Execute("i", SendFails));
    RunNext(ops, Execute("i", PolicyFails));
    assert PathOf(i) == EthereumNative;
    assert Check(i, SendFails) == Proceed && Check(i, PolicyFails) == RecordFailure;
  }

  /** An Ethereum intent whose send fails is left in "executing", with no error recorded. */
  lemma StuckExample()
    ensures Holds([CreateEth(1)] + [Execute("i", SendFails)], FirstEth(1).(status := Executing))
  {
    hide Run;
    CreateHolds(1);
    ExecuteHolds([CreateEth(1)], FirstEth(1));
  }

  /** Two approvals, an execution that fails, and a retry. */
  function RetriedOps(): (r: seq<Op>) {
    [CreateEth(2)] + [Approve("i", "bob", 0, true)] + [Approve("i", "carol", 0, true)]
    + [Execute("i", PolicyFails)] + [Retry("i", 0, true)]
  }

  /** One new approver then approves the two-signature intent again. */
  lemma OneApproverAfterRetry()
    ensures Holds(RetriedOps(), FirstEth(2).(approvedBy := ["bob", "carol"], retryCount := 1))
    ensures Holds(RetriedOps() + [Approve("i", "dave", 0, true)],
                  FirstEth(2).(approvedBy := ["bob", "carol", "dave"], retryCount := 1, status := Approved))
  {
    hide Run;
    var ops, i := [CreateEth(2)], FirstEth(2);
    CreateHolds(2);
    ApproveHolds(ops, i, "bob");
    ops := ops + [Approve("i", "bob", 0, true)];
    i := i.(approvedBy := [] + ["bob"]);
    ApproveHolds(ops, i, "carol");
    ops := ops + [Approve("i", "carol", 0, true)];
    i := i.(approvedBy := ["bob"] + ["carol"], status := Approved);
    ExecuteHolds(ops, i);
    ops := ops + [Execute("i", PolicyFails)];
    i := i.(status := Failed, error := "error");
    RetryHolds(ops, i);
    i := i.(status := Draft, error := "", retryCount := 1);
    assert i.approvedBy == ["bob", "carol"];
    ApproveHolds(RetriedOps(), i, "dave");
    assert i.approvedBy + ["dave"] == ["bob", "carol", "dave"];
  }
}
