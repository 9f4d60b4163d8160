/** What the handlers do to an intent, told by the requests and their outside conditions: how an execution
    ends, what stays as created, when an intent expires, and what closes it for good. */
module IntentHistory {
  import opened Bytes
  import opened IntentModel
  import opened IntentRuns

  // ----- Executions -----

  /** The threshold signer signs for this account. */
  predicate UsesMpc(i: Intent, env: Env) {
    i.chain == "solana" && env.mpc
  }

  predicate SolanaTransfer(i: Intent) {
    i.tokenType != "spl" && i.tokenType != "erc20" && i.chain == "solana"
  }

  /** Ethereum and ERC-20 transfers build their signer only after the "executing" write. */
  predicate SignsLate(i: Intent) {
    i.tokenType == "erc20" || (i.tokenType != "spl" && i.chain != "solana")
  }

  /** Key and policy allow the transfer, and a signer needed early is there. */
  predicate Authorised(i: Intent, env: Env) {
    && (UsesMpc(i, env) || env.keyLoads) && env.policyHolds
    && (SignsLate(i) || UsesMpc(i, env) || env.signerBuilds)
  }

  /** Every condition tested before the "executing" write holds. */
  predicate Clear(i: Intent, env: Env) {
    && Authorised(i, env)
    && (i.tokenType == "spl" ==> !Blank(i.tokenAddress) && env.balance == Sufficient)
    && (i.tokenType == "erc20" ==> i.tokenAddress != "")
    && (SolanaTransfer(i) ==> env.amountParses && env.balance == Sufficient)
    && env.balance != Insufficient
  }

  /** A Solana transfer whose balance cannot be read is given up without a record. */
  predicate GivenUp(i: Intent, env: Env) {
    SolanaTransfer(i) && Authorised(i, env) && env.amountParses && env.balance == Unknown
  }

  /** The transaction is handed to the network. */
  predicate Attempted(i: Intent, env: Env) {
    env.lockTaken && Clear(i, env) && env.executingOk && (SignsLate(i) ==> env.signerBuilds)
  }

  lemma CheckMeans(i: Intent, env: Env)
    ensures Check(i, env) == Proceed <==> Clear(i, env)
    ensures Check(i, env) == LeaveAlone <==> GivenUp(i, env)
  {
  }

  lemma PathMeans(i: Intent)
    ensures (PathOf(i).EthereumNative? || PathOf(i).Erc20?) <==> SignsLate(i)
    ensures PathOf(i).SolanaNative? <==> SolanaTransfer(i)
  {
  }

  /** Where an execution leaves an approved intent. A successful send whose closing write succeeds is
      recorded as sent, with its hash; recorded failures end in failed; what is neither stays in executing
      or, if nothing was written, approved. */
  lemma ExecutionEnds(s: Service, id: string, env: Env)
    requires id in s.intents && s.intents[id].id == id && s.intents[id].status == Approved
    ensures var i, r := s.intents[id], HandleExecute(s, id, env);
            id in r.service.intents &&
            var t := r.service.intents[id];
            && (t.status == Sent <==> Attempted(i, env) && env.sent.Some? && env.sentOk)
            && (t.status == Sent ==>
                  t == i.(status := Sent, updatedAt := env.now,
                          txHash := if env.sent.value == "" then i.txHash else env.sent.value))
            && (t.status == Failed <==>
                  env.lockTaken && env.failedOk &&
                  (|| (!Clear(i, env) && !GivenUp(i, env))
                   || (Clear(i, env) && env.executingOk && SignsLate(i) && !env.signerBuilds)
                   || (Attempted(i, env) && env.sent.None? && SolanaTransfer(i))))
            && (t.status == Executing || t.status == Sent || t.status == Failed || t == i)
            && t.approvedBy == i.approvedBy && t.retryCount == i.retryCount
            && (r.answer == Ok <==> Attempted(i, env) && env.sent.Some?)
            && (r.answer == Locked <==> !env.lockTaken)
  {
    CheckMeans(s.intents[id], env);
    PathMeans(s.intents[id]);
    hide Check, PathOf, Clear, GivenUp, SignsLate, SolanaTransfer;
  }

  /** `more` extends `log` without broadcasting `id`. */
  ghost predicate NoNewSend(log: seq<Event>, more: seq<Event>, id: string) {
    log <= more && forall k :: |log| <= k < |more| ==> more[k] != Broadcast(id)
  }

  lemma {:induction false} NoNewSendCount(log: seq<Event>, more: seq<Event>, id: string)
    requires NoNewSend(log, more, id)
    ensures Sends(more, id) == Sends(log, id)
    decreases |more|
  {
    if |more| == |log| {
      assert more == log;
    } else {
      var n := |more| - 1;
      NoNewSendCount(log, more[..n], id);
      assert more == more[..n] + [more[n]];
      CountSnoc(more[..n], more[n], id);
    }
  }

  /** What an execution logs. */
  lemma ExecutionLog(s: Service, id: string, env: Env)
    requires id in s.intents && s.intents[id].id == id && s.intents[id].status == Approved
    ensures var log := HandleExecute(s, id, env).service.log;
            if Attempted(s.intents[id], env)
            then NoNewSend(s.log + [Wrote(id, Executing)] + [Broadcast(id)], log, id)
            else NoNewSend(s.log, log, id)
  {
    CheckMeans(s.intents[id], env);
    PathMeans(s.intents[id]);
    hide Check, PathOf, Clear, GivenUp, SignsLate, SolanaTransfer;
  }

  /** An execution broadcasts at most once, and exactly when it gets that far. */
  lemma ExecutionSends(s: Service, id: string, env: Env)
    requires id in s.intents && s.intents[id].id == id && s.intents[id].status == Approved
    ensures Sends(HandleExecute(s, id, env).service.log, id)
         == Sends(s.log, id) + if Attempted(s.intents[id], env) then 1 else 0
  {
    ExecutionLog(s, id, env);
    hide HandleExecute, Attempted, Sends, NoNewSend;
    var log := HandleExecute(s, id, env).service.log;
    if Attempted(s.intents[id], env) {
      CountSnoc(s.log, Wrote(id, Executing), id);
      CountSnoc(s.log + [Wrote(id, Executing)], Broadcast(id), id);
      NoNewSendCount(s.log + [Wrote(id, Executing)] + [Broadcast(id)], log, id);
    } else {
      NoNewSendCount(s.log, log, id);
    }
  }

  /** Only an approved intent can be executed; anything else is refused untouched. */
  lemma ExecutionRefused(s: Service, id: string, env: Env)
    requires id !in s.intents || s.intents[id].status != Approved
    ensures HandleExecute(s, id, env) == Reply(s, if id in s.intents then Refused else NotFound)
  {
  }

  // ----- The other handlers -----

  /** A rejection succeeds exactly on a draft or pending intent that can be written, and ends in rejected
      with the reason given. */
  lemma RejectionEnds(s: Service, id: string, reason: string, now: nat, ok: bool)
    requires id in s.intents ==> s.intents[id].id == id
    ensures var r := HandleReject(s, id, reason, now, ok);
            && (r.answer == Ok <==>
                  id in s.intents && (s.intents[id].status == Draft || s.intents[id].status == Pending) && ok)
            && r.service.intents == (if r.answer != Ok then s.intents else
                 s.intents[id := s.intents[id].(status := Rejected, updatedAt := now,
                                                error := if reason == "" then s.intents[id].error else reason)])
  {
  }

  /** An approval succeeds exactly on a draft or pending intent the approver has not approved; it is
      recorded last, and completes the intent when the required number is reached. */
  lemma ApprovalEnds(s: Service, id: string, approver: string, now: nat, ok: bool)
    requires id in s.intents ==> s.intents[id].id == id
    ensures var who := if approver == "" then "unknown" else approver;
            var r := HandleApprove(s, id, approver, now, ok);
            && (r.answer == Ok <==>
                  id in s.intents && (s.intents[id].status == Draft || s.intents[id].status == Pending) &&
                  who !in s.intents[id].approvedBy && ok)
            && r.service.intents == (if r.answer != Ok then s.intents else
                 var i := s.intents[id];
                 s.intents[id := i.(approvedBy := i.approvedBy + [who], updatedAt := now,
                                    status := if |i.approvedBy| + 1 >= i.requiredSigs then Approved else i.status)])
  {
  }

  /** A retry succeeds exactly on a failed intent with retries left; it counts up, clears the error and
      keeps the approvals. */
  lemma RetryEnds(s: Service, id: string, now: nat, ok: bool)
    requires id in s.intents ==> s.intents[id].id == id
    ensures var r := HandleRetry(s, id, now, ok);
            && (r.answer == Ok <==>
                  id in s.intents && (s.intents[id].status == Failed || s.intents[id].status == PermanentFail) &&
                  s.intents[id].retryCount < s.intents[id].maxRetries && ok)
            && r.service.intents == (if r.answer != Ok then s.intents else
                 var i := s.intents[id];
                 s.intents[id := i.(retryCount := i.retryCount + 1, updatedAt := now, error := "",
                                    status := if i.requiredSigs > 1 then Draft else Approved)])
  {
  }

  // ----- Expiry -----

  /** Some visit to the intent could write. */
  ghost predicate Visited(order: seq<string>, oks: seq<bool>, id: string)
    requires |oks| == |order|
  {
    exists k :: 0 <= k < |order| && order[k] == id && oks[k]
  }

  predicate Overdue(i: Intent, now: nat) {
    (i.status == Draft || i.status == Pending || i.status == Approved) && i.expiresAt != 0 && now > i.expiresAt
  }

  lemma {:induction false} ExpiryEnds(s: Service, order: seq<string>, now: nat, oks: seq<bool>, id: string)
    requires |oks| == |order| && OwnKeys(s) && id in s.intents
    ensures var i, t := s.intents[id], ExpireIntents(s, order, now, oks);
            OwnKeys(t) && t.intents.Keys == s.intents.Keys &&
            t.intents[id] == if Overdue(i, now) && Visited(order, oks, id)
                             then i.(status := Expired, updatedAt := now, error := "Intent expired due to timeout")
                             else i
    decreases |order|
  {
    if order != [] {
      hide OwnKeys;
      var n := |order| - 1;
      ExpiryEnds(s, order[..n], now, oks[..n], id);
      VisitedSnoc(order, oks, id);
      var before := ExpireIntents(s, order[..n], now, oks[..n]);
      ExpireOneEnds(before, order[n], now, oks[n], id);
    }
  }

  lemma ExpireOneEnds(s: Service, x: string, now: nat, ok: bool, id: string)
    requires OwnKeys(s) && id in s.intents
    ensures var i, t := s.intents[id], ExpireOne(s, x, now, ok);
            OwnKeys(t) && t.intents.Keys == s.intents.Keys &&
            t.intents[id] == if Overdue(i, now) && x == id && ok
                             then i.(status := Expired, updatedAt := now, error := "Intent expired due to timeout")
                             else i
  {
  }

  lemma VisitedSnoc(order: seq<string>, oks: seq<bool>, id: string)
    requires |oks| == |order| && order != []
    ensures var n := |order| - 1;
            Visited(order, oks, id) <==> Visited(order[..n], oks[..n], id) || (order[n] == id && oks[n])
  {
    var n := |order| - 1;
    if Visited(order[..n], oks[..n], id) {
      var k :| 0 <= k < n && order[..n][k] == id && oks[..n][k];
      assert order[k] == id && oks[k];
    }
    if Visited(order, oks, id) {
      var k :| 0 <= k < |order| && order[k] == id && oks[k];
      if k < n {
        assert order[..n][k] == id && oks[..n][k];
      }
    }
  }

  // ----- What stays as created -----

  /** The parts of an intent that its creation request fixes. */
  ghost predicate Born(op: Op, i: Intent) {
    && op.Create? && op.id == i.id && op.accountFound && op.createOk
    && i.walletId == op.walletId
    && i.chain == (if op.chain == "" then "ethereum" else op.chain)
    && i.requiredSigs == (if op.sigs <= 0 then 1 else op.sigs)
    && i.maxRetries == (if op.maxRetries <= 0 then 3 else op.maxRetries)
    && i.createdAt == op.now
    && i.expiresAt == op.now + (if op.expiryHours <= 0 then 24 else op.expiryHours) * 3600
    && TokenBorn(op, i)
  }

  /** The token fields are written second, unless there is nothing to write or the write fails. */
  predicate TokenBorn(op: Op, i: Intent)
    requires op.Create?
  {
    var chain := if op.chain == "" then "ethereum" else op.chain;
    var native := op.tokenAddress == "" && (op.tokenType == "" || op.tokenType == "native");
    if native || !op.tokenOk then i.tokenAddress == "" && i.tokenType == ""
    else i.tokenAddress == op.tokenAddress &&
         i.tokenType == (if op.tokenType != "" then op.tokenType else if chain == "solana" then "spl" else "erc20")
  }

  /** The fields that no handler rewrites. */
  predicate SameBirth(i: Intent, j: Intent) {
    && j.id == i.id && j.walletId == i.walletId && j.chain == i.chain && j.requiredSigs == i.requiredSigs
    && j.maxRetries == i.maxRetries && j.createdAt == i.createdAt && j.expiresAt == i.expiresAt
    && j.tokenAddress == i.tokenAddress && j.tokenType == i.tokenType
  }

  /** The time at which a request acts. */
  function TimeOfCall(op: Op): (r: nat) {
    if op.Execute? then op.env.now else op.now
  }

  /** An intent is left alone, or keeps its birth fields and is stamped with the time of the call. */
  predicate Restamped(i: Intent, j: Intent, now: nat) {
    j == i || (SameBirth(i, j) && j.updatedAt == now)
  }

  lemma ExecuteRestamps(s: Service, x: string, env: Env, id: string)
    requires OwnKeys(s) && id in s.intents
    ensures var t := HandleExecute(s, x, env).service;
            id in t.intents && Restamped(s.intents[id], t.intents[id], env.now) && (id != x ==> t.intents[id] == s.intents[id])
  {
    hide Check, Send;
    if x in s.intents {
      var w := UpdateIntentStatus(s, x, Executing, "", "", env.now, env.executingOk).service;
      SendRestamps(w, x, PathOf(s.intents[x]), env, id);
    }
  }

  lemma SendRestamps(s: Service, x: string, path: Path, env: Env, id: string)
    requires OwnKeys(s) && id in s.intents
    ensures var t := Send(s, x, path, env).service;
            id in t.intents && Restamped(s.intents[id], t.intents[id], env.now) && (id != x ==> t.intents[id] == s.intents[id])
  {
  }

  lemma SmallRestamps(s: Service, op: Op, id: string)
    requires OwnKeys(s) && id in s.intents && (op.Approve? || op.Reject? || op.Retry?)
    ensures var t := Step(s, op);
            id in t.intents && Restamped(s.intents[id], t.intents[id], op.now) && (id != op.id ==> t.intents[id] == s.intents[id])
  {
  }

  /** Every call leaves an intent alone, or keeps the fields its creation fixed and stamps it with the
      call's time; a call that names another intent leaves it alone. */
  lemma StepRestamps(s: Service, op: Op, id: string)
    requires OwnKeys(s) && Enabled(s, op) && id in s.intents
    ensures id in Step(s, op).intents && Restamped(s.intents[id], Step(s, op).intents[id], TimeOfCall(op))
    ensures !op.Expire? && op.id != id ==> Step(s, op).intents[id] == s.intents[id]
  {
    hide OwnKeys, HandleCreate, HandleExecute, HandleApprove, HandleReject, HandleRetry, ExpireIntents;
    match op
    case Expire(order, now, oks) => ExpiryEnds(s, order, now, oks, id);
    case Execute(x, env) => ExecuteRestamps(s, x, env, id);
    case Create(x, w, c, tt, ta, sigs, creator, hours, retries, found, ok1, ok2, ok3, now) =>
      CreateLeavesOthers(s, op, id);
    case _ => SmallRestamps(s, op, id);
  }

  /** The new intent before its first approval. */
  function FirstVersion(op: Op): (r: Intent)
    requires op.Create?
  {
    if (op.tokenAddress != "" || KindOf(op) != "native") && op.tokenOk
    then Newborn(op).(tokenAddress := op.tokenAddress, tokenType := KindOf(op)) else Newborn(op)
  }

  lemma FirstBorn(op: Op)
    requires op.Create? && op.accountFound && op.createOk
    ensures Born(op, FirstVersion(op))
  {
  }

  lemma CreateStores(s: Service, op: Op)
    requires op.Create? && Enabled(s, op)
    ensures var t := Step(s, op);
            if op.accountFound && op.createOk
            then t.intents.Keys == s.intents.Keys + {op.id} && Restamped(FirstVersion(op), t.intents[op.id], op.now)
            else t.intents == s.intents
  {
    if op.accountFound && op.createOk {
      CreateParts(s, op);
      WrittenIs(s, op);
      var who := if op.creator == "" then "creator" else op.creator;
      hide Step, Written, ApproveIntent, FirstVersion;
      ApproveKeepsBirth(Written(s, op), op.id, who, op.now, op.approveOk);
    }
  }

  function ChainOf(op: Op): (r: string)
    requires op.Create?
  {
    if op.chain == "" then "ethereum" else op.chain
  }

  function KindOf(op: Op): (r: string)
    requires op.Create?
  {
    if op.tokenType != "" then op.tokenType
    else if op.tokenAddress == "" then "native"
    else if ChainOf(op) == "solana" then "spl" else "erc20"
  }

  function Newborn(op: Op): (r: Intent)
    requires op.Create?
  {
    NewIntent(op.id, op.walletId, ChainOf(op), if op.sigs <= 0 then 1 else op.sigs,
              op.expiryHours, op.maxRetries, op.now)
  }

  /** The store after the writes of a creation, before the approval. */
  function Written(s: Service, op: Op): (r: Service)
    requires op.Create?
  {
    var s1 := Save(s, Newborn(op), true);
    if op.tokenAddress != "" || KindOf(op) != "native"
    then Save(s1, Newborn(op).(tokenAddress := op.tokenAddress, tokenType := KindOf(op), updatedAt := op.now), op.tokenOk)
    else s1
  }

  /** Creation is one or two writes of the first version and then, perhaps, its approval. */
  lemma CreateParts(s: Service, op: Op)
    requires op.Create? && Enabled(s, op) && op.accountFound && op.createOk
    ensures var who := if op.creator == "" then "creator" else op.creator;
            var t := Step(s, op);
            t == Written(s, op) || t == ApproveIntent(Written(s, op), op.id, who, op.now, op.approveOk).service
  {
    hide NewIntent, ApproveIntent, Save;
  }

  lemma WrittenIs(s: Service, op: Op)
    requires op.Create?
    ensures Written(s, op).intents == s.intents[op.id := FirstVersion(op)]
    ensures FirstVersion(op).id == op.id && FirstVersion(op).updatedAt == op.now
  {
  }

  lemma ApproveKeepsBirth(s: Service, x: string, who: string, now: nat, ok: bool)
    requires x in s.intents && s.intents[x].id == x
    ensures var t := ApproveIntent(s, x, who, now, ok).service;
            t.intents.Keys == s.intents.Keys && Restamped(s.intents[x], t.intents[x], now)
  {
  }

  /** A creation succeeds exactly when the account is found and the first write succeeds. A one-signature
      intent is approved by its creator at once, if that write succeeds; any other starts as a draft. */
  lemma CreationEnds(s: Service, op: Op)
    requires op.Create? && Enabled(s, op)
    ensures var r := HandleCreate(s, op.id, op.walletId, op.chain, op.tokenType, op.tokenAddress, op.sigs, op.creator,
                                  op.expiryHours, op.maxRetries, op.accountFound, op.now, op.createOk, op.tokenOk, op.approveOk);
            && (r.answer == Ok <==> op.accountFound && op.createOk)
            && (r.answer == Ok ==>
                  op.id in r.service.intents &&
                  var i := r.service.intents[op.id];
                  && i.retryCount == 0 && i.txHash == "" && i.error == ""
                  && i.status == (if op.sigs <= 1 && op.approveOk then Approved else Draft)
                  && i.approvedBy == (if op.sigs <= 1 && op.approveOk
                                      then [if op.creator == "" then "creator" else op.creator] else []))
  {
  }

  lemma CreateBears(s: Service, op: Op, id: string)
    requires op.Create? && Enabled(s, op) && id !in s.intents && id in Step(s, op).intents
    ensures Born(op, Step(s, op).intents[id])
  {
    hide Step, Born, Restamped, FirstVersion;
    CreateStores(s, op);
    FirstBorn(op);
    BornStays(op, FirstVersion(op), Step(s, op).intents[id], op.now);
  }

  lemma OthersBearNothing(s: Service, op: Op, id: string)
    requires OwnKeys(s) && Enabled(s, op) && !op.Create? && id !in s.intents
    ensures id !in Step(s, op).intents
  {
    hide Check;
    if op.Expire? {
      ExpiryKeys(s, op.order, op.now, op.oks);
    }
  }

  lemma {:induction false} ExpiryKeys(s: Service, order: seq<string>, now: nat, oks: seq<bool>)
    requires |oks| == |order| && OwnKeys(s)
    ensures var t := ExpireIntents(s, order, now, oks); OwnKeys(t) && t.intents.Keys == s.intents.Keys
    decreases |order|
  {
    if order != [] {
      ExpiryKeys(s, order[..|order| - 1], now, oks[..|order| - 1]);
    }
  }

  lemma BornStays(op: Op, i: Intent, j: Intent, now: nat)
    requires Born(op, i) && Restamped(i, j, now)
    ensures Born(op, j)
  {
  }

  /** Every stored intent is what one creation request of the run made it, up to status, approvals,
      retries, result and time stamp. */
  lemma {:induction false} CreationRemembered(ops: seq<Op>, id: string)
    requires id in Run(ops).intents
    ensures exists m: nat :: m < |ops| && Born(ops[m], Run(ops).intents[id])
    decreases |ops|
  {
    if ops != [] {
      var n := |ops| - 1;
      var before, op := ops[..n], ops[n];
      var s := Run(before);
      RunKeeps(before);
      RunOwnKeys(before);
      hide Step, Born, Inv, Enabled, OwnKeys, Restamped;
      if id in s.intents {
        CreationRemembered(before, id);
        var m: nat :| m < n && Born(before[m], s.intents[id]);
        assert before[m] == ops[m];
        if Enabled(s, op) {
          StepRestamps(s, op, id);
          BornStays(ops[m], s.intents[id], Run(ops).intents[id], TimeOfCall(op));
        }
      } else if op.Create? {
        CreateBears(s, op, id);
      } else {
        OthersBearNothing(s, op, id);
      }
    }
  }

  lemma RunOwnKeys(ops: seq<Op>)
    ensures OwnKeys(Run(ops))
  {
    RunKeeps(ops);
    var s := Run(ops);
    assert forall x :: x in s.intents ==> Tracked(s, x);
  }

  /** In every reachable store: an expiry run that visits an intent expires it if and only if it is still a
      draft or approved and more than its hours (24 by default) have passed since it was created. */
  lemma ExpiresExactlyWhen(ops: seq<Op>, m: nat, order: seq<string>, now: nat, oks: seq<bool>, id: string)
    requires |oks| == |order| && Visited(order, oks, id)
    requires id in Run(ops).intents && m < |ops| && Born(ops[m], Run(ops).intents[id])
    ensures var i, t := Run(ops).intents[id], ExpireIntents(Run(ops), order, now, oks);
            var hours := if ops[m].expiryHours <= 0 then 24 else ops[m].expiryHours;
            id in t.intents &&
            (t.intents[id].status == Expired && i.status != Expired <==>
               (i.status == Draft || i.status == Approved) && now > ops[m].now + hours * 3600)
  {
    RunKeeps(ops);
    RunOwnKeys(ops);
    assert Tracked(Run(ops), id);
    hide Run, Inv;
    ExpiryEnds(Run(ops), order, now, oks, id);
  }

  // ----- Closed for good -----

  predicate Over(i: Intent) {
    i.status == Sent || i.status == Rejected || i.status == Expired
  }

  lemma SameSends(s: Service, op: Op, id: string)
    requires Enabled(s, op) && id in s.intents && s.intents[id].status != Approved
    ensures Sends(Step(s, op).log, id) == Sends(s.log, id)
  {
    hide HandleCreate, HandleExecute, HandleApprove, HandleReject, HandleRetry, ExpireIntents, Sends, NoNewSend;
    match op {
      case Execute(x, env) => ExecuteLogsOwn(s, x, env, id);
      case Create(x, w, c, tt, ta, sigs, creator, hours, retries, found, ok1, ok2, ok3, now) => CreateLogs(s, op, id);
      case Expire(order, now, oks) => ExpireLogs(s, order, now, oks, id);
      case _ => SmallLogs(s, op, id);
    }
    NoNewSendCount(s.log, Step(s, op).log, id);
  }

  lemma ExecuteLogsOwn(s: Service, x: string, env: Env, id: string)
    requires id in s.intents && s.intents[id].status != Approved
    ensures NoNewSend(s.log, HandleExecute(s, x, env).service.log, id)
  {
    hide Check, Send;
    if x in s.intents && s.intents[x].status == Approved {
      var w := UpdateIntentStatus(s, x, Executing, "", "", env.now, env.executingOk).service;
      SendLogsOwn(w, x, PathOf(s.intents[x]), env, id);
    }
  }

  lemma SendLogsOwn(s: Service, x: string, path: Path, env: Env, id: string)
    requires x != id
    ensures NoNewSend(s.log, Send(s, x, path, env).service.log, id)
  {
  }

  lemma SmallLogs(s: Service, op: Op, id: string)
    requires op.Approve? || op.Reject? || op.Retry?
    ensures NoNewSend(s.log, Step(s, op).log, id)
  {
  }

  lemma CreateLogs(s: Service, op: Op, id: string)
    requires op.Create? && Enabled(s, op)
    ensures NoNewSend(s.log, Step(s, op).log, id)
  {
  }

  lemma {:induction false} ExpireLogs(s: Service, order: seq<string>, now: nat, oks: seq<bool>, id: string)
    requires |oks| == |order|
    ensures NoNewSend(s.log, ExpireIntents(s, order, now, oks).log, id)
    decreases |order|
  {
    if order != [] {
      ExpireLogs(s, order[..|order| - 1], now, oks[..|order| - 1], id);
    }
  }

  lemma OverStays(s: Service, op: Op, id: string)
    requires Enabled(s, op) && OwnKeys(s) && id in s.intents && Over(s.intents[id])
    ensures id in Step(s, op).intents && Step(s, op).intents[id] == s.intents[id]
  {
    hide OwnKeys, HandleCreate, HandleExecute, ExpireIntents;
    match op
    case Execute(x, env) =>
      ExecuteRestamps(s, x, env, id);
      if x == id {
        ExecutionRefused(s, x, env);
      }
    case Create(x, w, c, tt, ta, sigs, creator, hours, retries, found, ok1, ok2, ok3, now) =>
      CreateLeavesOthers(s, op, id);
    case Expire(order, now, oks) => ExpiryEnds(s, order, now, oks, id);
    case _ => SmallRestamps(s, op, id);
  }

  /** Once sent, rejected or expired, an intent never changes again and is never broadcast again. */
  lemma {:induction false} ClosedForever(ops: seq<Op>, n: nat, id: string)
    requires n <= |ops| && id in Run(ops[..n]).intents && Over(Run(ops[..n]).intents[id])
    ensures id in Run(ops).intents && Run(ops).intents[id] == Run(ops[..n]).intents[id]
    ensures Sends(Run(ops).log, id) == Sends(Run(ops[..n]).log, id)
    decreases |ops|
  {
    if n == |ops| {
      assert ops[..n] == ops;
    } else {
      var before, op := ops[..|ops| - 1], ops[|ops| - 1];
      assert before[..n] == ops[..n];
      ClosedForever(before, n, id);
      RunOwnKeys(before);
      hide Step, Enabled, Sends, OwnKeys;
      var s := Run(before);
      if Enabled(s, op) {
        OverStays(s, op, id);
        SameSends(s, op, id);
      }
    }
  }

  /** A successful send that was recorded is the last: whatever follows, the intent stays sent with its
      hash and nothing more is broadcast for it. */
  lemma RecordedSendIsLast(ops: seq<Op>, n: nat, id: string, env: Env)
    requires n < |ops| && ops[n] == Execute(id, env)
    requires id in Run(ops[..n]).intents && Run(ops[..n]).intents[id].status == Approved
    requires Attempted(Run(ops[..n]).intents[id], env) && env.sent.Some? && env.sentOk
    ensures id in Run(ops).intents && Run(ops).intents[id].status == Sent
    ensures env.sent.value != "" ==> Run(ops).intents[id].txHash == env.sent.value
    ensures Sends(Run(ops).log, id) == Sends(Run(ops[..n]).log, id) + 1
  {
    var s := Run(ops[..n]);
    RunOwnKeys(ops[..n]);
    ExecutionEnds(s, id, env);
    ExecutionSends(s, id, env);
    assert ops[..n + 1] == ops[..n] + [ops[n]];
    RunNext(ops[..n], ops[n]);
    assert Run(ops[..n + 1]) == HandleExecute(s, id, env).service;
    hide Run, HandleExecute, Sends;
    ClosedForever(ops, n + 1, id);
  }
}
