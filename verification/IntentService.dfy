/** The intent store and its handlers as objects that update state in place
    (pkg/wallet/intent.go, cmd/wallet-service/main.go). Each method refines the step of the same name;
    the `ok` arguments are the outcomes of the disk writes. */
module IntentService {
  import opened Bytes
  import opened IntentModel
  import opened IntentRuns

  class Store {
    var intents: map<string, Intent>
    ghost var log: seq<Event>

    ghost function View(): (r: Service)
      reads this
    {
      Service(intents, log)
    }

    constructor ()
      ensures View() == Empty
    {
      intents := map[];
      log := [];
    }

    method SaveIntent(i: Intent, ok: bool) returns (r: Answer)
      modifies this
      ensures Saved(old(View()), i, ok) == Reply(View(), r)
    {
      if !ok {
        return WriteFailed;
      }
      intents := intents[i.id := i];
      log := log + [Wrote(i.id, i.status)];
      r := Ok;
    }

    method ApproveIntent(id: string, approver: string, now: nat, ok: bool) returns (r: Answer)
      modifies this
      ensures IntentModel.ApproveIntent(old(View()), id, approver, now, ok) == Reply(View(), r)
    {
      if id !in intents {
        return NotFound;
      }
      var i := intents[id];
      if i.status != Draft && i.status != Pending {
        return Refused;
      }
      for k := 0 to |i.approvedBy|
        invariant approver !in i.approvedBy[..k]
      {
        if i.approvedBy[k] == approver {
          return Refused;
        }
        assert i.approvedBy[..k + 1] == i.approvedBy[..k] + [i.approvedBy[k]];
      }
      assert i.approvedBy[..|i.approvedBy|] == i.approvedBy;
      i := i.(approvedBy := i.approvedBy + [approver], updatedAt := now);
      if |i.approvedBy| >= i.requiredSigs {
        i := i.(status := Approved);
      }
      r := SaveIntent(i, ok);
    }

    method UpdateIntentStatus(id: string, status: Status, txHash: string, error: string, now: nat, ok: bool)
      returns (r: Answer)
      modifies this
      ensures IntentModel.UpdateIntentStatus(old(View()), id, status, txHash, error, now, ok) == Reply(View(), r)
    {
      if id !in intents {
        return NotFound;
      }
      var i := intents[id].(status := status, updatedAt := now);
      if txHash != "" {
        i := i.(txHash := txHash);
      }
      if error != "" {
        i := i.(error := error);
      }
      r := SaveIntent(i, ok);
    }

    method RetryIntent(id: string, now: nat, ok: bool) returns (r: Answer)
      modifies this
      ensures IntentModel.RetryIntent(old(View()), id, now, ok) == Reply(View(), r)
    {
      if id !in intents {
        return NotFound;
      }
      var i := intents[id];
      if i.status != Failed && i.status != PermanentFail && i.status != Executing {
        return Refused;
      }
      if i.retryCount >= i.maxRetries {
        return Refused;
      }
      i := i.(retryCount := i.retryCount + 1, updatedAt := now);
      if i.requiredSigs > 1 {
        i := i.(status := Draft);
      } else {
        i := i.(status := Approved);
      }
      i := i.(error := "");
      r := SaveIntent(i, ok);
    }

    /** Visits the stored intents in directory order. */
    method ExpireIntents(order: seq<string>, now: nat, ok: seq<bool>) returns (expired: nat)
      requires |ok| == |order|
      modifies this
      ensures View() == IntentModel.ExpireIntents(old(View()), order, now, ok)
      ensures |log| == |old(log)| + expired
    {
      expired := 0;
      for k := 0 to |order|
        invariant View() == IntentModel.ExpireIntents(old(View()), order[..k], now, ok[..k])
        invariant |log| == |old(log)| + expired
      {
        var id := order[k];
        ghost var before := View();
        if id in intents && Expirable(intents[id], now) {
          var i := intents[id].(status := Expired, updatedAt := now, error := "Intent expired due to timeout");
          var r := SaveIntent(i, ok[k]);
          if r == Ok {
            expired := expired + 1;
          }
        }
        assert View() == ExpireOne(before, id, now, ok[k]);
        assert order[..k + 1][..k] == order[..k] && ok[..k + 1][..k] == ok[..k];
      }
      assert order[..|order|] == order && ok[..|ok|] == ok;
    }

    // ----- Handlers -----

    method HandleCreateIntent(id: string, walletId: string, chain: string, tokenType: string, tokenAddress: string,
                              sigs: int, creator: string, expiryHours: int, maxRetries: int, accountFound: bool,
                              now: nat, createOk: bool, tokenOk: bool, approveOk: bool) returns (r: Answer)
      modifies this
      ensures HandleCreate(old(View()), id, walletId, chain, tokenType, tokenAddress, sigs, creator,
                           expiryHours, maxRetries, accountFound, now, createOk, tokenOk, approveOk) == Reply(View(), r)
    {
      var onChain := if chain == "" then "ethereum" else chain;
      var kind := tokenType;
      if kind == "" {
        if tokenAddress != "" {
          kind := if onChain == "solana" then "spl" else "erc20";
        } else {
          kind := "native";
        }
      }
      var requiredSigs := if sigs <= 0 then 1 else sigs;
      var who := if creator == "" then "creator" else creator;
      if !accountFound {
        return NotFound;
      }
      var i := NewIntent(id, walletId, onChain, requiredSigs, expiryHours, maxRetries, now);
      r := SaveIntent(i, createOk);
      if r != Ok {
        return WriteFailed;
      }
      if tokenAddress != "" || kind != "native" {
        i := i.(tokenAddress := tokenAddress, tokenType := kind, updatedAt := now);
        var ignored := SaveIntent(i, tokenOk);
      }
      if requiredSigs == 1 {
        var ignored := ApproveIntent(id, who, now, approveOk);
      }
      r := Ok;
    }

    method HandleApproveIntent(id: string, approver: string, now: nat, ok: bool) returns (r: Answer)
      modifies this
      ensures HandleApprove(old(View()), id, approver, now, ok) == Reply(View(), r)
    {
      var who := approver;
      if who == "" {
        who := "unknown";
      }
      r := ApproveIntent(id, who, now, ok);
    }

    method HandleRejectIntent(id: string, reason: string, now: nat, ok: bool) returns (r: Answer)
      modifies this
      ensures HandleReject(old(View()), id, reason, now, ok) == Reply(View(), r)
    {
      if id !in intents {
        return NotFound;
      }
      if intents[id].status != Draft && intents[id].status != Pending {
        return Refused;
      }
      r := UpdateIntentStatus(id, Rejected, "", reason, now, ok);
    }

    method HandleRetryIntent(id: string, now: nat, ok: bool) returns (r: Answer)
      modifies this
      ensures HandleRetry(old(View()), id, now, ok) == Reply(View(), r)
    {
      if id !in intents {
        return NotFound;
      }
      if intents[id].status != Failed && intents[id].status != PermanentFail {
        return Refused;
      }
      if intents[id].retryCount >= intents[id].maxRetries {
        return Refused;
      }
      r := RetryIntent(id, now, ok);
    }

    method FailExecution(id: string, env: Env) returns (r: Answer)
      modifies this
      ensures MarkFailed(old(View()), id, env) == Reply(View(), r)
    {
      var ignored := UpdateIntentStatus(id, Failed, "", "error", env.now, env.failedOk);
      r := ExecutionFailed;
    }

    method SendTransaction(id: string, path: Path, env: Env) returns (r: Answer)
      modifies this
      ensures Send(old(View()), id, path, env) == Reply(View(), r)
    {
      if (path.EthereumNative? || path.Erc20?) && !env.signerBuilds {
        r := FailExecution(id, env);
        return;
      }
      log := log + [Broadcast(id)];
      if env.sent.None? {
        if path.SolanaNative? {
          r := FailExecution(id, env);
        } else {
          r := ExecutionFailed;
        }
      } else {
        var ignored := UpdateIntentStatus(id, Sent, env.sent.value, "", env.now, env.sentOk);
        r := Ok;
      }
    }

    method HandleExecuteIntent(id: string, env: Env) returns (r: Answer)
      modifies this
      ensures HandleExecute(old(View()), id, env) == Reply(View(), r)
    {
      hide Check, IntentModel.UpdateIntentStatus, Send, MarkFailed;
      if id !in intents {
        return NotFound;
      }
      var i := intents[id];
      if i.status != Approved {
        return Refused;
      }
      if !env.lockTaken {
        return Locked;
      }
      match Check(i, env) {
        case RecordFailure =>
          r := FailExecution(id, env);
        case LeaveAlone =>
          r := ExecutionFailed;
        case Proceed =>
          var w := UpdateIntentStatus(id, Executing, "", "", env.now, env.executingOk);
          if w != Ok {
            return ExecutionFailed;
          }
          r := SendTransaction(id, PathOf(i), env);
      }
    }

    // ----- Whole runs on the object -----

    /** Dispatches a call to the handler that serves it. */
    method Serve(op: Op)
      requires Enabled(View(), op)
      modifies this
      ensures View() == Step(old(View()), op)
    {
      hide HandleCreate, HandleApprove, HandleReject, HandleExecute, HandleRetry, IntentModel.ExpireIntents;
      match op {
        case Create(id, w, c, tt, ta, sigs, creator, hours, retries, found, ok1, ok2, ok3, now) =>
          var r := HandleCreateIntent(id, w, c, tt, ta, sigs, creator, hours, retries, found, now, ok1, ok2, ok3);
        case Approve(id, approver, now, ok) => var r := HandleApproveIntent(id, approver, now, ok);
        case Reject(id, reason, now, ok) => var r := HandleRejectIntent(id, reason, now, ok);
        case Execute(id, env) => var r := HandleExecuteIntent(id, env);
        case Retry(id, now, ok) => var r := HandleRetryIntent(id, now, ok);
        case Expire(order, now, oks) => var expired := ExpireIntents(order, now, oks);
      }
    }

    /** Serves any calls in order, after any calls already served; calls that cannot happen (an id the
        generator has already produced) are skipped. The object follows the run of handler calls, so its
        sends, approvals and writes obey the bounds of every run. */
    method ServeAll(ghost before: seq<Op>, ops: seq<Op>)
      requires View() == Run(before)
      modifies this
      ensures View() == Run(before + ops)
      ensures Inv(View())
      ensures forall id :: id in old(intents) ==>
                id in intents && (intents[id] == old(intents)[id] || Measure(intents[id]) < Measure(old(intents)[id]))
    {
      hide Run, Step, Inv, Measure;
      assert before + ops[..0] == before;
      RunKeeps(before);
      for k := 0 to |ops|
        invariant View() == Run(before + ops[..k]) && Inv(View())
        invariant forall id :: id in old(intents) ==>
                    id in intents && (intents[id] == old(intents)[id] || Measure(intents[id]) < Measure(old(intents)[id]))
      {
        ghost var s := View();
        assert before + ops[..k + 1] == before + ops[..k] + [ops[k]];
        RunNext(before + ops[..k], ops[k]);
        RunKeeps(before + ops[..k + 1]);
        if CanHappen(ops[k]) {
          forall id | id in s.intents ensures Progressed(s, Step(s, ops[k]), id) {
            StepDecreases(s, ops[k], id);
          }
          Serve(ops[k]);
        }
      }
      assert before + ops[..|ops|] == before + ops;
    }

    /** A create needs a new id, an expiry one write outcome per file. */
    predicate CanHappen(op: Op)
      reads this
      ensures CanHappen(op) == Enabled(View(), op)
    {
      match op
      case Create(id, _, _, _, _, _, _, _, _, _, _, _, _, _) => id !in intents
      case Expire(order, _, oks) => |order| == |oks|
      case _ => true
    }
  }
}
