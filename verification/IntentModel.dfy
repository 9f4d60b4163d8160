/** The life of a transaction intent: the store's operations (pkg/wallet/intent.go) and the handlers
    that drive them (cmd/wallet-service/main.go), as atomic steps over the persistent store. Every
    write to disk may fail; a failed write leaves the stored intent as it was. Handlers are serialised,
    which is what the per-wallet lock is meant to give. */
module IntentModel {
  import opened Bytes

  datatype Status =
    Draft | Pending | Approved | Executing | Signed | Sent | Failed | PermanentFail | Rejected | Expired

  /** Times are seconds; 0 is the zero time. */
  datatype Intent = Intent(
    id: string, walletId: string, chain: string, tokenType: string, tokenAddress: string,
    status: Status, createdAt: nat, updatedAt: nat, expiresAt: nat,
    approvedBy: seq<string>, requiredSigs: int, txHash: string, error: string,
    retryCount: int, maxRetries: int)

  datatype Event = Wrote(id: string, status: Status) | Broadcast(id: string)

  datatype Service = Service(intents: map<string, Intent>, log: seq<Event>)

  datatype Answer = Ok | NotFound | Refused | WriteFailed | Locked | ExecutionFailed

  datatype Reply = Reply(service: Service, answer: Answer)

  // ----- Store -----

  function Save(s: Service, i: Intent, ok: bool): (r: Service) {
    if ok then Service(s.intents[i.id := i], s.log + [Wrote(i.id, i.status)]) else s
  }

  function Saved(s: Service, i: Intent, ok: bool): (r: Reply) {
    Reply(Save(s, i, ok), if ok then Ok else WriteFailed)
  }

  function NewIntent(id: string, walletId: string, chain: string, requiredSigs: int,
                     expiryHours: int, maxRetries: int, now: nat): (r: Intent) {
    var hours: nat := if expiryHours <= 0 then 24 else expiryHours;
    var retries := if maxRetries <= 0 then 3 else maxRetries;
    Intent(id, walletId, chain, "", "", Draft, now, now, now + hours * 3600, [], requiredSigs, "", "", 0, retries)
  }

  function ApproveIntent(s: Service, id: string, approver: string, now: nat, ok: bool): (r: Reply) {
    if id !in s.intents then Reply(s, NotFound) else
    var i := s.intents[id];
    if i.status != Draft && i.status != Pending then Reply(s, Refused)
    else if approver in i.approvedBy then Reply(s, Refused)
    else
      var approvers := i.approvedBy + [approver];
      var status := if |approvers| >= i.requiredSigs then Approved else i.status;
      Saved(s, i.(approvedBy := approvers, updatedAt := now, status := status), ok)
  }

  function WithStatus(i: Intent, status: Status, txHash: string, error: string, now: nat): (r: Intent) {
    i.(status := status, updatedAt := now,
       txHash := if txHash != "" then txHash else i.txHash,
       error := if error != "" then error else i.error)
  }

  function UpdateIntentStatus(s: Service, id: string, status: Status, txHash: string, error: string,
                              now: nat, ok: bool): (r: Reply) {
    if id !in s.intents then Reply(s, NotFound)
    else Saved(s, WithStatus(s.intents[id], status, txHash, error, now), ok)
  }

  function RetryIntent(s: Service, id: string, now: nat, ok: bool): (r: Reply) {
    if id !in s.intents then Reply(s, NotFound) else
    var i := s.intents[id];
    if i.status != Failed && i.status != PermanentFail && i.status != Executing then Reply(s, Refused)
    else if i.retryCount >= i.maxRetries then Reply(s, Refused)
    else
      var status := if i.requiredSigs > 1 then Draft else Approved;
      Saved(s, i.(retryCount := i.retryCount + 1, updatedAt := now, status := status, error := ""), ok)
  }

  predicate Expirable(i: Intent, now: nat) {
    (i.status == Draft || i.status == Pending || i.status == Approved) && i.expiresAt != 0 && now > i.expiresAt
  }

  function ExpireOne(s: Service, id: string, now: nat, ok: bool): (r: Service) {
    if id in s.intents && Expirable(s.intents[id], now)
    then Save(s, s.intents[id].(status := Expired, updatedAt := now, error := "Intent expired due to timeout"), ok)
    else s
  }

  /** Expiry visits the files in some order; `ok[k]` says whether the k-th visit could write. */
  function ExpireIntents(s: Service, order: seq<string>, now: nat, ok: seq<bool>): (r: Service)
    requires |ok| == |order|
    decreases |order|
  {
    if order == [] then s
    else ExpireOne(ExpireIntents(s, order[..|order| - 1], now, ok[..|ok| - 1]), order[|order| - 1], now, ok[|ok| - 1])
  }

  // ----- Handlers -----

  function HandleCreate(s: Service, id: string, walletId: string, chain: string, tokenType: string, tokenAddress: string,
                        sigs: int, creator: string, expiryHours: int, maxRetries: int, accountFound: bool,
                        now: nat, createOk: bool, tokenOk: bool, approveOk: bool): (r: Reply) {
    var onChain := if chain == "" then "ethereum" else chain;
    var kind := if tokenType != "" then tokenType
                else if tokenAddress == "" then "native"
                else if onChain == "solana" then "spl" else "erc20";
    var requiredSigs := if sigs <= 0 then 1 else sigs;
    var who := if creator == "" then "creator" else creator;
    if !accountFound then Reply(s, NotFound) else
    var i := NewIntent(id, walletId, onChain, requiredSigs, expiryHours, maxRetries, now);
    if !createOk then Reply(s, WriteFailed) else
    var s1 := Save(s, i, true);
    var s2 := if tokenAddress != "" || kind != "native"
              then Save(s1, i.(tokenAddress := tokenAddress, tokenType := kind, updatedAt := now), tokenOk)
              else s1;
    Reply(if requiredSigs == 1 then ApproveIntent(s2, id, who, now, approveOk).service else s2, Ok)
  }

  function HandleApprove(s: Service, id: string, approver: string, now: nat, ok: bool): (r: Reply) {
    ApproveIntent(s, id, if approver == "" then "unknown" else approver, now, ok)
  }

  function HandleReject(s: Service, id: string, reason: string, now: nat, ok: bool): (r: Reply) {
    if id !in s.intents then Reply(s, NotFound)
    else if s.intents[id].status != Draft && s.intents[id].status != Pending then Reply(s, Refused)
    else UpdateIntentStatus(s, id, Rejected, "", reason, now, ok)
  }

  function HandleRetry(s: Service, id: string, now: nat, ok: bool): (r: Reply) {
    if id !in s.intents then Reply(s, NotFound)
    else if s.intents[id].status != Failed && s.intents[id].status != PermanentFail then Reply(s, Refused)
    else if s.intents[id].retryCount >= s.intents[id].maxRetries then Reply(s, Refused)
    else RetryIntent(s, id, now, ok)
  }

  datatype Balance = Sufficient | Insufficient | Unknown

  /** Everything outside the service that one execution meets. `mpc` is the threshold signer being
      available for the account; the three `...Ok` fields are the outcomes of the status writes. */
  datatype Env = Env(
    lockTaken: bool, mpc: bool, keyLoads: bool, policyHolds: bool, signerBuilds: bool,
    amountParses: bool, balance: Balance, sent: Option<string>,
    executingOk: bool, failedOk: bool, sentOk: bool, now: nat)

  datatype Path = SolanaNative | EthereumNative | Erc20 | Spl

  function PathOf(i: Intent): (r: Path) {
    if i.tokenType == "spl" then Spl
    else if i.tokenType == "erc20" then Erc20
    else if i.chain == "solana" then SolanaNative
    else EthereumNative
  }

  /** White space as the source's trimming function knows it. */
  predicate Space(c: char) {
    || c == ' ' || '\t' <= c <= '\r' || c == '\U{85}' || c == '\U{A0}' || c == '\U{1680}'
    || '\U{2000}' <= c <= '\U{200A}' || c == '\U{2028}' || c == '\U{2029}' || c == '\U{202F}'
    || c == '\U{205F}' || c == '\U{3000}'
  }

  predicate Blank(text: string) {
    forall c :: c in text ==> Space(c)
  }

  /** What stops an execution before the "executing" write: nothing, an error that is recorded as
      "failed", or an error that leaves the status alone. */
  datatype Precheck = Proceed | RecordFailure | LeaveAlone

  function SignerCheck(path: Path, mpc: bool, env: Env): (r: Precheck) {
    if (path.Spl? || path.SolanaNative?) && !mpc && !env.signerBuilds then RecordFailure else Proceed
  }

  function PathCheck(i: Intent, path: Path, env: Env): (r: Precheck) {
    match path
    case SolanaNative =>
      if !env.amountParses then RecordFailure
      else if env.balance == Unknown then LeaveAlone
      else if env.balance == Insufficient then RecordFailure else Proceed
    case EthereumNative => if env.balance == Insufficient then RecordFailure else Proceed
    case Erc20 =>
      if i.tokenAddress == "" then RecordFailure
      else if env.balance == Insufficient then RecordFailure else Proceed
    case Spl =>
      if Blank(i.tokenAddress) then RecordFailure
      else if env.balance != Sufficient then RecordFailure else Proceed
  }

  function Check(i: Intent, env: Env): (r: Precheck) {
    var mpc := i.chain == "solana" && env.mpc;
    if !mpc && !env.keyLoads then RecordFailure
    else if !env.policyHolds then RecordFailure
    else if SignerCheck(PathOf(i), mpc, env) != Proceed then RecordFailure
    else PathCheck(i, PathOf(i), env)
  }

  function MarkFailed(s: Service, id: string, env: Env): (r: Reply) {
    Reply(UpdateIntentStatus(s, id, Failed, "", "error", env.now, env.failedOk).service, ExecutionFailed)
  }

  /** After the persisted "executing" write: build the signer, hand the transaction to the network, and
      record the result. Only a native Solana transfer records a failed send. */
  function Send(s: Service, id: string, path: Path, env: Env): (r: Reply) {
    if (path.EthereumNative? || path.Erc20?) && !env.signerBuilds then MarkFailed(s, id, env)
    else
      var sent := s.(log := s.log + [Broadcast(id)]);
      match env.sent
      case None => if path.SolanaNative? then MarkFailed(sent, id, env) else Reply(sent, ExecutionFailed)
      case Some(txHash) => Reply(UpdateIntentStatus(sent, id, Sent, txHash, "", env.now, env.sentOk).service, Ok)
  }

  function HandleExecute(s: Service, id: string, env: Env): (r: Reply) {
    if id !in s.intents then Reply(s, NotFound) else
    var i := s.intents[id];
    if i.status != Approved then Reply(s, Refused)
    else if !env.lockTaken then Reply(s, Locked)
    else
      match Check(i, env)
      case RecordFailure => MarkFailed(s, id, env)
      case LeaveAlone => Reply(s, ExecutionFailed)
      case Proceed =>
        var w := UpdateIntentStatus(s, id, Executing, "", "", env.now, env.executingOk);
        if w.answer != Ok then Reply(w.service, ExecutionFailed) else Send(w.service, id, PathOf(i), env)
  }

  datatype Op =
    | Create(id: string, walletId: string, chain: string, tokenType: string, tokenAddress: string, sigs: int,
             creator: string, expiryHours: int, maxRetries: int, accountFound: bool, createOk: bool, tokenOk: bool, approveOk: bool, now: nat)
    | Approve(id: string, approver: string, now: nat, ok: bool)
    | Reject(id: string, reason: string, now: nat, ok: bool)
    | Execute(id: string, env: Env)
    | Retry(id: string, now: nat, ok: bool)
    | Expire(order: seq<string>, now: nat, oks: seq<bool>)

  /** Fresh identifiers come from a UUID generator, so a create never reuses one. */
  predicate Enabled(s: Service, op: Op) {
    match op
    case Create(id, _, _, _, _, _, _, _, _, _, _, _, _, _) => id !in s.intents
    case Expire(order, _, oks) => |order| == |oks|
    case _ => true
  }

  function Step(s: Service, op: Op): (r: Service)
    requires Enabled(s, op)
  {
    match op
    case Create(id, w, c, tt, ta, sigs, creator, hours, retries, found, ok1, ok2, ok3, now) =>
      HandleCreate(s, id, w, c, tt, ta, sigs, creator, hours, retries, found, now, ok1, ok2, ok3).service
    case Approve(id, approver, now, ok) => HandleApprove(s, id, approver, now, ok).service
    case Reject(id, reason, now, ok) => HandleReject(s, id, reason, now, ok).service
    case Execute(id, env) => HandleExecute(s, id, env).service
    case Retry(id, now, ok) => HandleRetry(s, id, now, ok).service
    case Expire(order, now, oks) => ExpireIntents(s, order, now, oks)
  }

  const Empty := Service(map[], [])

  /** The service after a serialised run of handler calls from an empty store. */
  function Run(ops: seq<Op>): (r: Service) {
    if ops == [] then Empty else
      var before, op := Run(ops[..|ops| - 1]), ops[|ops| - 1];
      if Enabled(before, op) then Step(before, op) else before
  }
}
