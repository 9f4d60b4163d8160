/** The signing and DKG session requests at the granularity of their lock acquisitions
    (cmd/mpc-enclave/src/ipc.rs). Requests run concurrently; each step below is one critical section.
    Every session object and every generated nonce carries a number, so that the trace can say which
    session object a partial signature came from and which nonce it consumed. The nonce itself is
    derived: `inputs` keeps what each generation call derived it from. DKG secrets carry the session ids
    of the requests that made them. */
module SigningLocks {
  import opened Bytes
  import opened ReplayCache
  import opened EnclaveModel

  type StartOp = op: Op | op.SignStart? witness SignStart("", [], [], 0)
  type Round1Op = op: Op | op.SignRound1? witness SignRound1("", 0, None)
  type Round2Op = op: Op | op.SignRound2? witness SignRound2("", 0, false)

  /** What a round-1 request knows once it has passed the guard. */
  datatype Entry = Entry(op: Round1Op, instance: nat, start: nat)

  /** What a round-2 request copied out of the session when it passed the guard. */
  datatype Grab = Grab(op: Round2Op, instance: nat, start: nat, hash: Blob, nonces: Option<Blob>, token: nat)

  /** What a nonce is derived from (cmd/mpc-enclave/src/crypto.rs): equal inputs give equal nonces. */
  datatype NonceInput = NonceInput(sessionId: string, hash: Blob, share: Blob)

  type DkgStartOp = op: Op | op.DkgStartSession? witness DkgStartSession("", 0)
  type Part1Op = op: Op | op.DkgPart1? witness DkgPart1("", 0, None)
  type Part2Op = op: Op | op.DkgPart2? witness DkgPart2("", 0, None)
  type Part3Op = op: Op | op.DkgPart3? witness DkgPart3("", 0, None)

  /** The DKG session object a request saw when it passed its guard. */
  datatype Ticket = Ticket(instance: nat, start: nat)

  /** The session ids that the part-1 and part-2 requests behind a round-2 secret named. */
  datatype Chain = Chain(part1: string, part2: string)

  datatype Install = Install(chain: Chain, part3: string)

  datatype DkgPc =
    | StartCheck(start: DkgStartOp)
    | StartPut(start: DkgStartOp)
    | StartDone
    | P1Phase(p1: Part1Op, ticket: Ticket)
    | P1Store(p1: Part1Op, ticket: Ticket)
    | P2Store(p2: Part2Op, ticket: Ticket, from: string)
    | P3Key(p3: Part3Op, ticket: Ticket, chain: Chain)
    | P3Share(p3: Part3Op)
    | P3Phase
    | P3Clear
    | DkgAbortClear
    | DkgAbortPhase

  datatype Pc =
    | Begin(op: Op)
    | Dkg(step: DkgPc)
    | StartShare(start: StartOp)
    | StartInstall(start: StartOp)
    | StartPhase
    | R1Read(r1: Entry)
    | R1Check(r1: Entry, hash: Blob)
    | R1Share(r1: Entry)
    | R1Reread(r1: Entry, share: Blob)
    | R1Generate(r1: Entry, share: Blob, hash: Blob)
    | R1Mark(r1: Entry, hash: Blob, token: nat)
    | R1Store(r1: Entry, token: nat)
    | R2Check(r2: Grab)
    | R2Nonces(r2: Grab)
    | R2Commitments(r2: Grab)
    | R2Sign(r2: Grab)
    | R2Mark(r2: Grab)
    | R2Phase
    | R2Clear
    | AbortClear
    | AbortPhase
    | Finished(outcome: Outcome)

  datatype Trace =
    | Passed(instance: nat)
    | Signed(instance: nat, token: nat)

  /** Shared memory. `current` numbers the session object in the slot, `nonce` the nonce stored in it;
      `inputs[n]` is what nonce number `n` was derived from. `from` is the id named by the part-1 request
      whose secret the DKG slot holds, `chain` the ids behind its round-2 secret. */
  datatype Global = Global(
    shared: State, current: nat, nonce: nat, inputs: seq<NonceInput>, trace: seq<Trace>,
    from: string, chain: Chain, installs: seq<Install>)

  datatype Local = Local(global: Global, pc: Pc)

  function Slot(g: Global, slot: Option<SigningSession>): (r: Global) {
    g.(shared := g.shared.(signing := slot))
  }

  function SetPhase(g: Global, phase: Phase): (r: Global) {
    g.(shared := g.shared.(phase := phase))
  }

  function SlotHash(g: Global): (r: Blob) {
    if g.shared.signing.Some? then g.shared.signing.value.hash else []
  }

  function Quit(g: Global, why: Failure): (r: Local) {
    Local(g, Finished(Failed(why)))
  }

  function BeginRound1(g: Global, op: Round1Op): (r: Local)
  {
    match g.shared.signing
    case None => Quit(g, NoSession)
    case Some(s) =>
      if s.sessionId != op.sessionId then Quit(g, OtherSession)
      else if Elapsed(op.now, s.startTime) > SIGNING_TIMEOUT then Quit(SetPhase(Slot(g, None), Ready), TimedOut)
      else if s.round != 1 then Quit(g, WrongRound)
      else Local(g, R1Read(Entry(op, g.current, s.startTime)))
  }

  /** The round-2 guard: check, switch to round 2 and copy the nonces, all under one write lock. */
  function BeginRound2(g: Global, op: Round2Op): (r: Local)
  {
    match g.shared.signing
    case None => Quit(g, NoSession)
    case Some(s) =>
      if s.sessionId != op.sessionId then Quit(g, OtherSession)
      else if Elapsed(op.now, s.startTime) > SIGNING_TIMEOUT then Quit(SetPhase(Slot(g, None), Ready), TimedOut)
      else if s.round != 1 then Quit(g, WrongRound)
      else Local(Slot(g, Some(s.(round := 2))).(trace := g.trace + [Passed(g.current)]),
                 R2Check(Grab(op, g.current, s.startTime, s.hash, s.nonces, g.nonce)))
  }

  // ----- DKG sessions -----

  function DkgSlot(g: Global, slot: Option<DkgSession>): (r: Global) {
    g.(shared := g.shared.(dkg := slot))
  }

  function Log(g: Global, e: Event): (r: Global) {
    g.(shared := g.shared.(log := g.shared.log + [e]))
  }

  function BeginPart1(g: Global, op: Part1Op): (r: Local) {
    var r := DkgPart1Guard(g.shared, op.sessionId, op.now);
    var h := g.(shared := r.state);
    if r.outcome != Done then Local(h, Finished(r.outcome))
    else Local(h, Dkg(P1Phase(op, Ticket(r.state.dkgs, r.state.dkg.value.startTime))))
  }

  function BeginPart2(g: Global, op: Part2Op): (r: Local) {
    match g.shared.dkg
    case None => Quit(g, NoSession)
    case Some(d) =>
      if d.sessionId != op.sessionId then Quit(g, OtherSession)
      else if Elapsed(op.now, d.startTime) > DKG_TIMEOUT then Quit(DkgSlot(g, None), TimedOut)
      else if d.round != 1 then Quit(g, WrongRound)
      else if d.secret1.None? then Quit(g, NoSecret)
      else if op.secret.None? then Quit(g, CryptoFailed)
      else Local(g, Dkg(P2Store(op, Ticket(g.shared.dkgs, d.startTime), g.from)))
  }

  function BeginPart3(g: Global, op: Part3Op): (r: Local) {
    match g.shared.dkg
    case None => Quit(g, NoSession)
    case Some(d) =>
      if d.sessionId != op.sessionId then Quit(g, OtherSession)
      else if Elapsed(op.now, d.startTime) > DKG_TIMEOUT then Quit(DkgSlot(g, None), TimedOut)
      else if d.round != 2 then Quit(g, WrongRound)
      else if d.secret2.None? then Quit(g, NoSecret)
      else if op.package.None? then Quit(g, CryptoFailed)
      else Local(g, Dkg(P3Key(op, Ticket(g.shared.dkgs, d.startTime), g.chain)))
  }

  function DkgMicro(g: Global, step: DkgPc): (r: Local) {
    match step
    case StartCheck(op) => if g.shared.phase != Ready then Quit(g, NotReady) else Local(g, Dkg(StartPut(op)))
    case StartPut(op) =>
      var session := NewDkg(op.sessionId, op.now);
      Local(g.(shared := g.shared.(dkg := Some(session), dkgs := g.shared.dkgs + 1)), Dkg(StartDone))
    case StartDone => Local(SetPhase(g, KeyGeneration), Finished(Done))
    case P1Phase(op, ticket) =>
      Local(SetPhase(g, KeyGeneration),
            if op.secret.None? then Finished(Failed(CryptoFailed)) else Dkg(P1Store(op, ticket)))
    case P1Store(op, ticket) =>
      // the secret goes into whatever session is in the slot now
      var h := if g.shared.dkg.None? then g
               else DkgSlot(g, Some(g.shared.dkg.value.(secret1 := op.secret))).(from := op.sessionId);
      Local(Log(h, Part1(ticket.instance, op.sessionId, ticket.start, op.now)), Finished(Done))
    case P2Store(op, ticket, from) =>
      // so do the round and the round-2 secret
      var h := if g.shared.dkg.None? then g
               else DkgSlot(g, Some(g.shared.dkg.value.(round := 2, secret2 := op.secret)))
                      .(chain := Chain(from, op.sessionId));
      Local(Log(h, Part2(ticket.instance, op.sessionId, ticket.start, op.now)), Finished(Done))
    case P3Key(op, ticket, chain) =>
      var h := g.(shared := g.shared.(keyPackage := op.package), installs := g.installs + [Install(chain, op.sessionId)]);
      Local(Log(h, KeyInstalled(ticket.instance, op.sessionId, ticket.start, op.now)), Dkg(P3Share(op)))
    case P3Share(op) => Local(g.(shared := g.shared.(share := op.package)), Dkg(P3Phase))
    case P3Phase => Local(SetPhase(g, Ready), Dkg(P3Clear))
    case P3Clear => Local(DkgSlot(g, None), Finished(Done))
    case DkgAbortClear => Local(DkgSlot(g, None), Dkg(DkgAbortPhase))
    case DkgAbortPhase => Local(SetPhase(g, Ready), Finished(Done))
  }

  /** The first critical section of a DKG session request. */
  function BeginDkg(g: Global, op: Op): (r: Local)
    requires IsDkg(op)
  {
    match op
    case DkgStartSession(_, _) => Local(DkgSlot(g, None), Dkg(StartCheck(op)))
    case DkgPart1(_, _, _) => BeginPart1(g, op)
    case DkgPart2(_, _, _) => BeginPart2(g, op)
    case DkgPart3(_, _, _) => BeginPart3(g, op)
    case DkgAbort(id) =>
      if g.shared.dkg.None? then Quit(g, NoSession)
      else if g.shared.dkg.value.sessionId != id then Quit(g, OtherSession)
      else Local(g, Dkg(DkgAbortClear))
  }

  predicate IsDkg(op: Op) {
    op.DkgStartSession? || op.DkgPart1? || op.DkgPart2? || op.DkgPart3? || op.DkgAbort?
  }

  // ----- Signing sessions -----

  ghost function BeginOther(g: Global, op: Op): (r: Local) {
    if IsDkg(op) then BeginDkg(g, op) else
    match op
    case SignStart(_, _, _, _) => Local(Slot(g, None), StartShare(op))
    case SignAbort(id) =>
      if g.shared.signing.None? then Quit(g, NoSession)
      else if g.shared.signing.value.sessionId != id then Quit(g, OtherSession)
      else Local(g, AbortClear)
    case SignRound1(_, _, _) => BeginRound1(g, op)
    case SignRound2(_, _, _) => BeginRound2(g, op)
    case _ =>
      var r := Step(g.shared, op);
      Local(g.(shared := r.state), Finished(r.outcome))
  }

  ghost function StartStep(g: Global, pc: Pc): (r: Local)
    requires pc.StartShare? || pc.StartInstall? || pc.StartPhase?
  {
    match pc
    case StartShare(op) => if g.shared.share.None? then Quit(g, NoShare) else Local(g, StartInstall(op))
    case StartInstall(op) =>
      var n := g.shared.signings + 1;
      var session := SigningSession(op.sessionId, op.hash, op.participants, op.now, None, map[], 1);
      Local(g.(shared := g.shared.(signing := Some(session), signings := n), current := n), StartPhase)
    case StartPhase => Local(SetPhase(g, Signing), Finished(Done))
  }

  ghost function Round1Micro(g: Global, pc: Pc): (r: Local)
    requires pc.R1Read? || pc.R1Check? || pc.R1Share? || pc.R1Reread? || pc.R1Generate? || pc.R1Mark? || pc.R1Store?
  {
    var id, now := pc.r1.op.sessionId, pc.r1.op.now;
    match pc
    case R1Read(r) => Local(g, R1Check(r, SlotHash(g)))
    case R1Check(r, hash) =>
      if Fresh(g.shared.replay, Use(id, 1, hash)) then Local(g, R1Share(r)) else Quit(g, Replayed)
    case R1Share(r) =>
      if g.shared.share.None? then Quit(g, NoShare) else Local(g, R1Reread(r, g.shared.share.value))
    case R1Reread(r, share) => Local(g, R1Generate(r, share, SlotHash(g)))
    case R1Generate(r, share, hash) =>
      if r.op.nonces.None? then Quit(g, CryptoFailed)
      else Local(g.(inputs := g.inputs + [NonceInput(id, hash, share)]), R1Mark(r, hash, |g.inputs|))
    case R1Mark(r, hash, token) =>
      Local(g.(shared := g.shared.(replay := Mark(g.shared.replay, Use(id, 1, hash)),
                                   log := g.shared.log + [Round1(r.instance, id, hash, r.start, now)])),
            R1Store(r, token))
    case R1Store(r, token) =>
      // the nonce goes into whatever session is in the slot now
      if g.shared.signing.None? then Local(g, Finished(Done))
      else Local(Slot(g, Some(g.shared.signing.value.(nonces := r.op.nonces))).(nonce := token), Finished(Done))
  }

  ghost function Round2Micro(g: Global, pc: Pc): (r: Local)
    requires pc.R2Check? || pc.R2Nonces? || pc.R2Commitments? || pc.R2Sign?
  {
    match pc
    case R2Check(r) =>
      if Fresh(g.shared.replay, Use(r.op.sessionId, 2, r.hash)) then Local(g, R2Nonces(r)) else Quit(g, Replayed)
    case R2Nonces(r) =>
      if r.nonces.None? then Quit(g, NoNonces)
      else if g.shared.share.None? then Quit(g, NoShare)
      else Local(g, R2Commitments(r))
    case R2Commitments(r) =>
      if g.shared.signing.None? then Quit(g, NoSession) else Local(g, R2Sign(r))
    case R2Sign(r) =>
      if !r.op.signed then Quit(g, CryptoFailed)
      else Local(g.(trace := g.trace + [Signed(r.instance, r.token)]), R2Mark(r))
  }

  ghost function FinishMicro(g: Global, pc: Pc): (r: Local)
    requires pc.R2Mark? || pc.R2Phase? || pc.R2Clear? || pc.AbortClear? || pc.AbortPhase? || pc.Finished?
  {
    match pc
    case R2Mark(r) =>
      Local(g.(shared := g.shared.(
                 replay := Mark(g.shared.replay, Use(r.op.sessionId, 2, r.hash)),
                 log := g.shared.log + [Round2(r.instance, r.op.sessionId, r.hash, r.start, r.op.now)])), R2Phase)
    case R2Phase => Local(SetPhase(g, Ready), R2Clear)
    case R2Clear => Local(Slot(g, None), Finished(Done))
    case AbortClear => Local(Slot(g, None), AbortPhase)
    case AbortPhase => Local(SetPhase(g, Ready), Finished(Done))
    case Finished(_) => Local(g, pc)
  }

  /** One critical section of one request. */
  ghost function Micro(g: Global, pc: Pc): (r: Local) {
    match pc
    case Begin(op) => BeginOther(g, op)
    case Dkg(step) => DkgMicro(g, step)
    case StartShare(_) => StartStep(g, pc)
    case StartInstall(_) => StartStep(g, pc)
    case StartPhase => StartStep(g, pc)
    case R1Read(_) => Round1Micro(g, pc)
    case R1Check(_, _) => Round1Micro(g, pc)
    case R1Share(_) => Round1Micro(g, pc)
    case R1Reread(_, _) => Round1Micro(g, pc)
    case R1Generate(_, _, _) => Round1Micro(g, pc)
    case R1Mark(_, _, _) => Round1Micro(g, pc)
    case R1Store(_, _) => Round1Micro(g, pc)
    case R2Check(_) => Round2Micro(g, pc)
    case R2Nonces(_) => Round2Micro(g, pc)
    case R2Commitments(_) => Round2Micro(g, pc)
    case R2Sign(_) => Round2Micro(g, pc)
    case _ => FinishMicro(g, pc)
  }

  // ----- Interleavings -----

  datatype System = System(global: Global, requests: map<nat, Pc>)

  datatype Action = Arrive(request: nat, op: Op) | Advance(request: nat)

  const Idle := System(Global(InitialState, 0, 0, [], [], "", Chain("", ""), []), map[])

  ghost function Act(s: System, a: Action): (r: System) {
    match a
    case Arrive(t, op) => if t in s.requests then s else s.(requests := s.requests[t := Begin(op)])
    case Advance(t) =>
      if t !in s.requests then s else
      var l := Micro(s.global, s.requests[t]);
      System(l.global, s.requests[t := l.pc])
  }

  /** The system after any schedule of arrivals and steps. */
  ghost function Schedule(actions: seq<Action>): (r: System) {
    if actions == [] then Idle else Act(Schedule(actions[..|actions| - 1]), actions[|actions| - 1])
  }

  // ----- Who holds a nonce and who holds a pass -----

  function TokenOf(pc: Pc): (r: Option<nat>) {
    match pc
    case R1Mark(_, _, token) => Some(token)
    case R1Store(_, token) => Some(token)
    case R2Check(r) => if r.nonces.Some? then Some(r.token) else None
    case R2Nonces(r) => if r.nonces.Some? then Some(r.token) else None
    case R2Commitments(r) => Some(r.token)
    case R2Sign(r) => Some(r.token)
    case _ => None
  }

  function PassOf(pc: Pc): (r: Option<nat>) {
    match pc
    case R2Check(r) => Some(r.instance)
    case R2Nonces(r) => Some(r.instance)
    case R2Commitments(r) => Some(r.instance)
    case R2Sign(r) => Some(r.instance)
    case _ => None
  }

  /** The slot offers its nonce and its pass only while the session is in round 1. */
  function SlotOpen(g: Global): (r: bool) {
    g.shared.signing.Some? && g.shared.signing.value.round == 1
  }

  function SlotToken(g: Global): (r: Option<nat>) {
    if SlotOpen(g) && g.shared.signing.value.nonces.Some? then Some(g.nonce) else None
  }

  function SlotPass(g: Global): (r: Option<nat>) {
    if SlotOpen(g) then Some(g.current) else None
  }

  function TokensUsed(trace: seq<Trace>): (r: seq<nat>) {
    if trace == [] then [] else
      var e := trace[|trace| - 1];
      TokensUsed(trace[..|trace| - 1]) + if e.Signed? then [e.token] else []
  }

  function Signers(trace: seq<Trace>): (r: seq<nat>) {
    if trace == [] then [] else
      var e := trace[|trace| - 1];
      Signers(trace[..|trace| - 1]) + if e.Signed? then [e.instance] else []
  }

  function Passers(trace: seq<Trace>): (r: seq<nat>) {
    if trace == [] then [] else
      var e := trace[|trace| - 1];
      Passers(trace[..|trace| - 1]) + if e.Passed? then [e.instance] else []
  }

  ghost predicate NoRepeats<T>(s: seq<T>) {
    forall i, j :: 0 <= i < j < |s| ==> s[i] != s[j]
  }

  /** Numbers `bound` and above are unissued; an issued one is in at most one place: the slot, one
      request, or (once) among those already spent. */
  ghost predicate Unique(held: map<nat, Option<nat>>, slot: Option<nat>, spent: seq<nat>, bound: nat) {
    && NoRepeats(spent)
    && (forall n :: n in spent ==> n < bound)
    && (slot.Some? ==> slot.value < bound && slot.value !in spent)
    && (forall t :: t in held && held[t].Some? ==>
          held[t].value < bound && held[t].value !in spent && held[t] != slot)
    && (forall t, u :: t in held && u in held && t != u && held[t].Some? ==> held[t] != held[u])
  }

  function Tokens(requests: map<nat, Pc>): (r: map<nat, Option<nat>>) {
    map t | t in requests :: TokenOf(requests[t])
  }

  function Passes(requests: map<nat, Pc>): (r: map<nat, Option<nat>>) {
    map t | t in requests :: PassOf(requests[t])
  }

  ghost predicate TokensUnique(s: System) {
    Unique(Tokens(s.requests), SlotToken(s.global), TokensUsed(s.global.trace), |s.global.inputs|)
  }

  ghost predicate PassesUnique(s: System) {
    Unique(Passes(s.requests), SlotPass(s.global), Signers(s.global.trace), s.global.shared.signings + 1)
  }

  /** No session object passes the guard twice, and none still open has passed it. */
  ghost predicate GuardOnce(g: Global) {
    && NoRepeats(Passers(g.trace))
    && (forall n :: n in Passers(g.trace) ==> n <= g.shared.signings)
    && (SlotOpen(g) ==> g.current !in Passers(g.trace))
    && (g.shared.signing.Some? ==> g.current <= g.shared.signings)
  }

  ghost predicate Safe(s: System) {
    TokensUnique(s) && PassesUnique(s) && GuardOnce(s.global)
  }
}
