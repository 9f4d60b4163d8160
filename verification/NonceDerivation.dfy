/** Nonces under interleaving. Numbers are never consumed twice, but the nonce behind a number is
    derived from the session id, the message hash and the share (cmd/mpc-enclave/src/crypto.rs), so two
    generation calls with equal inputs give one nonce. This module says exactly which round-1 requests
    rule that out. */
module NonceDerivation {
  import opened Bytes
  import opened ReplayCache
  import opened EnclaveModel
  import opened SigningLocks
  import opened SigningInterleavings
  import opened SoloRequests
  import opened Schedules

  /** No two partial signatures used nonces derived from equal inputs. */
  ghost predicate NoncesDiffer(s: System) {
    var trace, inputs := s.global.trace, s.global.inputs;
    && (forall i :: 0 <= i < |trace| && trace[i].Signed? ==> trace[i].token < |inputs|)
    && (forall i, j :: 0 <= i < j < |trace| && trace[i].Signed? && trace[j].Signed? ==>
          inputs[trace[i].token] != inputs[trace[j].token])
  }

  function Round1Id(op: Op): (r: seq<string>) {
    if op.SignRound1? then [op.sessionId] else []
  }

  /** The session ids that the round-1 requests among `ops` name, in order. */
  function Round1Ids(ops: seq<Op>): (r: seq<string>) {
    if ops == [] then [] else Round1Ids(ops[..|ops| - 1]) + Round1Id(ops[|ops| - 1])
  }

  lemma Round1IdsSnoc(ops: seq<Op>, op: Op)
    ensures Round1Ids(ops + [op]) == Round1Ids(ops) + Round1Id(op)
  {
    assert (ops + [op])[..|ops|] == ops;
  }

  function NewIds(a: Action): (r: seq<string>) {
    if a.Arrive? then Round1Id(a.op) else []
  }

  // ----- One round-1 request per id is enough -----

  /** The id of a round-1 request that has not generated its nonce yet. */
  function PendingId(pc: Pc): (r: Option<string>) {
    match pc
    case Begin(op) => if op.SignRound1? then Some(op.sessionId) else None
    case R1Read(r) => Some(r.op.sessionId)
    case R1Check(r, _) => Some(r.op.sessionId)
    case R1Share(r) => Some(r.op.sessionId)
    case R1Reread(r, _) => Some(r.op.sessionId)
    case R1Generate(r, _, _) => Some(r.op.sessionId)
    case _ => None
  }

  /** Every named id is with at most one pending request or one generated nonce. */
  ghost predicate IdsUnique(requests: map<nat, Pc>, inputs: seq<NonceInput>, named: seq<string>) {
    && (forall t :: t in requests && PendingId(requests[t]).Some? ==> PendingId(requests[t]).value in named)
    && (forall n :: 0 <= n < |inputs| ==> inputs[n].sessionId in named)
    && (forall t, u :: t in requests && u in requests && t != u && PendingId(requests[t]).Some? ==>
          PendingId(requests[t]) != PendingId(requests[u]))
    && (forall t, n :: t in requests && 0 <= n < |inputs| ==> PendingId(requests[t]) != Some(inputs[n].sessionId))
    && (forall m, n :: 0 <= m < n < |inputs| ==> inputs[m].sessionId != inputs[n].sessionId)
  }

  lemma MicroKeepsPending(g: Global, pc: Pc)
    requires !pc.R1Generate?
    ensures Micro(g, pc).global.inputs == g.inputs
    ensures PendingId(Micro(g, pc).pc) == None || PendingId(Micro(g, pc).pc) == PendingId(pc)
  {
    hide Mark, Fresh, Step, DkgMicro, BeginDkg, FinishMicro, StartStep, Round2Micro;
    if pc.StartShare? || pc.StartInstall? || pc.StartPhase? {
      StartKeepsPending(g, pc);
    } else if pc.R2Check? || pc.R2Nonces? || pc.R2Commitments? || pc.R2Sign? {
      Round2KeepsPending(g, pc);
    } else if pc.R2Mark? || pc.R2Phase? || pc.R2Clear? || pc.AbortClear? || pc.AbortPhase? || pc.Finished? {
      FinishKeepsPending(g, pc);
    } else if pc.Dkg? {
      DkgKeepsPending(g, pc.step);
    } else if pc.Begin? && IsDkg(pc.op) {
      BeginDkgKeepsPending(g, pc.op);
    }
  }

  lemma StartKeepsPending(g: Global, pc: Pc)
    requires pc.StartShare? || pc.StartInstall? || pc.StartPhase?
    ensures StartStep(g, pc).global.inputs == g.inputs && PendingId(StartStep(g, pc).pc) == None
  {
  }

  lemma Round2KeepsPending(g: Global, pc: Pc)
    requires pc.R2Check? || pc.R2Nonces? || pc.R2Commitments? || pc.R2Sign?
    ensures Round2Micro(g, pc).global.inputs == g.inputs && PendingId(Round2Micro(g, pc).pc) == None
  {
    hide Fresh;
  }

  lemma FinishKeepsPending(g: Global, pc: Pc)
    requires pc.R2Mark? || pc.R2Phase? || pc.R2Clear? || pc.AbortClear? || pc.AbortPhase? || pc.Finished?
    ensures FinishMicro(g, pc).global.inputs == g.inputs && PendingId(FinishMicro(g, pc).pc) == None
  {
    hide Mark;
  }

  lemma DkgKeepsPending(g: Global, step: DkgPc)
    ensures DkgMicro(g, step).global.inputs == g.inputs && PendingId(DkgMicro(g, step).pc) == None
  {
  }

  lemma BeginDkgKeepsPending(g: Global, op: Op)
    requires IsDkg(op)
    ensures BeginDkg(g, op).global.inputs == g.inputs && PendingId(BeginDkg(g, op).pc) == None
  {
  }

  lemma GenerateMovesId(g: Global, pc: Pc)
    requires pc.R1Generate?
    ensures var l := Micro(g, pc);
            PendingId(l.pc) == None &&
            (l.global.inputs == g.inputs ||
             l.global.inputs == g.inputs + [NonceInput(pc.r1.op.sessionId, pc.hash, pc.share)])
  {
  }

  lemma PendingDrops(requests: map<nat, Pc>, inputs: seq<NonceInput>, named: seq<string>, t: nat, pc: Pc)
    requires IdsUnique(requests, inputs, named)
    requires PendingId(pc) == None || (t in requests && PendingId(pc) == PendingId(requests[t]))
    ensures IdsUnique(requests[t := pc], inputs, named)
  {
    hide PendingId;
  }

  lemma PendingGenerates(requests: map<nat, Pc>, inputs: seq<NonceInput>, named: seq<string>, t: nat, pc: Pc,
                         input: NonceInput)
    requires IdsUnique(requests, inputs, named) && t in requests
    requires PendingId(requests[t]) == Some(input.sessionId) && PendingId(pc) == None
    ensures IdsUnique(requests[t := pc], inputs + [input], named)
  {
    hide PendingId;
    assert input.sessionId in named;
  }

  lemma PendingArrives(requests: map<nat, Pc>, inputs: seq<NonceInput>, named: seq<string>, t: nat, pc: Pc)
    requires IdsUnique(requests, inputs, named) && t !in requests
    requires PendingId(pc).Some? && PendingId(pc).value !in named
    ensures IdsUnique(requests[t := pc], inputs, named + [PendingId(pc).value])
  {
    hide PendingId;
    var more := named + [PendingId(pc).value];
    assert more[|named|] in more;
    assert forall x :: x in named ==> x in more;
  }

  lemma MoreNamed(requests: map<nat, Pc>, inputs: seq<NonceInput>, named: seq<string>, more: seq<string>)
    requires IdsUnique(requests, inputs, named)
    ensures IdsUnique(requests, inputs, named + more)
  {
    hide PendingId;
    assert forall x :: x in named ==> x in named + more;
  }

  lemma ActKeepsIds(s: System, a: Action, named: seq<string>)
    requires IdsUnique(s.requests, s.global.inputs, named)
    requires forall x :: x in NewIds(a) ==> x !in named
    ensures IdsUnique(Act(s, a).requests, Act(s, a).global.inputs, named + NewIds(a))
  {
    hide IdsUnique, Micro;
    var inputs := s.global.inputs;
    match a
    case Arrive(t, op) =>
      if t in s.requests {
        MoreNamed(s.requests, inputs, named, NewIds(a));
      } else if op.SignRound1? {
        assert op.sessionId in NewIds(a);
        PendingArrives(s.requests, inputs, named, t, Begin(op));
      } else {
        PendingDrops(s.requests, inputs, named, t, Begin(op));
        assert named + [] == named;
      }
    case Advance(t) =>
      assert named + [] == named;
      if t in s.requests {
        var pc := s.requests[t];
        var l := Micro(s.global, pc);
        if pc.R1Generate? {
          GenerateMovesId(s.global, pc);
          if l.global.inputs == inputs {
            PendingDrops(s.requests, inputs, named, t, l.pc);
          } else {
            PendingGenerates(s.requests, inputs, named, t, l.pc,
                             NonceInput(pc.r1.op.sessionId, pc.hash, pc.share));
          }
        } else {
          MicroKeepsPending(s.global, pc);
          PendingDrops(s.requests, inputs, named, t, l.pc);
        }
      }
  }

  lemma {:induction false} ScheduleKeepsIds(actions: seq<Action>)
    requires NoRepeats(Round1Ids(Arrived(actions)))
    ensures IdsUnique(Schedule(actions).requests, Schedule(actions).global.inputs, Round1Ids(Arrived(actions)))
  {
    hide IdsUnique, NoRepeats, Round1Ids, Schedule, Arrived, Act, NewIds;
    if actions == [] {
      NobodyPending();
    } else {
      var before, a := actions[..|actions| - 1], actions[|actions| - 1];
      assert actions == before + [a];
      var named := Round1Ids(Arrived(before));
      NamedGrows(before, a);
      FirstNoRepeats(named, NewIds(a));
      ScheduleKeepsIds(before);
      ScheduleSnoc(before, a);
      ActKeepsIds(Schedule(before), a, named);
    }
  }

  lemma NobodyPending()
    ensures IdsUnique(Schedule([]).requests, Schedule([]).global.inputs, Round1Ids(Arrived([])))
  {
  }

  lemma NamedGrows(before: seq<Action>, a: Action)
    ensures Round1Ids(Arrived(before + [a])) == Round1Ids(Arrived(before)) + NewIds(a)
  {
    hide Schedule, Round1Ids, Arrived;
    ScheduleSnoc(before, a);
    if a.Arrive? {
      Round1IdsSnoc(Arrived(before), a.op);
    } else {
      assert Arrived(before) + [] == Arrived(before);
      assert Round1Ids(Arrived(before)) + [] == Round1Ids(Arrived(before));
    }
  }

  lemma FirstNoRepeats(a: seq<string>, b: seq<string>)
    requires NoRepeats(a + b)
    ensures NoRepeats(a) && forall x :: x in b ==> x !in a
  {
    var s := a + b;
    forall i, j | 0 <= i < j < |a| ensures a[i] != a[j] {
      assert a[i] == s[i] && a[j] == s[j];
    }
    forall x | x in b ensures x !in a {
      var j :| 0 <= j < |b| && b[j] == x;
      assert s[|a| + j] == x;
      assert forall i :: 0 <= i < |a| ==> a[i] == s[i] != s[|a| + j];
    }
  }

  /** If no two round-1 requests name the same session id, then under every interleaving no two partial
      signatures use nonces with equal inputs. */
  lemma DistinctIdsDistinctNonces(actions: seq<Action>)
    requires NoRepeats(Round1Ids(Arrived(actions)))
    ensures NoncesDiffer(Schedule(actions))
  {
    hide Schedule, Unique;
    var s := Schedule(actions);
    var trace, inputs := s.global.trace, s.global.inputs;
    ScheduleKeepsIds(actions);
    forall i | 0 <= i < |trace| && trace[i].Signed? ensures trace[i].token < |inputs| {
      TokenIssued(actions, i);
    }
    forall i, j | 0 <= i < j < |trace| && trace[i].Signed? && trace[j].Signed?
      ensures inputs[trace[i].token] != inputs[trace[j].token]
    {
      SignsAtMostOnce(actions, i, j);
      var m, n := trace[i].token, trace[j].token;
      assert inputs[m].sessionId != inputs[n].sessionId;
    }
  }

  lemma TokenIssued(actions: seq<Action>, i: nat)
    requires i < |Schedule(actions).global.trace| && Schedule(actions).global.trace[i].Signed?
    ensures Schedule(actions).global.trace[i].token < |Schedule(actions).global.inputs|
  {
    EveryScheduleSafe(actions);
    InList(Schedule(actions).global.trace, i);
  }

  // ----- Two round-1 requests for one id are not -----

  // The stretches of the requests that the schedule below puts together.

  ghost function Started(g: Global, op: StartOp): (r: Global)
    ensures r.shared.signing.Some?
  {
    var n := g.shared.signings + 1;
    var session := SigningSession(op.sessionId, op.hash, op.participants, op.now, None, map[], 1);
    g.(shared := g.shared.(signing := Some(session), signings := n, phase := Signing), current := n)
  }

  lemma StartRun(g: Global, op: StartOp)
    requires g.shared.share.Some?
    ensures Drive(Local(g, Begin(op)), 4) == Local(Started(g, op), Finished(Done))
  {
    hide Drive, DkgMicro, BeginDkg, Round1Micro, Round2Micro, FinishMicro, Step;
    DriveOne(Local(g, Begin(op)), 4);
    var l1 := Micro(g, Begin(op));
    DriveOne(l1, 3);
    var l2 := Micro(l1.global, l1.pc);
    DriveOne(l2, 2);
    var l3 := Micro(l2.global, l2.pc);
    DriveOne(l3, 1);
    DriveDone(Micro(l3.global, l3.pc), 0);
  }

  /** The session in the slot is open and belongs to `id`, within the time limit. */
  ghost predicate OpenFor(g: Global, id: string, now: nat) {
    && g.shared.share.Some? && g.shared.signing.Some?
    && g.shared.signing.value.sessionId == id && g.shared.signing.value.round == 1
    && Elapsed(now, g.shared.signing.value.startTime) <= SIGNING_TIMEOUT
  }

  ghost predicate MayGenerate(g: Global, op: Round1Op) {
    && OpenFor(g, op.sessionId, op.now) && op.nonces.Some?
    && Fresh(g.shared.replay, Use(op.sessionId, 1, g.shared.signing.value.hash))
  }

  ghost function Generated(g: Global, op: Round1Op): (r: Local)
    requires MayGenerate(g, op)
  {
    var s := g.shared.signing.value;
    Local(g.(inputs := g.inputs + [NonceInput(op.sessionId, s.hash, g.shared.share.value)]),
          R1Mark(Entry(op, g.current, s.startTime), s.hash, |g.inputs|))
  }

  lemma Round1Steps(g: Global, op: Round1Op)
    requires MayGenerate(g, op)
    ensures var s, share := g.shared.signing.value, g.shared.share.value;
            var e := Entry(op, g.current, s.startTime);
            && Micro(g, Begin(op)) == Local(g, R1Read(e))
            && Micro(g, R1Read(e)) == Local(g, R1Check(e, s.hash))
            && Micro(g, R1Check(e, s.hash)) == Local(g, R1Share(e))
            && Micro(g, R1Share(e)) == Local(g, R1Reread(e, share))
            && Micro(g, R1Reread(e, share)) == Local(g, R1Generate(e, share, s.hash))
            && Micro(g, R1Generate(e, share, s.hash)) == Generated(g, op)
  {
    hide Fresh, Mark, DkgMicro, BeginDkg, StartStep, Round2Micro, FinishMicro, Step;
  }

  /** Round 1 up to the generated nonce, before it is marked. */
  lemma Round1Front(g: Global, op: Round1Op)
    requires MayGenerate(g, op)
    ensures Drive(Local(g, Begin(op)), 6) == Generated(g, op)
  {
    Round1Steps(g, op);
    hide Drive, Micro, MayGenerate, Generated;
    var s, share := g.shared.signing.value, g.shared.share.value;
    var e := Entry(op, g.current, s.startTime);
    DriveOne(Local(g, Begin(op)), 6);
    DriveOne(Local(g, R1Read(e)), 5);
    DriveOne(Local(g, R1Check(e, s.hash)), 4);
    DriveOne(Local(g, R1Share(e)), 3);
    DriveOne(Local(g, R1Reread(e, share)), 2);
    DriveOne(Local(g, R1Generate(e, share, s.hash)), 1);
    DriveNone(Generated(g, op));
  }

  ghost function Stored(g: Global, e: Entry, hash: Blob, token: nat): (r: Global)
    requires g.shared.signing.Some?
  {
    var id := e.op.sessionId;
    g.(shared := g.shared.(signing := Some(g.shared.signing.value.(nonces := e.op.nonces)),
                           replay := Mark(g.shared.replay, Use(id, 1, hash)),
                           log := g.shared.log + [Round1(e.instance, id, hash, e.start, e.op.now)]),
       nonce := token)
  }

  /** The rest of round 1: the mark, and the nonce into whatever session is there. */
  lemma Round1Back(g: Global, e: Entry, hash: Blob, token: nat)
    requires g.shared.signing.Some?
    ensures Drive(Local(g, R1Mark(e, hash, token)), 2) == Local(Stored(g, e, hash, token), Finished(Done))
  {
    hide Drive, Mark, DkgMicro, BeginDkg, StartStep, Round2Micro, FinishMicro, Step;
    DriveOne(Local(g, R1Mark(e, hash, token)), 2);
    var l := Micro(g, R1Mark(e, hash, token));
    DriveOne(l, 1);
    DriveDone(Micro(l.global, l.pc), 0);
  }

  /** Round 2 up to the signature, before it is marked. */
  lemma Round2Front(g: Global, op: Round2Op)
    requires OpenFor(g, op.sessionId, op.now) && op.signed && g.shared.signing.value.nonces.Some?
    requires Fresh(g.shared.replay, Use(op.sessionId, 2, g.shared.signing.value.hash))
    ensures var s := g.shared.signing.value;
            Drive(Local(g, Begin(op)), 5) ==
            Local(Slot(g, Some(s.(round := 2))).(trace := g.trace + [Passed(g.current)] + [Signed(g.current, g.nonce)]),
                  R2Mark(Grab(op, g.current, s.startTime, s.hash, s.nonces, g.nonce)))
  {
    hide Drive, Fresh, Mark, DkgMicro, BeginDkg, StartStep, Round1Micro, FinishMicro, Step;
    var s := g.shared.signing.value;
    var r := Grab(op, g.current, s.startTime, s.hash, s.nonces, g.nonce);
    var h := Slot(g, Some(s.(round := 2))).(trace := g.trace + [Passed(g.current)]);
    DriveOne(Local(g, Begin(op)), 5);
    assert Micro(g, Begin(op)) == Local(h, R2Check(r));
    DriveOne(Local(h, R2Check(r)), 4);
    DriveOne(Local(h, R2Nonces(r)), 3);
    DriveOne(Local(h, R2Commitments(r)), 2);
    DriveOne(Local(h, R2Sign(r)), 1);
    DriveNone(Micro(h, R2Sign(r)));
  }

  function Asks(id: string): (r: Op) {
    SignRound1(id, 0, Some([]))
  }

  function Asking(ids: seq<string>): (r: seq<Op>)
    ensures |r| == |ids| && forall k :: 0 <= k < |ids| ==> r[k] == Asks(ids[k])
  {
    seq(|ids|, k requires 0 <= k < |ids| => Asks(ids[k]))
  }

  lemma {:induction false} AskingIds(ids: seq<string>)
    ensures Round1Ids(Asking(ids)) == ids
    decreases |ids|
  {
    if ids != [] {
      var n := |ids| - 1;
      AskingIds(ids[..n]);
      assert Asking(ids)[..n] == Asking(ids[..n]);
    }
  }

  /** The requests of the failing schedule: the round-1 requests, then an initialisation that loads a
      share, two starts and two round-2 requests. */
  function Mixing(ids: seq<string>, x: string): (r: seq<Op>) {
    Asking(ids) + [Initialize(Some([]))] + [Start(x)] + [Start(x)] + [Sign(x)] + [Sign(x)]
  }

  lemma MixingIds(ids: seq<string>, x: string)
    ensures Round1Ids(Mixing(ids, x)) == ids
  {
    var ops := Asking(ids);
    AskingIds(ids);
    Round1IdsSnoc(ops, Initialize(Some([])));
    ops := ops + [Initialize(Some([]))];
    Round1IdsSnoc(ops, Start(x));
    ops := ops + [Start(x)];
    Round1IdsSnoc(ops, Start(x));
    ops := ops + [Start(x)];
    Round1IdsSnoc(ops, Sign(x));
    Round1IdsSnoc(ops + [Sign(x)], Sign(x));
  }

  function Start(x: string): (r: StartOp) {
    SignStart(x, [], [], 0)
  }

  function Sign(x: string): (r: Round2Op) {
    SignRound2(x, 0, true)
  }

  /** Marking round 1 of a session, once or twice, leaves its round 2 unmarked. */
  lemma Round2StillFresh(x: string)
    ensures var one := Mark(map[], Use(x, 1, []));
            Fresh(one, Use(x, 2, [])) && Fresh(Mark(one, Use(x, 1, [])), Use(x, 2, []))
  {
    hide Mark, Fresh;
    var u := Use(x, 1, []);
    MarkAllSnoc([], u);
    MarkAllSnoc([u], u);
    assert [] + [u] == [u] && [u] + [u] == [u, u];
    assert MarkAll([]) == map[];
    NeverRejectsUnused([u], Use(x, 2, []));
    NeverRejectsUnused([u, u], Use(x, 2, []));
  }

  /** Global states along the failing schedule. */
  ghost function Loaded(): (r: Global) {
    Global(InitialState.(phase := Ready, hasIdentity := true, share := Some([])), 0, 0, [], [], "", Chain("", ""), [])
  }

  lemma InitializeRun()
    ensures Drive(Local(Idle.global, Begin(Initialize(Some([])))), 1) == Local(Loaded(), Finished(Done))
  {
    hide Drive;
    DriveOne(Local(Idle.global, Begin(Initialize(Some([])))), 1);
    DriveDone(Micro(Idle.global, Begin(Initialize(Some([])))), 0);
  }

  /** Two requests generate a nonce for one session before either marks it; the first stores its own. */
  ghost function TwoGenerated(x: string): (r: Global)
    ensures r.shared.signing.Some?
  {
    var input := NonceInput(x, [], []);
    Started(Loaded(), Start(x)).(inputs := [input, input])
  }

  ghost function Entered(x: string): (r: Entry) {
    Entry(Asks(x), 1, 0)
  }

  lemma FirstSession(x: string)
    ensures var g := Started(Loaded(), Start(x));
            var input := NonceInput(x, [], []);
            && Drive(Local(Loaded(), Begin(Start(x))), 4) == Local(g, Finished(Done))
            && Drive(Local(g, Begin(Asks(x))), 6) == Local(g.(inputs := [input]), R1Mark(Entered(x), [], 0))
            && Drive(Local(g.(inputs := [input]), Begin(Asks(x))), 6)
               == Local(TwoGenerated(x), R1Mark(Entered(x), [], 1))
  {
    hide Drive, Mark;
    var g := Started(Loaded(), Start(x));
    StartRun(Loaded(), Start(x));
    Round1Front(g, Asks(x));
    Round1Front(g.(inputs := [NonceInput(x, [], [])]), Asks(x));
  }

  /** The first nonce is stored and signed with; the session starts again. */
  ghost function FirstSigned(x: string): (r: Global) {
    var g := Stored(TwoGenerated(x), Entered(x), [], 0);
    Slot(g, Some(g.shared.signing.value.(round := 2))).(trace := [Passed(1), Signed(1, 0)])
  }

  lemma FirstSignature(x: string)
    ensures var g := Stored(TwoGenerated(x), Entered(x), [], 0);
            && Drive(Local(TwoGenerated(x), R1Mark(Entered(x), [], 0)), 2) == Local(g, Finished(Done))
            && (exists pc :: Drive(Local(g, Begin(Sign(x))), 5) == Local(FirstSigned(x), pc))
            && Drive(Local(FirstSigned(x), Begin(Start(x))), 4)
               == Local(Started(FirstSigned(x), Start(x)), Finished(Done))
  {
    hide Drive, Mark, Fresh;
    var g := Stored(TwoGenerated(x), Entered(x), [], 0);
    Round1Back(TwoGenerated(x), Entered(x), [], 0);
    Round2StillFresh(x);
    Round2Front(g, Sign(x));
    var pc := R2Mark(Grab(Sign(x), 1, 0, [], Some([]), 0));
    assert [] + [Passed(1)] + [Signed(1, 0)] == [Passed(1), Signed(1, 0)];
    assert Drive(Local(g, Begin(Sign(x))), 5) == Local(FirstSigned(x), pc);
    StartRun(FirstSigned(x), Start(x));
  }

  /** The second nonce lands in the new session and is signed with. */
  lemma SecondSignature(x: string)
    ensures var g := Started(FirstSigned(x), Start(x));
            var h := Stored(g, Entered(x), [], 1);
            && Drive(Local(g, R1Mark(Entered(x), [], 1)), 2) == Local(h, Finished(Done))
            && (exists l :: Drive(Local(h, Begin(Sign(x))), 5) == l && l.global.inputs == h.inputs &&
                            l.global.trace == [Passed(1), Signed(1, 0), Passed(2), Signed(2, 1)])
  {
    hide Drive, Mark, Fresh;
    var g := Started(FirstSigned(x), Start(x));
    var h := Stored(g, Entered(x), [], 1);
    Round1Back(g, Entered(x), [], 1);
    Round2StillFresh(x);
    Round2Front(h, Sign(x));
  }

  lemma MixingWaits(ids: seq<string>, i: nat, j: nat)
    requires i < j < |ids| && ids[i] == ids[j]
    ensures var n, x, w := |ids|, ids[i], Waiting(Mixing(ids, ids[i]));
            {i, j, n, n + 1, n + 2, n + 3, n + 4} <= w.Keys &&
            w[i] == Begin(Asks(x)) && w[j] == Begin(Asks(x)) && w[n] == Begin(Initialize(Some([]))) &&
            w[n + 1] == Begin(Start(x)) && w[n + 2] == Begin(Start(x)) &&
            w[n + 3] == Begin(Sign(x)) && w[n + 4] == Begin(Sign(x))
  {
  }

  /** Both round-1 requests for one id have generated a nonce, and neither has marked it. */
  lemma BothGenerate(ids: seq<string>, i: nat, j: nat) returns (actions: seq<Action>)
    requires i < j < |ids| && ids[i] == ids[j]
    ensures Round1Ids(Arrived(actions)) == ids
    ensures var n, x, s := |ids|, ids[i], Schedule(actions);
            s.global == TwoGenerated(x) &&
            {i, j, n + 2, n + 3, n + 4} <= s.requests.Keys &&
            s.requests[i] == R1Mark(Entered(x), [], 0) && s.requests[j] == R1Mark(Entered(x), [], 1) &&
            s.requests[n + 2] == Begin(Start(x)) &&
            s.requests[n + 3] == Begin(Sign(x)) && s.requests[n + 4] == Begin(Sign(x))
  {
    hide Schedule, Round1Ids, Arrived, Drive, Started, Loaded, TwoGenerated, Entered, Waiting, Mixing;
    var n, x := |ids|, ids[i];
    MixingIds(ids, x);
    actions := EverybodyArrives(Mixing(ids, x));
    MixingWaits(ids, i, j);
    InitializeRun();
    actions := Reach(actions, n, 1, Local(Loaded(), Finished(Done)));
    FirstSession(x);
    var g := Started(Loaded(), Start(x));
    actions := Reach(actions, n + 1, 4, Local(g, Finished(Done)));
    var one := g.(inputs := [NonceInput(x, [], [])]);
    actions := Reach(actions, i, 6, Local(one, R1Mark(Entered(x), [], 0)));
    actions := Reach(actions, j, 6, Local(TwoGenerated(x), R1Mark(Entered(x), [], 1)));
  }

  /** Whatever the other round-1 requests are: if two of them name one id, there is a schedule in which
      two partial signatures use nonces derived from equal inputs. */
  lemma RepeatedIdReusesNonce(ids: seq<string>, i: nat, j: nat) returns (actions: seq<Action>)
    requires i < j < |ids| && ids[i] == ids[j]
    ensures Round1Ids(Arrived(actions)) == ids
    ensures var g := Schedule(actions).global;
            g.trace == [Passed(1), Signed(1, 0), Passed(2), Signed(2, 1)] &&
            g.inputs == [NonceInput(ids[i], [], []), NonceInput(ids[i], [], [])]
  {
    hide Schedule, Round1Ids, Arrived, Drive, Started, Stored, FirstSigned, TwoGenerated, Entered;
    var n, x := |ids|, ids[i];
    actions := BothGenerate(ids, i, j);
    FirstSignature(x);
    var g := Stored(TwoGenerated(x), Entered(x), [], 0);
    actions := Reach(actions, i, 2, Local(g, Finished(Done)));
    var pc :| Drive(Local(g, Begin(Sign(x))), 5) == Local(FirstSigned(x), pc);
    actions := Reach(actions, n + 3, 5, Local(FirstSigned(x), pc));
    g := Started(FirstSigned(x), Start(x));
    actions := Reach(actions, n + 2, 4, Local(g, Finished(Done)));
    SecondSignature(x);
    var h := Stored(g, Entered(x), [], 1);
    actions := Reach(actions, j, 2, Local(h, Finished(Done)));
    var l := Drive(Local(h, Begin(Sign(x))), 5);
    actions := Reach(actions, n + 4, 5, l);
    InputsKept(x);
  }

  lemma InputsKept(x: string)
    ensures Stored(Started(FirstSigned(x), Start(x)), Entered(x), [], 1).inputs
         == [NonceInput(x, [], []), NonceInput(x, [], [])]
  {
    hide Mark;
  }

  /** Exactly when nonces cannot repeat: for round-1 requests that name `ids`, whatever else is
      requested, every interleaving keeps nonce inputs apart if and only if no id is named twice. */
  lemma NoncesDifferExactlyWhen(ids: seq<string>)
    ensures (forall actions :: Round1Ids(Arrived(actions)) == ids ==> NoncesDiffer(Schedule(actions))) <==> NoRepeats(ids)
  {
    hide Schedule, Round1Ids, Arrived;
    if NoRepeats(ids) {
      forall actions | Round1Ids(Arrived(actions)) == ids ensures NoncesDiffer(Schedule(actions)) {
        DistinctIdsDistinctNonces(actions);
      }
    } else {
      var i, j :| 0 <= i < j < |ids| && ids[i] == ids[j];
      var actions := RepeatedIdReusesNonce(ids, i, j);
      var trace := Schedule(actions).global.trace;
      assert trace[1].Signed? && trace[3].Signed?;
      assert !NoncesDiffer(Schedule(actions));
    }
  }
}
