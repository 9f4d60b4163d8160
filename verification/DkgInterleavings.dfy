/** DKG requests under interleaving. Parts 1 and 2 store their secrets into whatever session is in the
    slot, without checking its id again (cmd/mpc-enclave/src/ipc.rs), so part 3 under one id can install
    a key made from secrets of other ids. This module says exactly which requests rule that out. */
module DkgInterleavings {
  import opened Bytes
  import opened ReplayCache
  import opened EnclaveModel
  import opened SigningLocks
  import opened SoloRequests
  import opened Schedules

  /** The session ids that requests for parts 1, 2 and 3 may name. */
  datatype Names = Names(part1: set<string>, part2: set<string>, part3: set<string>)

  predicate Allowed(names: Names, op: Op) {
    && (op.DkgPart1? ==> op.sessionId in names.part1)
    && (op.DkgPart2? ==> op.sessionId in names.part2)
    && (op.DkgPart3? ==> op.sessionId in names.part3)
  }

  ghost predicate AllAllowed(names: Names, ops: seq<Op>) {
    forall k :: 0 <= k < |ops| ==> Allowed(names, ops[k])
  }

  /** The three ids behind an installed key package are one id. */
  predicate Pure(i: Install) {
    i.chain.part1 == i.part3 && i.chain.part2 == i.part3
  }

  ghost predicate AllPure(installs: seq<Install>) {
    forall k :: 0 <= k < |installs| ==> Pure(installs[k])
  }

  // ----- Ids travel with the secrets -----

  predicate ChainNamed(names: Names, c: Chain) {
    c.part1 in names.part1 && c.part2 in names.part2
  }

  ghost predicate Named(names: Names, g: Global) {
    && (g.shared.dkg.Some? && g.shared.dkg.value.secret1.Some? ==> g.from in names.part1)
    && (g.shared.dkg.Some? && g.shared.dkg.value.secret2.Some? ==> ChainNamed(names, g.chain))
    && (forall k :: 0 <= k < |g.installs| ==>
          ChainNamed(names, g.installs[k].chain) && g.installs[k].part3 in names.part3)
  }

  predicate NamedPc(names: Names, pc: Pc) {
    match pc
    case Begin(op) => Allowed(names, op)
    case Dkg(P1Phase(op, _)) => op.sessionId in names.part1
    case Dkg(P1Store(op, _)) => op.sessionId in names.part1
    case Dkg(P2Store(op, _, from)) => ChainNamed(names, Chain(from, op.sessionId))
    case Dkg(P3Key(op, _, chain)) => ChainNamed(names, chain) && op.sessionId in names.part3
    case _ => true
  }

  lemma DkgStepNamed(names: Names, g: Global, step: DkgPc)
    requires Named(names, g) && NamedPc(names, Dkg(step))
    ensures Named(names, DkgMicro(g, step).global) && NamedPc(names, DkgMicro(g, step).pc)
  {
    hide ChainNamed;
  }

  lemma BeginDkgNamed(names: Names, g: Global, op: Op)
    requires Named(names, g) && Allowed(names, op) && IsDkg(op)
    ensures Named(names, BeginDkg(g, op).global) && NamedPc(names, BeginDkg(g, op).pc)
  {
  }

  /** Other requests leave the DKG slot alone. */
  predicate SameDkg(g: Global, h: Global) {
    h.shared.dkg == g.shared.dkg && h.from == g.from && h.chain == g.chain && h.installs == g.installs
  }

  lemma OtherStepsSameDkg(g: Global, pc: Pc)
    requires !pc.Dkg? && !pc.Begin?
    ensures SameDkg(g, Micro(g, pc).global) && !Micro(g, pc).pc.Begin? && !Micro(g, pc).pc.Dkg?
  {
    hide Mark, Fresh, Step, DkgMicro, BeginDkg;
  }

  lemma OtherBeginsSameDkg(g: Global, op: Op)
    requires !IsDkg(op)
    ensures var l := Micro(g, Begin(op)); SameDkg(g, l.global) && !l.pc.Begin? && !l.pc.Dkg?
  {
    hide Mark, Fresh, DkgMicro, BeginDkg, SignRound1Step, SignRound2Step;
  }

  lemma MicroNamed(names: Names, g: Global, pc: Pc)
    requires Named(names, g) && NamedPc(names, pc)
    ensures Named(names, Micro(g, pc).global) && NamedPc(names, Micro(g, pc).pc)
  {
    hide DkgMicro, BeginDkg, StartStep, Round1Micro, Round2Micro, FinishMicro, Step, ChainNamed;
    if pc.Dkg? {
      DkgStepNamed(names, g, pc.step);
    } else if pc.Begin? && IsDkg(pc.op) {
      BeginDkgNamed(names, g, pc.op);
    } else if pc.Begin? {
      OtherBeginsSameDkg(g, pc.op);
    } else {
      OtherStepsSameDkg(g, pc);
    }
  }

  ghost predicate NamedSystem(names: Names, s: System) {
    Named(names, s.global) && forall t :: t in s.requests ==> NamedPc(names, s.requests[t])
  }

  lemma {:induction false} ScheduleNamed(names: Names, actions: seq<Action>)
    requires AllAllowed(names, Arrived(actions))
    ensures NamedSystem(names, Schedule(actions))
  {
    hide Schedule, Arrived, Named, NamedPc, Micro, Allowed;
    if actions == [] {
      NothingNamed(names);
    } else {
      var before, a := actions[..|actions| - 1], actions[|actions| - 1];
      assert actions == before + [a];
      ScheduleSnoc(before, a);
      assert forall k :: 0 <= k < |Arrived(before)| ==> Arrived(actions)[k] == Arrived(before)[k];
      ScheduleNamed(names, before);
      var s := Schedule(before);
      match a
      case Arrive(t, op) =>
        assert Arrived(actions)[|Arrived(before)|] == op;
        BeginNamed(names, op);
      case Advance(t) =>
        if t in s.requests {
          MicroNamed(names, s.global, s.requests[t]);
        }
    }
  }

  lemma NothingNamed(names: Names)
    ensures NamedSystem(names, Schedule([]))
  {
  }

  lemma BeginNamed(names: Names, op: Op)
    requires Allowed(names, op)
    ensures NamedPc(names, Begin(op))
  {
  }

  /** Installs are made from secrets of requests that were there. */
  lemma InstallsNamed(names: Names, actions: seq<Action>, k: nat)
    requires AllAllowed(names, Arrived(actions)) && k < |Schedule(actions).global.installs|
    ensures var i := Schedule(actions).global.installs[k];
            ChainNamed(names, i.chain) && i.part3 in names.part3
  {
    hide Schedule, Arrived;
    ScheduleNamed(names, actions);
  }

  // ----- A schedule that mixes any three ids -----

  function StartOf(id: string): (r: DkgStartOp) {
    DkgStartSession(id, 0)
  }

  function First(id: string): (r: Part1Op) {
    DkgPart1(id, 0, Some([]))
  }

  function Second(id: string): (r: Part2Op) {
    DkgPart2(id, 0, Some([]))
  }

  function Third(id: string): (r: Part3Op) {
    DkgPart3(id, 0, Some([]))
  }

  function Mixing(a: string, b: string, c: string): (r: seq<Op>) {
    [Initialize(None), StartOf(a), First(a), DkgAbort(a), StartOf(b), Second(b), DkgAbort(b), StartOf(c), Third(c)]
  }

  /** A new session in the DKG slot, everything else as it was. */
  ghost function Open(g: Global, id: string): (r: Global)
    ensures r.shared.dkg.Some?
  {
    g.(shared := g.shared.(dkg := Some(NewDkg(id, 0)), dkgs := g.shared.dkgs + 1, phase := KeyGeneration))
  }

  lemma OpenSteps(g: Global, op: DkgStartOp)
    requires g.shared.phase == Ready && op.now == 0
    ensures var h := DkgSlot(g, None);
            var put := h.(shared := h.shared.(dkg := Some(NewDkg(op.sessionId, 0)), dkgs := h.shared.dkgs + 1));
            && Micro(g, Begin(op)) == Local(h, Dkg(StartCheck(op)))
            && Micro(h, Dkg(StartCheck(op))) == Local(h, Dkg(StartPut(op)))
            && Micro(h, Dkg(StartPut(op))) == Local(put, Dkg(StartDone))
            && Micro(put, Dkg(StartDone)) == Local(Open(g, op.sessionId), Finished(Done))
  {
    hide StartStep, Round1Micro, Round2Micro, FinishMicro, Step;
  }

  lemma OpenRun(g: Global, id: string)
    requires g.shared.phase == Ready
    ensures Drive(Local(g, Begin(StartOf(id))), 4) == Local(Open(g, id), Finished(Done))
  {
    OpenSteps(g, StartOf(id));
    hide Drive, Micro, Open;
    var h := DkgSlot(g, None);
    var put := h.(shared := h.shared.(dkg := Some(NewDkg(id, 0)), dkgs := h.shared.dkgs + 1));
    DriveNext(Local(g, Begin(StartOf(id))), 3);
    DriveNext(Local(h, Dkg(StartCheck(StartOf(id)))), 2);
    DriveNext(Local(h, Dkg(StartPut(StartOf(id)))), 1);
    DriveNext(Local(put, Dkg(StartDone)), 0);
    DriveNone(Local(Open(g, id), Finished(Done)));
  }

  ghost function Closed(g: Global): (r: Global) {
    SetPhase(DkgSlot(g, None), Ready)
  }

  lemma CloseRun(g: Global, id: string)
    requires g.shared.dkg.Some? && g.shared.dkg.value.sessionId == id
    ensures Drive(Local(g, Begin(DkgAbort(id))), 3) == Local(Closed(g), Finished(Done))
  {
    hide Drive, StartStep, Round1Micro, Round2Micro, FinishMicro, Step;
    DriveNext(Local(g, Begin(DkgAbort(id))), 2);
    DriveNext(Local(g, Dkg(DkgAbortClear)), 1);
    var cleared := DkgMicro(g, DkgAbortClear);
    DriveNext(cleared, 0);
    DriveDone(DkgMicro(cleared.global, DkgAbortPhase), 0);
  }

  ghost function TicketOf(g: Global): (r: Ticket)
    requires g.shared.dkg.Some?
  {
    Ticket(g.shared.dkgs, g.shared.dkg.value.startTime)
  }

  /** Part 1 up to its store. */
  lemma FirstFront(g: Global, id: string)
    ensures var h := Open(g, id);
            Drive(Local(h, Begin(First(id))), 2) == Local(h, Dkg(P1Store(First(id), TicketOf(h))))
  {
    hide Drive, StartStep, Round1Micro, Round2Micro, FinishMicro, Step;
    var h := Open(g, id);
    DriveNext(Local(h, Begin(First(id))), 1);
    DriveNext(Local(h, Dkg(P1Phase(First(id), TicketOf(h)))), 0);
    DriveNone(Local(h, Dkg(P1Store(First(id), TicketOf(h)))));
  }

  lemma StoreRun(g: Global, step: DkgPc)
    requires step.P1Store? || step.P2Store?
    ensures Drive(Local(g, Dkg(step)), 1) == DkgMicro(g, step)
  {
    hide Drive, StartStep, Round1Micro, Round2Micro, FinishMicro, Step;
    DriveNext(Local(g, Dkg(step)), 0);
    DriveDone(DkgMicro(g, step), 0);
  }

  /** Part 2 up to its store. */
  lemma SecondFront(g: Global, id: string)
    requires g.shared.dkg.Some? && g.shared.dkg.value == NewDkg(id, 0).(secret1 := Some([]))
    ensures Drive(Local(g, Begin(Second(id))), 1) == Local(g, Dkg(P2Store(Second(id), TicketOf(g), g.from)))
  {
    hide Drive, StartStep, Round1Micro, Round2Micro, FinishMicro, Step;
    DriveNext(Local(g, Begin(Second(id))), 0);
    DriveNone(Local(g, Dkg(P2Store(Second(id), TicketOf(g), g.from))));
  }

  /** Part 3 up to the installed key package. */
  lemma ThirdFront(g: Global, id: string)
    requires g.shared.dkg.Some? && g.shared.dkg.value == NewDkg(id, 0).(round := 2, secret2 := Some([]))
    ensures Drive(Local(g, Begin(Third(id))), 2).global.installs == g.installs + [Install(g.chain, id)]
  {
    hide Drive, StartStep, Round1Micro, Round2Micro, FinishMicro, Step;
    DriveNext(Local(g, Begin(Third(id))), 1);
    var l := BeginPart3(g, Third(id));
    DriveNext(l, 0);
    DriveNone(DkgMicro(g, l.pc.step));
  }

  // Global states along the schedule.

  ghost function Begun(): (r: Global) {
    Idle.global.(shared := InitialState.(phase := Ready, hasIdentity := true))
  }

  lemma BegunRun()
    ensures Drive(Local(Idle.global, Begin(Initialize(None))), 1) == Local(Begun(), Finished(Done))
  {
    hide Drive;
    DriveNext(Local(Idle.global, Begin(Initialize(None))), 0);
    DriveDone(Micro(Idle.global, Begin(Initialize(None))), 0);
  }

  /** The first session is over, and the second holds the first one's part-1 secret. */
  ghost function FirstStored(a: string, b: string): (r: Global) {
    var g := Open(Begun(), a);
    DkgMicro(Open(Closed(g), b), P1Store(First(a), TicketOf(g))).global
  }

  /** The second session is over, and the third holds the round-2 secret made in it. */
  ghost function SecondStored(a: string, b: string, c: string): (r: Global) {
    var g := FirstStored(a, b);
    DkgMicro(Open(Closed(g), c), P2Store(Second(b), TicketOf(g), a)).global
  }

  lemma FirstMove(a: string, b: string)
    ensures var g := Open(Begun(), a);
            var stored := P1Store(First(a), TicketOf(g));
            && Drive(Local(Begun(), Begin(StartOf(a))), 4) == Local(g, Finished(Done))
            && Drive(Local(g, Begin(First(a))), 2) == Local(g, Dkg(stored))
            && Drive(Local(g, Begin(DkgAbort(a))), 3) == Local(Closed(g), Finished(Done))
            && Drive(Local(Closed(g), Begin(StartOf(b))), 4) == Local(Open(Closed(g), b), Finished(Done))
            && Drive(Local(Open(Closed(g), b), Dkg(stored)), 1) == Local(FirstStored(a, b), Finished(Done))
            && FirstStored(a, b).shared.dkg == Some(NewDkg(b, 0).(secret1 := Some([])))
            && FirstStored(a, b).from == a && FirstStored(a, b).installs == []
  {
    hide Drive;
    var g := Open(Begun(), a);
    OpenRun(Begun(), a);
    FirstFront(Begun(), a);
    CloseRun(g, a);
    OpenRun(Closed(g), b);
    StoreRun(Open(Closed(g), b), P1Store(First(a), TicketOf(g)));
  }

  lemma SecondMove(a: string, b: string, c: string)
    ensures var g := FirstStored(a, b);
            g.shared.dkg.Some? &&
            var stored := P2Store(Second(b), TicketOf(g), a);
            && Drive(Local(g, Begin(Second(b))), 1) == Local(g, Dkg(stored))
            && Drive(Local(g, Begin(DkgAbort(b))), 3) == Local(Closed(g), Finished(Done))
            && Drive(Local(Closed(g), Begin(StartOf(c))), 4) == Local(Open(Closed(g), c), Finished(Done))
            && Drive(Local(Open(Closed(g), c), Dkg(stored)), 1) == Local(SecondStored(a, b, c), Finished(Done))
            && Drive(Local(SecondStored(a, b, c), Begin(Third(c))), 2).global.installs == [Install(Chain(a, b), c)]
  {
    FirstMove(a, b);
    hide Drive;
    var g := FirstStored(a, b);
    SecondFront(g, b);
    CloseRun(g, b);
    OpenRun(Closed(g), c);
    StoreRun(Open(Closed(g), c), P2Store(Second(b), TicketOf(g), a));
    ThirdFront(SecondStored(a, b, c), c);
  }

  /** The part-1 request of `a` is overtaken by an abort and a session for `b`, the part-2 request of `b`
      by an abort and a session for `c`: part 3 of `c` installs a key made from their secrets. */
  lemma AnyIdsMix(a: string, b: string, c: string) returns (actions: seq<Action>)
    ensures Arrived(actions) == Mixing(a, b, c)
    ensures Schedule(actions).global.installs == [Install(Chain(a, b), c)]
  {
    hide Schedule, Arrived, Drive, Open, Closed, Begun, FirstStored, SecondStored;
    actions := EverybodyArrives(Mixing(a, b, c));
    BegunRun();
    actions := Reach(actions, 0, 1, Local(Begun(), Finished(Done)));
    FirstMove(a, b);
    var g := Open(Begun(), a);
    actions := Reach(actions, 1, 4, Local(g, Finished(Done)));
    actions := Reach(actions, 2, 2, Local(g, Dkg(P1Store(First(a), TicketOf(g)))));
    actions := Reach(actions, 3, 3, Local(Closed(g), Finished(Done)));
    actions := Reach(actions, 4, 4, Local(Open(Closed(g), b), Finished(Done)));
    actions := Reach(actions, 2, 1, Local(FirstStored(a, b), Finished(Done)));
    SecondMove(a, b, c);
    g := FirstStored(a, b);
    actions := Reach(actions, 5, 1, Local(g, Dkg(P2Store(Second(b), TicketOf(g), a))));
    actions := Reach(actions, 6, 3, Local(Closed(g), Finished(Done)));
    actions := Reach(actions, 7, 4, Local(Open(Closed(g), c), Finished(Done)));
    actions := Reach(actions, 5, 1, Local(SecondStored(a, b, c), Finished(Done)));
    actions := Reach(actions, 8, 2, Drive(Local(SecondStored(a, b, c), Begin(Third(c))), 2));
  }

  // ----- The exact condition -----

  /** At most one id is named by the requests for the three parts (or some part is never requested). */
  ghost predicate OneId(names: Names) {
    forall a, b, c :: a in names.part1 && b in names.part2 && c in names.part3 ==> a == c && b == c
  }

  lemma MixingAllowed(names: Names, a: string, b: string, c: string)
    requires a in names.part1 && b in names.part2 && c in names.part3
    ensures AllAllowed(names, Mixing(a, b, c))
  {
  }

  /** Whatever else is requested: under every interleaving part 3 installs only keys made by parts 1 and 2
      of its own session id if and only if the requests for the three parts name one id. */
  lemma InstallsPureExactlyWhen(names: Names)
    ensures (forall actions :: AllAllowed(names, Arrived(actions)) ==> AllPure(Schedule(actions).global.installs))
       <==> OneId(names)
  {
    hide Schedule, Arrived, AllAllowed;
    if OneId(names) {
      forall actions | AllAllowed(names, Arrived(actions)) ensures AllPure(Schedule(actions).global.installs) {
        var installs := Schedule(actions).global.installs;
        forall k | 0 <= k < |installs| ensures Pure(installs[k]) {
          InstallsNamed(names, actions, k);
        }
      }
    } else {
      var a, b, c :| a in names.part1 && b in names.part2 && c in names.part3 && !(a == c && b == c);
      var actions := AnyIdsMix(a, b, c);
      MixingAllowed(names, a, b, c);
      assert !Pure(Schedule(actions).global.installs[0]);
    }
  }
}
