/** Building schedules: requests arrive, and one request at a time takes a number of steps. */
module Schedules {
  import opened Bytes
  import opened EnclaveModel
  import opened SigningLocks
  import opened SoloRequests

  function Arrival(a: Action): (r: seq<Op>) {
    if a.Arrive? then [a.op] else []
  }

  /** The requests of a schedule, in order of arrival. */
  function Arrived(actions: seq<Action>): (r: seq<Op>) {
    if actions == [] then [] else Arrived(actions[..|actions| - 1]) + Arrival(actions[|actions| - 1])
  }

  lemma ScheduleSnoc(actions: seq<Action>, a: Action)
    ensures Schedule(actions + [a]) == Act(Schedule(actions), a)
    ensures Arrived(actions + [a]) == Arrived(actions) + Arrival(a)
  {
    hide Act;
    assert (actions + [a])[..|actions|] == actions;
  }

  /** A new request arrives. */
  lemma Arrives(actions: seq<Action>, t: nat, op: Op) returns (next: seq<Action>)
    requires t !in Schedule(actions).requests
    ensures Schedule(next) == Schedule(actions).(requests := Schedule(actions).requests[t := Begin(op)])
    ensures Arrived(next) == Arrived(actions) + [op]
  {
    hide Schedule, Arrived;
    next := actions + [Arrive(t, op)];
    ScheduleSnoc(actions, Arrive(t, op));
  }

  /** Requests that have arrived and not moved. */
  ghost function Waiting(ops: seq<Op>): (r: map<nat, Pc>) {
    map k: nat | k < |ops| :: Begin(ops[k])
  }

  lemma {:induction false} EverybodyArrives(ops: seq<Op>) returns (actions: seq<Action>)
    ensures Arrived(actions) == ops
    ensures Schedule(actions) == System(Idle.global, Waiting(ops))
    decreases |ops|
  {
    hide Schedule, Arrived;
    if ops == [] {
      actions := [];
      NobodyArrived();
    } else {
      var n := |ops| - 1;
      actions := EverybodyArrives(ops[..n]);
      assert Waiting(ops[..n])[n := Begin(ops[n])] == Waiting(ops);
      actions := Arrives(actions, n, ops[n]);
      assert ops == ops[..n] + [ops[n]];
    }
  }

  lemma NobodyArrived()
    ensures Arrived([]) == [] && Schedule([]) == System(Idle.global, Waiting([]))
  {
    assert Waiting([]) == map[];
  }

  /** One request advances `k` times. */
  ghost function Pushed(s: System, t: nat, k: nat): (r: System)
    requires t in s.requests
  {
    var l := Drive(Local(s.global, s.requests[t]), k);
    System(l.global, s.requests[t := l.pc])
  }

  lemma {:induction false} Push(actions: seq<Action>, t: nat, k: nat) returns (next: seq<Action>)
    requires t in Schedule(actions).requests
    ensures Schedule(next) == Pushed(Schedule(actions), t, k)
    ensures Arrived(next) == Arrived(actions)
    decreases k
  {
    hide Schedule, Arrived, Act, Pushed, Drive, Micro;
    var s := Schedule(actions);
    if k == 0 {
      next := actions;
      PushNone(s, t);
    } else {
      ScheduleSnoc(actions, Advance(t));
      PushOnce(s, t, k);
      assert Arrived(actions) + [] == Arrived(actions);
      next := Push(actions + [Advance(t)], t, k - 1);
    }
  }

  lemma PushNone(s: System, t: nat)
    requires t in s.requests
    ensures Pushed(s, t, 0) == s
  {
    hide Micro;
    assert s.requests[t := s.requests[t]] == s.requests;
  }

  lemma PushOnce(s: System, t: nat, k: nat)
    requires t in s.requests && k > 0
    ensures t in Act(s, Advance(t)).requests
    ensures Pushed(Act(s, Advance(t)), t, k - 1) == Pushed(s, t, k)
  {
    hide Micro;
    var l := Local(s.global, s.requests[t]);
    var m := Micro(l.global, l.pc);
    assert s.requests[t := m.pc][t := Drive(m, k - 1).pc] == s.requests[t := Drive(m, k - 1).pc];
    if l.pc.Finished? {
      FinishedStays(l.global, l.pc);
      DriveDone(l, k - 1);
      DriveDone(l, k);
    } else {
      DriveOne(l, k);
    }
  }

  lemma FinishedStays(g: Global, pc: Pc)
    requires pc.Finished?
    ensures Micro(g, pc) == Local(g, pc)
  {
  }

  /** Advances request `t`, which is known to get to `l` in `k` steps. */
  lemma Reach(actions: seq<Action>, t: nat, k: nat, l: Local) returns (next: seq<Action>)
    requires t in Schedule(actions).requests
    requires Drive(Local(Schedule(actions).global, Schedule(actions).requests[t]), k) == l
    ensures Schedule(next) == System(l.global, Schedule(actions).requests[t := l.pc])
    ensures Arrived(next) == Arrived(actions)
  {
    hide Drive, Schedule, Arrived;
    next := Push(actions, t, k);
  }
}
