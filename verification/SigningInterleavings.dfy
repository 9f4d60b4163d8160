/** Safety of every interleaving of signing requests: each session object passes the round-2 guard
    at most once, yields at most one partial signature, and the result of one nonce generation call is
    consumed at most once. Different calls may still derive the same nonce: see NonceDerivation. */
module SigningInterleavings {
  import opened Bytes
  import opened ReplayCache
  import opened EnclaveModel
  import opened SigningLocks

  type Held = map<nat, Option<nat>>

  // ----- Moves that keep numbers unique -----

  /** A request keeps or drops its number and the slot keeps or drops its own. */
  lemma UniqueShrink(held: Held, slot: Option<nat>, spent: seq<nat>, bound: nat,
                     t: nat, h: Option<nat>, slot': Option<nat>)
    requires Unique(held, slot, spent, bound)
    requires h == None || (t in held && h == held[t])
    requires slot' == None || slot' == slot
    ensures Unique(held[t := h], slot', spent, bound)
  {
  }

  /** A request is issued the next number. */
  lemma UniqueIssue(held: Held, slot: Option<nat>, spent: seq<nat>, bound: nat, t: nat)
    requires Unique(held, slot, spent, bound)
    ensures Unique(held[t := Some(bound)], slot, spent, bound + 1)
  {
  }

  /** The slot is issued the next number. */
  lemma UniqueIssueSlot(held: Held, slot: Option<nat>, spent: seq<nat>, bound: nat, t: nat)
    requires Unique(held, slot, spent, bound)
    ensures Unique(held[t := None], Some(bound), spent, bound + 1)
  {
  }

  /** The slot's number moves to a request. */
  lemma UniqueGrab(held: Held, slot: Option<nat>, spent: seq<nat>, bound: nat, t: nat)
    requires Unique(held, slot, spent, bound)
    ensures Unique(held[t := slot], None, spent, bound)
  {
  }

  /** A request's number moves into the slot. */
  lemma UniqueStore(held: Held, slot: Option<nat>, spent: seq<nat>, bound: nat, t: nat)
    requires Unique(held, slot, spent, bound) && t in held
    ensures Unique(held[t := None], held[t], spent, bound)
  {
  }

  /** A request spends its number. */
  lemma UniqueSpend(held: Held, slot: Option<nat>, spent: seq<nat>, bound: nat, t: nat)
    requires Unique(held, slot, spent, bound) && t in held && held[t].Some?
    ensures Unique(held[t := None], slot, spent + [held[t].value], bound)
  {
  }

  lemma TokensUpdate(requests: map<nat, Pc>, t: nat, pc: Pc)
    ensures Tokens(requests[t := pc]) == Tokens(requests)[t := TokenOf(pc)]
    ensures Passes(requests[t := pc]) == Passes(requests)[t := PassOf(pc)]
  {
  }

  lemma TraceSnoc(trace: seq<Trace>, e: Trace)
    ensures TokensUsed(trace + [e]) == if e.Signed? then TokensUsed(trace) + [e.token] else TokensUsed(trace)
    ensures Signers(trace + [e]) == if e.Signed? then Signers(trace) + [e.instance] else Signers(trace)
    ensures Passers(trace + [e]) == if e.Passed? then Passers(trace) + [e.instance] else Passers(trace)
  {
    assert (trace + [e])[..|trace|] == trace;
  }

  // ----- Steps -----

  /** Steps that only drop things: the slot's number and nonce, the request's number and nonce. */
  ghost predicate Drops(g: Global, pc: Pc, l: Local) {
    && l.global.trace == g.trace && l.global.inputs == g.inputs
    && l.global.shared.signings == g.shared.signings
    && (TokenOf(l.pc) == None || TokenOf(l.pc) == TokenOf(pc))
    && (PassOf(l.pc) == None || PassOf(l.pc) == PassOf(pc))
    && (SlotToken(l.global) == None || SlotToken(l.global) == SlotToken(g))
    && (SlotPass(l.global) == None || SlotPass(l.global) == SlotPass(g))
    && (l.global.shared.signing.Some? ==> g.shared.signing.Some? && l.global.current == g.current)
  }

  lemma DropKeepsSafe(s: System, t: nat, l: Local)
    requires Safe(s) && t in s.requests && Drops(s.global, s.requests[t], l)
    ensures Safe(System(l.global, s.requests[t := l.pc]))
  {
    hide Unique, NoRepeats, Tokens, Passes;
    TokensUpdate(s.requests, t, l.pc);
    var g := s.global;
    HeldAt(s.requests, t);
    UniqueShrink(Tokens(s.requests), SlotToken(g), TokensUsed(g.trace), |g.inputs|,
                 t, TokenOf(l.pc), SlotToken(l.global));
    UniqueShrink(Passes(s.requests), SlotPass(g), Signers(g.trace), g.shared.signings + 1,
                 t, PassOf(l.pc), SlotPass(l.global));
  }

  lemma HeldAt(requests: map<nat, Pc>, t: nat)
    requires t in requests
    ensures t in Tokens(requests) && Tokens(requests)[t] == TokenOf(requests[t])
    ensures t in Passes(requests) && Passes(requests)[t] == PassOf(requests[t])
  {
  }

  /** Operations outside the signing requests leave the session slot alone. */
  lemma OtherOpsKeepSlot(s: State, op: Op)
    requires !op.SignStart? && !op.SignRound1? && !op.SignRound2? && !op.SignAbort?
    ensures var s' := Step(s, op).state;
            s'.signings == s.signings && (s'.signing.Some? <==> s.signing.Some?) &&
            (s.signing.Some? ==> s'.signing.value.round == s.signing.value.round &&
                                 s'.signing.value.nonces == s.signing.value.nonces)
  {
  }

  lemma BeginDrops(g: Global, op: Op)
    requires !op.SignRound2?
    ensures Drops(g, Begin(op), Micro(g, Begin(op)))
  {
    hide BeginDkg;
    if IsDkg(op) {
      BeginDkgDrops(g, op);
    } else if !op.SignStart? && !op.SignRound1? && !op.SignAbort? {
      hide Step;
      OtherOpsKeepSlot(g.shared, op);
    }
  }

  /** Every step except the five that move a number is a drop. */
  lemma OtherStepsDrop(g: Global, pc: Pc)
    requires !pc.Begin? && !pc.StartInstall? && !pc.R1Generate? && !pc.R1Store? && !pc.R2Sign?
    ensures Drops(g, pc, Micro(g, pc))
  {
    hide Mark, Fresh, Step, DkgMicro;
    if pc.Dkg? {
      DkgStepsDrop(g, pc.step);
    }
  }

  /** DKG steps leave the signing slot alone. */
  lemma DkgStepsDrop(g: Global, step: DkgPc)
    ensures Drops(g, Dkg(step), DkgMicro(g, step))
  {
  }

  lemma BeginDkgDrops(g: Global, op: Op)
    requires IsDkg(op)
    ensures Drops(g, Begin(op), BeginDkg(g, op))
  {
  }

  lemma InstallKeepsSafe(s: System, t: nat)
    requires Safe(s) && t in s.requests && s.requests[t].StartInstall?
    ensures Safe(Act(s, Advance(t)))
  {
    hide Unique, NoRepeats, Tokens, Passes;
    var g := s.global;
    var l := Micro(g, s.requests[t]);
    TokensUpdate(s.requests, t, l.pc);
    UniqueShrink(Tokens(s.requests), SlotToken(g), TokensUsed(g.trace), |g.inputs|, t, None, None);
    UniqueIssueSlot(Passes(s.requests), SlotPass(g), Signers(g.trace), g.shared.signings + 1, t);
  }

  /** A nonce is generated for a request. */
  lemma GenerateShape(g: Global, pc: Pc)
    requires pc.R1Generate? && pc.r1.op.nonces.Some?
    ensures var l := Micro(g, pc);
            l.global == g.(inputs := l.global.inputs) && |l.global.inputs| == |g.inputs| + 1 &&
            TokenOf(l.pc) == Some(|g.inputs|) && PassOf(l.pc) == None
  {
  }

  lemma GenerateKeepsSafe(s: System, t: nat)
    requires Safe(s) && t in s.requests && s.requests[t].R1Generate?
    ensures Safe(Act(s, Advance(t)))
  {
    hide Unique, Tokens, Passes, Micro, Drops, GuardOnce;
    var g, pc := s.global, s.requests[t];
    var l := Micro(g, pc);
    if pc.r1.op.nonces.None? {
      GenerateFails(g, pc);
      DropKeepsSafe(s, t, l);
    } else {
      GenerateShape(g, pc);
      SameGuard(g, l.global);
      TokensUpdate(s.requests, t, l.pc);
      UniqueIssue(Tokens(s.requests), SlotToken(g), TokensUsed(g.trace), |g.inputs|, t);
      UniqueShrink(Passes(s.requests), SlotPass(g), Signers(g.trace), g.shared.signings + 1, t, None, SlotPass(g));
    }
  }

  lemma GenerateFails(g: Global, pc: Pc)
    requires pc.R1Generate? && pc.r1.op.nonces.None?
    ensures Drops(g, pc, Micro(g, pc))
  {
  }

  lemma SameGuard(g: Global, g': Global)
    requires GuardOnce(g) && Passers(g'.trace) == Passers(g.trace)
    requires g'.shared.signings == g.shared.signings && g'.current == g.current
    requires (g'.shared.signing.Some? ==> g.shared.signing.Some?) && (SlotOpen(g') ==> SlotOpen(g))
    ensures GuardOnce(g')
  {
  }

  /** A nonce is stored into an open slot. */
  lemma StoreShape(g: Global, pc: Pc)
    requires pc.R1Store? && SlotOpen(g) && pc.r1.op.nonces.Some?
    ensures var l := Micro(g, pc);
            SlotToken(l.global) == TokenOf(pc) && SlotPass(l.global) == SlotPass(g) &&
            l.global.trace == g.trace && l.global.inputs == g.inputs && l.global.current == g.current &&
            l.global.shared.signings == g.shared.signings && TokenOf(l.pc) == None && PassOf(l.pc) == None
  {
  }

  lemma StoreDrops(g: Global, pc: Pc)
    requires pc.R1Store? && (!SlotOpen(g) || pc.r1.op.nonces.None?)
    ensures Drops(g, pc, Micro(g, pc))
  {
  }

  lemma StoreKeepsSafe(s: System, t: nat)
    requires Safe(s) && t in s.requests && s.requests[t].R1Store?
    ensures Safe(Act(s, Advance(t)))
  {
    hide Unique, Tokens, Passes, Micro, Drops, GuardOnce;
    var g, pc := s.global, s.requests[t];
    var l := Micro(g, pc);
    if !SlotOpen(g) || pc.r1.op.nonces.None? {
      StoreDrops(g, pc);
      DropKeepsSafe(s, t, l);
    } else {
      StoreShape(g, pc);
      SameGuard(g, l.global);
      TokensUpdate(s.requests, t, l.pc);
      HeldAt(s.requests, t);
      UniqueStore(Tokens(s.requests), SlotToken(g), TokensUsed(g.trace), |g.inputs|, t);
      UniqueShrink(Passes(s.requests), SlotPass(g), Signers(g.trace), g.shared.signings + 1, t, None, SlotPass(g));
    }
  }

  /** A request signs, spending its pass and its nonce. */
  lemma SignShape(g: Global, pc: Pc)
    requires pc.R2Sign? && pc.r2.op.signed
    ensures var l := Micro(g, pc);
            l.global == g.(trace := g.trace + [Signed(pc.r2.instance, pc.r2.token)]) &&
            TokenOf(l.pc) == None && PassOf(l.pc) == None &&
            TokenOf(pc) == Some(pc.r2.token) && PassOf(pc) == Some(pc.r2.instance)
  {
  }

  lemma SignFails(g: Global, pc: Pc)
    requires pc.R2Sign? && !pc.r2.op.signed
    ensures Drops(g, pc, Micro(g, pc))
  {
  }

  lemma SignKeepsSafe(s: System, t: nat)
    requires Safe(s) && t in s.requests && s.requests[t].R2Sign?
    ensures Safe(Act(s, Advance(t)))
  {
    hide Unique, Tokens, Passes, TokensUsed, Signers, Passers, Micro, Drops, GuardOnce;
    var g, pc := s.global, s.requests[t];
    var l := Micro(g, pc);
    if !pc.r2.op.signed {
      SignFails(g, pc);
      DropKeepsSafe(s, t, l);
    } else {
      SignShape(g, pc);
      TokensUpdate(s.requests, t, l.pc);
      HeldAt(s.requests, t);
      TraceSnoc(g.trace, Signed(pc.r2.instance, pc.r2.token));
      SameGuard(g, l.global);
      UniqueSpend(Tokens(s.requests), SlotToken(g), TokensUsed(g.trace), |g.inputs|, t);
      UniqueSpend(Passes(s.requests), SlotPass(g), Signers(g.trace), g.shared.signings + 1, t);
    }
  }

  lemma NoRepeatsSnoc(s: seq<nat>, n: nat)
    requires NoRepeats(s) && n !in s
    ensures NoRepeats(s + [n])
  {
  }

  /** Passing the guard closes the slot and hands its pass and nonce to the request. */
  lemma GuardShape(g: Global, op: Round2Op)
    requires !Micro(g, Begin(op)).pc.Finished?
    ensures var l := Micro(g, Begin(op));
            SlotOpen(g) && !SlotOpen(l.global) && SlotToken(l.global) == None && SlotPass(l.global) == None &&
            TokenOf(l.pc) == SlotToken(g) && PassOf(l.pc) == SlotPass(g) == Some(g.current) &&
            l.global.trace == g.trace + [Passed(g.current)] && l.global.inputs == g.inputs &&
            l.global.current == g.current && l.global.shared.signings == g.shared.signings
  {
  }

  lemma GuardFails(g: Global, op: Round2Op)
    requires Micro(g, Begin(op)).pc.Finished?
    ensures Drops(g, Begin(op), Micro(g, Begin(op)))
  {
  }

  lemma GuardAfterPass(g: Global, g': Global)
    requires GuardOnce(g) && SlotOpen(g) && !SlotOpen(g')
    requires Passers(g'.trace) == Passers(g.trace) + [g.current]
    requires g'.shared.signings == g.shared.signings && g'.current == g.current
    ensures GuardOnce(g')
  {
    NoRepeatsSnoc(Passers(g.trace), g.current);
  }

  lemma GuardKeepsSafe(s: System, t: nat)
    requires Safe(s) && t in s.requests && s.requests[t].Begin? && s.requests[t].op.SignRound2?
    ensures Safe(Act(s, Advance(t)))
  {
    hide Unique, Tokens, Passes, TokensUsed, Signers, Passers, Micro, Drops, GuardOnce, SlotToken, SlotPass, SlotOpen;
    var g, op := s.global, s.requests[t].op;
    var l := Micro(g, Begin(op));
    if l.pc.Finished? {
      GuardFails(g, op);
      DropKeepsSafe(s, t, l);
    } else {
      GuardShape(g, op);
      TokensUpdate(s.requests, t, l.pc);
      TraceSnoc(g.trace, Passed(g.current));
      GuardAfterPass(g, l.global);
      UniqueGrab(Tokens(s.requests), SlotToken(g), TokensUsed(g.trace), |g.inputs|, t);
      UniqueGrab(Passes(s.requests), SlotPass(g), Signers(g.trace), g.shared.signings + 1, t);
    }
  }

  lemma ActKeepsSafe(s: System, a: Action)
    requires Safe(s)
    ensures Safe(Act(s, a))
  {
    hide Unique, GuardOnce, Micro, Drops;
    match a
    case Arrive(t, op) =>
      if t !in s.requests {
        hide Tokens, Passes;
        TokensUpdate(s.requests, t, Begin(op));
        var g := s.global;
        UniqueShrink(Tokens(s.requests), SlotToken(g), TokensUsed(g.trace), |g.inputs|, t, None, SlotToken(g));
        UniqueShrink(Passes(s.requests), SlotPass(g), Signers(g.trace), g.shared.signings + 1, t, None, SlotPass(g));
      }
    case Advance(t) =>
      if t in s.requests {
        var pc := s.requests[t];
        hide Safe;
        if pc.StartInstall? {
          InstallKeepsSafe(s, t);
        } else if pc.R1Generate? {
          GenerateKeepsSafe(s, t);
        } else if pc.R1Store? {
          StoreKeepsSafe(s, t);
        } else if pc.R2Sign? {
          SignKeepsSafe(s, t);
        } else if pc.Begin? && pc.op.SignRound2? {
          GuardKeepsSafe(s, t);
        } else {
          if pc.Begin? {
            BeginDrops(s.global, pc.op);
          } else {
            OtherStepsDrop(s.global, pc);
          }
          DropKeepsSafe(s, t, Micro(s.global, pc));
        }
      }
  }

  lemma {:induction false} EveryScheduleSafe(actions: seq<Action>)
    ensures Safe(Schedule(actions))
  {
    if actions == [] {
      assert Tokens(map[]) == map[] && Passes(map[]) == map[];
    } else {
      EveryScheduleSafe(actions[..|actions| - 1]);
      ActKeepsSafe(Schedule(actions[..|actions| - 1]), actions[|actions| - 1]);
    }
  }

  // ----- Theorems over all schedules -----

  lemma {:induction false} ListedAt(trace: seq<Trace>, i: nat, j: nat)
    requires i < j < |trace|
    ensures trace[i].Passed? && trace[j].Passed? && NoRepeats(Passers(trace)) ==> trace[i].instance != trace[j].instance
    ensures trace[i].Signed? && trace[j].Signed? && NoRepeats(Signers(trace)) ==> trace[i].instance != trace[j].instance
    ensures trace[i].Signed? && trace[j].Signed? && NoRepeats(TokensUsed(trace)) ==> trace[i].token != trace[j].token
    decreases |trace|
  {
    var before, e := trace[..|trace| - 1], trace[|trace| - 1];
    assert trace == before + [e];
    TraceSnoc(before, e);
    if j < |before| {
      ListedAt(before, i, j);
      PrefixNoRepeats(Passers(before), Passers(trace));
      PrefixNoRepeats(Signers(before), Signers(trace));
      PrefixNoRepeats(TokensUsed(before), TokensUsed(trace));
    } else {
      InList(before, i);
      LastDiffers(Passers(before), e.instance);
      LastDiffers(Signers(before), e.instance);
      if e.Signed? {
        LastDiffers(TokensUsed(before), e.token);
      }
    }
  }

  lemma PrefixNoRepeats(a: seq<nat>, b: seq<nat>)
    requires a <= b
    ensures NoRepeats(b) ==> NoRepeats(a)
  {
  }

  lemma LastDiffers(s: seq<nat>, n: nat)
    ensures NoRepeats(s + [n]) ==> n !in s
  {
    if n in s {
      var i :| 0 <= i < |s| && s[i] == n;
      assert (s + [n])[i] == (s + [n])[|s|];
    }
  }

  lemma {:induction false} InList(trace: seq<Trace>, i: nat)
    requires i < |trace|
    ensures trace[i].Passed? ==> trace[i].instance in Passers(trace)
    ensures trace[i].Signed? ==> trace[i].instance in Signers(trace) && trace[i].token in TokensUsed(trace)
    decreases |trace|
  {
    var before, e := trace[..|trace| - 1], trace[|trace| - 1];
    assert trace == before + [e];
    TraceSnoc(before, e);
    if i < |before| {
      InList(before, i);
    }
  }

  /** Under every interleaving, a session object passes the round-2 guard at most once. */
  lemma GuardPassedAtMostOnce(actions: seq<Action>, i: nat, j: nat)
    requires i < j < |Schedule(actions).global.trace|
    ensures var trace := Schedule(actions).global.trace;
            trace[i].Passed? && trace[j].Passed? ==> trace[i].instance != trace[j].instance
  {
    EveryScheduleSafe(actions);
    ListedAt(Schedule(actions).global.trace, i, j);
  }

  /** Under every interleaving, a session object yields at most one partial signature, and the result of
      one round-1 generation call is consumed by at most one. */
  lemma SignsAtMostOnce(actions: seq<Action>, i: nat, j: nat)
    requires i < j < |Schedule(actions).global.trace|
    ensures var trace := Schedule(actions).global.trace;
            trace[i].Signed? && trace[j].Signed? ==>
              trace[i].instance != trace[j].instance && trace[i].token != trace[j].token
  {
    EveryScheduleSafe(actions);
    ListedAt(Schedule(actions).global.trace, i, j);
  }
}
