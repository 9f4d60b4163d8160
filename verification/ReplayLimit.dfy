/** Where the replay protection of serialised runs ends: 1001 marks are safe, 1002 are not. */
module ReplayLimit {
  import opened Bytes
  import opened Positional
  import opened ReplayCache
  import opened EnclaveModel
  import opened EnclaveRuns

  // ----- A run that fills the cache -----

  function Name(k: nat): (r: string)
    ensures r != "" && r[0] == 'a' && |r| == k + 1
  {
    Repeat('a', k + 1)
  }

  function RoundOneOf(id: string): (r: Use) {
    Use(id, 1, [])
  }

  /** A session that gets as far as round 1. */
  function Session(id: string): (r: seq<Op>) {
    [SignStart(id, [], [], 0), SignRound1(id, 0, Some([]))]
  }

  function Fill(n: nat): (r: seq<Op>) {
    if n == 0 then [Initialize(Some([]))] else Fill(n - 1) + Session(Name(n - 1))
  }

  function FillMarks(n: nat): (r: seq<Use>) {
    if n == 0 then [] else FillMarks(n - 1) + [RoundOneOf(Name(n - 1))]
  }

  lemma StartThenRound1(s: State, id: string)
    requires s.share.Some? && Fresh(s.replay, RoundOneOf(id))
    ensures var started := SignStartStep(s, id, [], [], 0).state;
            var t := SignRound1Step(started, id, 0, Some([])).state;
            t.share.Some? && t.log == s.log + [Round1(s.signings + 1, id, [], 0, 0)]
  {
    hide Mark, Fresh;
  }

  /** What one more session does to a run when its round 1 is not rejected. */
  lemma OneMore(ops: seq<Op>, id: string)
    requires Run(ops).share.Some? && Fresh(MarkAll(Marks(Run(ops).log)), RoundOneOf(id))
    ensures var s, t := Run(ops), Run(ops + Session(id));
            t.share.Some? && t.log == s.log + [Round1(s.signings + 1, id, [], 0, 0)] &&
            Marks(t.log) == Marks(s.log) + [RoundOneOf(id)]
  {
    hide Mark, Fresh, MarkAll, Marks, Inv, SignStartStep, SignRound1Step;
    var mid, next := ops + [SignStart(id, [], [], 0)], ops + Session(id);
    assert mid[..|ops|] == ops && next[..|mid|] == mid;
    var s := Run(ops);
    assert s.replay == MarkAll(Marks(s.log)) by { RunReplay(ops); }
    StartThenRound1(s, id);
    assert Run(mid) == SignStartStep(s, id, [], [], 0).state;
    assert Run(next) == SignRound1Step(Run(mid), id, 0, Some([])).state;
    MarksSnoc(s.log, Round1(s.signings + 1, id, [], 0, 0));
  }

  lemma RunReplay(ops: seq<Op>)
    ensures Run(ops).replay == MarkAll(Marks(Run(ops).log))
  {
    RunKeepsInv(ops);
  }

  lemma {:induction false} FillMarksShape(n: nat)
    ensures |FillMarks(n)| == n
    ensures forall u :: u in FillMarks(n) ==> u.sessionId != "" && u.sessionId[0] == 'a' && |u.sessionId| <= n
  {
    if n > 0 {
      FillMarksShape(n - 1);
    }
  }

  lemma {:induction false} FillRun(n: nat)
    requires n <= CAPACITY
    ensures Run(Fill(n)).share.Some? && Marks(Run(Fill(n)).log) == FillMarks(n)
  {
    hide Run, Fresh, MarkAll, Marks;
    if n == 0 {
      FillNothing();
    } else {
      FillRun(n - 1);
      FillMarksShape(n - 1);
      NeverRejectsUnused(FillMarks(n - 1), RoundOneOf(Name(n - 1)));
      OneMore(Fill(n - 1), Name(n - 1));
    }
  }

  lemma FillNothing()
    ensures Run(Fill(0)).share.Some? && Marks(Run(Fill(0)).log) == FillMarks(0)
  {
    hide MarkAll, Mark;
    assert Fill(0)[..0] == [] && Fill(0)[0] == Initialize(Some([]));
    assert Run(Fill(0)) == InitializeStep(InitialState, Some([])).state;
  }

  lemma {:induction false} FillUsed(n: nat)
    ensures |Used(FillMarks(n))| == n
  {
    if n == 0 {
      assert Used(FillMarks(0)) == {};
    } else {
      hide Used;
      FillUsed(n - 1);
      FillMarksShape(n - 1);
      UsedSnoc(FillMarks(n - 1), RoundOneOf(Name(n - 1)));
      assert RoundOneOf(Name(n - 1)) !in Used(FillMarks(n - 1)) by { NotUsed(FillMarks(n - 1), RoundOneOf(Name(n - 1))); }
    }
  }

  lemma NotUsed(marks: seq<Use>, u: Use)
    requires u !in marks
    ensures u !in Used(marks)
  {
  }

  // ----- The mark that is forgotten at once -----

  /** The key of the empty session id sorts before the key of every id that starts with a letter. */
  lemma SmallKey(u: Use)
    requires u.sessionId != "" && u.sessionId[0] == 'a'
    ensures !Less(Key(u), Key(RoundOneOf("")))
  {
    assert Key(u)[0] == 'a' && Key(RoundOneOf(""))[0] == ':';
  }

  /** A full cache that forgets a mark in the call that makes it. */
  lemma FullCacheForgets()
    ensures var cache := MarkAll(FillMarks(CAPACITY));
            |cache| == 1000 && Fresh(cache, RoundOneOf("")) && Fresh(Mark(cache, RoundOneOf("")), RoundOneOf(""))
  {
    hide MarkAll, Mark, Used, Key, Less, Fresh;
    var marks, u := FillMarks(CAPACITY), RoundOneOf("");
    FillUsed(CAPACITY);
    FillMarksShape(CAPACITY);
    KeysOf(marks);
    NeverRejectsUnused(marks, u);
    NothingBelow(marks);
    FreshMeans(MarkAll(marks), u);
    MarkTakesEffect(MarkAll(marks), u);
  }

  lemma FreshMeans(cache: Cache, u: Use)
    ensures Fresh(cache, u) <==> Key(u) !in cache
  {
  }

  lemma NothingBelow(marks: seq<Use>)
    requires forall u :: u in marks ==> u.sessionId != "" && u.sessionId[0] == 'a'
    ensures Below(MarkAll(marks).Keys, Key(RoundOneOf(""))) == {}
  {
    hide MarkAll, Key, Less;
    CacheWithinUsed(marks);
    forall k | k in MarkAll(marks) ensures !Less(k, Key(RoundOneOf(""))) {
      var u :| u in Used(marks) && Key(u) == k;
      SmallKey(u);
    }
  }

  // ----- The limit -----

  function BeyondLimit(): (r: seq<Op>) {
    Fill(CAPACITY) + Session("") + Session("")
  }

  /** A run with 1002 marks in which one pair succeeds twice in round 1. */
  lemma RepeatedRound1()
    ensures |Marks(Run(BeyondLimit()).log)| == 1002
    ensures !RoundsOnce(Run(BeyondLimit()).log)
  {
    hide Run, Marks, MarkAll, Mark, Fresh, Fill, FillMarks;
    var ops, u := Fill(CAPACITY), RoundOneOf("");
    FillRun(CAPACITY);
    FillMarksShape(CAPACITY);
    FullCacheForgets();
    OneMore(ops, "");
    MarkAllSnoc(FillMarks(CAPACITY), u);
    OneMore(ops + Session(""), "");
    var log := Run(BeyondLimit()).log;
    assert SameRound(log[|log| - 2], log[|log| - 1]);
  }

  /** Exactly how far the replay cache protects serialised runs: every run with at most `n` marks keeps
      each pair to one success per round if and only if `n` is at most 1001. */
  lemma RoundsOnceExactlyUpTo(n: nat)
    ensures (forall ops :: |Marks(Run(ops).log)| <= n ==> RoundsOnce(Run(ops).log)) <==> n <= 1001
  {
    hide Run, Marks, RoundsOnce;
    if n <= CAPACITY + 1 {
      forall ops | |Marks(Run(ops).log)| <= n ensures RoundsOnce(Run(ops).log) {
        RoundsAtMostOnce(ops);
      }
    } else {
      RepeatedRound1();
    }
  }
}
