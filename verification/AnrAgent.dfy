/** The lock-and-flag protocol by which ANR reports are queued and dumped by a background thread.

    Every call of `appNotResponding` and every dump thread is an activation with its own program
    counter; one step runs one atomic region (a synchronized block, an access of the atomic flag,
    a thread start, the handling of one record). Any number of activations interleave freely. */
module AnrAgent {
  import opened Collections

  datatype Record = Record(app: nat, timestamp: int)

  /** Where an activation stands. */
  datatype Pc =
    | Added                // a report whose record is in the list; its compare-and-set is next
    | Starting             // has won the compare-and-set; the thread start is next
    | Taking               // a dump thread; `next` is next
    | Handling(r: Record)  // a dump thread with a record in hand
    | Exiting              // a dump thread out of `handleAnr`, normally or by an exception
    | Rechecking           // has cleared the flag; looks at the list again
    | Retrying             // saw a remaining record; its compare-and-set is next
    | Finished

  /** What became of a record taken from the list, with the time it was looked at. */
  datatype Outcome = Dumped(at: int) | Expired(at: int) | Threw(at: int)

  const EXPIRY := 3 * 60 * 1000

  /** The shared list and flag, the clock, the activations, and three histories:
      all records ever added, all records ever taken, and what became of each taken one. */
  datatype State = State(
    queue: seq<Record>, running: bool, clock: int, pcs: seq<Pc>,
    added: seq<Record>, taken: seq<Record>, outcomes: seq<Outcome>, startFailed: bool)

  function Init(): State {
    State([], false, 0, [], [], [], [], false)
  }

  datatype Action =
    | Tick(ms: nat)
    | Report(app: nat)
    | CompareAndSet(t: nat)
    | Start(t: nat)
    | StartFails(t: nat)
    | Next(t: nat)
    | Dump(t: nat, throws: bool)
    | ClearFlag(t: nat)
    | Recheck(t: nat)

  predicate Enabled(s: State, a: Action) {
    match a
    case Tick(_) => true
    case Report(_) => true
    case CompareAndSet(t) => t < |s.pcs| && (s.pcs[t].Added? || s.pcs[t].Retrying?)
    case Start(t) => t < |s.pcs| && s.pcs[t].Starting?
    case StartFails(t) => t < |s.pcs| && s.pcs[t].Starting?
    case Next(t) => t < |s.pcs| && s.pcs[t].Taking?
    case Dump(t, throws) =>
      t < |s.pcs| && s.pcs[t].Handling? && (throws ==> s.clock - s.pcs[t].r.timestamp <= EXPIRY)
    case ClearFlag(t) => t < |s.pcs| && s.pcs[t].Exiting?
    case Recheck(t) => t < |s.pcs| && s.pcs[t].Rechecking?
  }

  function Goto(s: State, t: nat, pc: Pc): State
    requires t < |s.pcs|
  {
    s.(pcs := s.pcs[t := pc])
  }

  function Apply(s: State, a: Action): State
    requires Enabled(s, a)
  {
    match a
    case Tick(ms) => s.(clock := s.clock + ms)
    case Report(app) =>
      var r := Record(app, s.clock);
      s.(queue := s.queue + [r], added := s.added + [r], pcs := s.pcs + [Added])
    case CompareAndSet(t) =>
      if s.running then Goto(s, t, Finished) else Goto(s, t, Starting).(running := true)
    case Start(t) =>
      var s' := Goto(s, t, Finished);
      s'.(pcs := s'.pcs + [Taking])
    case StartFails(t) => Goto(s, t, Finished).(startFailed := true)
    case Next(t) =>
      if s.queue == [] then Goto(s, t, Exiting)
      else Goto(s, t, Handling(s.queue[0])).(queue := s.queue[1..], taken := s.taken + [s.queue[0]])
    case Dump(t, throws) =>
      if s.clock - s.pcs[t].r.timestamp > EXPIRY then
        Goto(s, t, Taking).(outcomes := s.outcomes + [Expired(s.clock)])
      else if throws then
        Goto(s, t, Exiting).(outcomes := s.outcomes + [Threw(s.clock)])
      else
        Goto(s, t, Taking).(outcomes := s.outcomes + [Dumped(s.clock)])
    case ClearFlag(t) => Goto(s, t, Rechecking).(running := false)
    case Recheck(t) => Goto(s, t, if s.queue == [] then Finished else Retrying)
  }

  /** The state a sequence of actions leads to, if every one of them is enabled in its turn. */
  function Exec(s: State, acts: seq<Action>): Option<State>
    decreases |acts|
  {
    if acts == [] then Some(s)
    else if Enabled(s, acts[0]) then Exec(Apply(s, acts[0]), acts[1..])
    else None
  }

  ghost predicate Reachable(s: State) {
    exists acts :: Exec(Init(), acts) == Some(s)
  }

  // ---------------------------------------------------------------- the invariant

  /** The activations on whose behalf the flag is set. */
  function Owns(pc: Pc): nat {
    if pc.Starting? || pc.Taking? || pc.Handling? || pc.Exiting? then 1 else 0
  }

  /** The activations that still have to look at the list or the flag. */
  predicate WillCheck(pc: Pc) {
    pc.Added? || pc.Rechecking? || pc.Retrying?
  }

  function InHand(pc: Pc): nat {
    if pc.Handling? then 1 else 0
  }

  ghost predicate FlagInv(s: State) {
    && (s.startFailed ==> s.running)
    && Sum(s.pcs, Owns) == (if s.running && !s.startFailed then 1 else 0)
  }

  ghost predicate WakeupInv(s: State) {
    s.queue != [] ==> s.running || exists t :: 0 <= t < |s.pcs| && WillCheck(s.pcs[t])
  }

  predicate Ordered(rs: seq<Record>, now: int) {
    && (forall i, j :: 0 <= i < j < |rs| ==> rs[i].timestamp <= rs[j].timestamp)
    && (forall i :: 0 <= i < |rs| ==> rs[i].timestamp <= now)
  }

  /** What an outcome says about the age of its record. */
  predicate Agrees(r: Record, o: Outcome) {
    if o.Expired? then o.at - r.timestamp > EXPIRY else o.at - r.timestamp <= EXPIRY
  }

  ghost predicate HistoryInv(s: State) {
    && s.added == s.taken + s.queue
    && Ordered(s.added, s.clock)
    && |s.outcomes| + Sum(s.pcs, InHand) == |s.taken|
    && (forall i :: 0 <= i < |s.outcomes| ==> Agrees(s.taken[i], s.outcomes[i]))
    && (forall t :: 0 <= t < |s.pcs| && s.pcs[t].Handling? ==>
          s.taken != [] && s.pcs[t].r == s.taken[|s.taken| - 1])
  }

  ghost predicate Inv(s: State) {
    FlagInv(s) && WakeupInv(s) && HistoryInv(s)
  }

  lemma AtMostOneOwner(s: State, t: nat, u: nat)
    requires FlagInv(s)
    requires t < |s.pcs| && u < |s.pcs| && Owns(s.pcs[t]) == 1 && Owns(s.pcs[u]) == 1
    ensures t == u && s.running && !s.startFailed
  {
    if t < u { SumTwo(s.pcs, t, u, Owns); }
    if u < t { SumTwo(s.pcs, u, t, Owns); }
    SumUpdate(s.pcs, t, Finished, Owns);
  }

  lemma FlagStep(s: State, a: Action)
    requires FlagInv(s) && Enabled(s, a)
    ensures FlagInv(Apply(s, a))
  {
    var s' := Apply(s, a);
    if a.Report? {
      SumAppend(s.pcs, Added, Owns);
    } else if !a.Tick? {
      if Owns(s.pcs[a.t]) == 1 { AtMostOneOwner(s, a.t, a.t); }
      SumUpdate(s.pcs, a.t, s'.pcs[a.t], Owns);
      if a.Start? {
        SumAppend(s.pcs[a.t := Finished], Taking, Owns);
      }
    }
  }

  lemma WakeupStep(s: State, a: Action)
    requires FlagInv(s) && WakeupInv(s) && Enabled(s, a)
    ensures WakeupInv(Apply(s, a))
  {
    var s' := Apply(s, a);
    if s'.queue != [] && !s'.running {
      if a.Report? {
        assert WillCheck(s'.pcs[|s.pcs|]);
      } else if a.Tick? {
      } else if a.ClearFlag? || a.Recheck? {
        assert WillCheck(s'.pcs[a.t]);
      } else if a.CompareAndSet? {
        assert false;
      } else {
        AtMostOneOwner(s, a.t, a.t);
        assert false;
      }
    }
  }

  /** An activation moves on without taking or finishing a record. */
  lemma HistoryGoto(s: State, s': State, t: nat)
    requires HistoryInv(s) && t < |s.pcs| == |s'.pcs|
      && s' == s.(pcs := s.pcs[t := s'.pcs[t]], running := s'.running, startFailed := s'.startFailed)
    requires !s.pcs[t].Handling? && !s'.pcs[t].Handling?
    ensures HistoryInv(s')
  {
    SumUpdate(s.pcs, t, s'.pcs[t], InHand);
    hide Ordered, Agrees;
  }

  /** The steps that only move an activation on. */
  lemma HistoryMove(s: State, a: Action)
    requires HistoryInv(s) && Enabled(s, a)
    requires !a.Tick? && !a.Report? && !a.Dump? && !a.Start? && !(a.Next? && s.queue != [])
    ensures HistoryInv(Apply(s, a))
  {
    MovesOnly(s, a);
    hide *;
    HistoryGoto(s, Apply(s, a), a.t);
  }

  lemma MovesOnly(s: State, a: Action)
    requires Enabled(s, a)
    requires !a.Tick? && !a.Report? && !a.Dump? && !a.Start? && !(a.Next? && s.queue != [])
    ensures var s' := Apply(s, a);
      && a.t < |s.pcs| == |s'.pcs|
        && s' == s.(pcs := s.pcs[a.t := s'.pcs[a.t]], running := s'.running, startFailed := s'.startFailed)
      && !s.pcs[a.t].Handling? && !s'.pcs[a.t].Handling?
  {
  }

  lemma HistoryTake(s: State, t: nat)
    requires FlagInv(s) && HistoryInv(s) && Enabled(s, Next(t)) && s.queue != []
    ensures HistoryInv(Apply(s, Next(t)))
  {
    NothingInHand(s, t);
    SumUpdate(s.pcs, t, Handling(s.queue[0]), InHand);
    assert s.queue == [s.queue[0]] + s.queue[1..];
  }

  lemma HistoryDump(s: State, t: nat, throws: bool)
    requires FlagInv(s) && HistoryInv(s) && Enabled(s, Dump(t, throws))
    ensures HistoryInv(Apply(s, Dump(t, throws)))
  {
    OnlyInHand(s, t);
    SumUpdate(s.pcs, t, Apply(s, Dump(t, throws)).pcs[t], InHand);
  }

  lemma HistoryReport(s: State, app: nat)
    requires HistoryInv(s)
    ensures HistoryInv(Apply(s, Report(app)))
  {
    SumAppend(s.pcs, Added, InHand);
    assert s.added + [Record(app, s.clock)] == s.taken + (s.queue + [Record(app, s.clock)]);
  }

  lemma HistoryStart(s: State, t: nat)
    requires HistoryInv(s) && Enabled(s, Start(t))
    ensures HistoryInv(Apply(s, Start(t)))
  {
    SumUpdate(s.pcs, t, Finished, InHand);
    SumAppend(s.pcs[t := Finished], Taking, InHand);
  }

  lemma HistoryStep(s: State, a: Action)
    requires FlagInv(s) && HistoryInv(s) && Enabled(s, a)
    ensures HistoryInv(Apply(s, a))
  {
    if a.Tick? { return; }
    hide HistoryInv, Apply;
    match a
    case Tick(_) =>
    case Report(app) => HistoryReport(s, app);
    case Start(t) => HistoryStart(s, t);
    case Dump(t, throws) => HistoryDump(s, t, throws);
    case Next(t) => if s.queue != [] { HistoryTake(s, t); } else { HistoryMove(s, a); }
    case _ => HistoryMove(s, a);
  }

  /** While one dump thread is about to take a record, no other holds one. */
  lemma NothingInHand(s: State, t: nat)
    requires FlagInv(s) && t < |s.pcs| && s.pcs[t].Taking?
    ensures Sum(s.pcs, InHand) == 0
    ensures forall u :: 0 <= u < |s.pcs| ==> !s.pcs[u].Handling?
  {
    if Sum(s.pcs, InHand) > 0 {
      var u := SumWitness(s.pcs, InHand);
      AtMostOneOwner(s, t, u);
    }
    forall u | 0 <= u < |s.pcs| ensures !s.pcs[u].Handling? {
      if s.pcs[u].Handling? { AtMostOneOwner(s, t, u); }
    }
  }

  lemma OnlyInHand(s: State, t: nat)
    requires FlagInv(s) && t < |s.pcs| && s.pcs[t].Handling?
    ensures Sum(s.pcs, InHand) == 1
    ensures forall u :: 0 <= u < |s.pcs| && s.pcs[u].Handling? ==> u == t
  {
    SumUpdate(s.pcs, t, Finished, InHand);
    var rest := s.pcs[t := Finished];
    if Sum(rest, InHand) > 0 {
      var u := SumWitness(rest, InHand);
      AtMostOneOwner(s, t, u);
    }
    forall u | 0 <= u < |s.pcs| && s.pcs[u].Handling? ensures u == t {
      AtMostOneOwner(s, t, u);
    }
  }

  lemma InvStep(s: State, a: Action)
    requires Inv(s) && Enabled(s, a)
    ensures Inv(Apply(s, a))
  {
    FlagStep(s, a);
    WakeupStep(s, a);
    HistoryStep(s, a);
  }

  lemma {:induction false} InvExec(s: State, acts: seq<Action>)
    requires Inv(s) && Exec(s, acts).Some?
    ensures Inv(Exec(s, acts).value)
    decreases |acts|
  {
    if acts != [] {
      InvStep(s, acts[0]);
      InvExec(Apply(s, acts[0]), acts[1..]);
    }
  }

  lemma InvReachable(s: State)
    requires Reachable(s)
    ensures Inv(s)
  {
    var acts :| Exec(Init(), acts) == Some(s);
    InvExec(Init(), acts);
  }

  // ---------------------------------------------------------------- safety over whole runs

  /** Mutual exclusion: the flag is set exactly while one activation owns it, so at most one
      dump thread is ever inside `handleAnr` (the only exception is a thread start that failed). */
  lemma SingleConsumer(s: State)
    requires Reachable(s)
    ensures forall t, u :: 0 <= t < |s.pcs| && 0 <= u < |s.pcs| && Owns(s.pcs[t]) == 1 && Owns(s.pcs[u]) == 1 ==> t == u
    ensures s.running <==> s.startFailed || exists t :: 0 <= t < |s.pcs| && Owns(s.pcs[t]) == 1
  {
    InvReachable(s);
    forall t, u | 0 <= t < |s.pcs| && 0 <= u < |s.pcs| && Owns(s.pcs[t]) == 1 && Owns(s.pcs[u]) == 1
      ensures t == u && s.running
    {
      AtMostOneOwner(s, t, u);
    }
    if s.running && !s.startFailed {
      var t := SumWitness(s.pcs, Owns);
      assert Owns(s.pcs[t]) == 1;
    }
  }

  /** First in, first out, each record once: what was taken followed by what is queued is what was
      reported, every taken record but the one in hand has exactly one outcome, that outcome
      respects the three-minute limit, and timestamps never decrease along the order of dumping. */
  lemma FifoExactlyOnce(s: State)
    requires Reachable(s)
    ensures s.added == s.taken + s.queue
    ensures |s.outcomes| <= |s.taken| <= |s.outcomes| + 1
    ensures forall i :: 0 <= i < |s.outcomes| ==>
      (s.outcomes[i].Expired? <==> s.outcomes[i].at - s.taken[i].timestamp > EXPIRY)
    ensures forall i, j :: 0 <= i < j < |s.taken| ==> s.taken[i].timestamp <= s.taken[j].timestamp
  {
    InvReachable(s);
    forall i, j | 0 <= i < j < |s.taken| ensures s.taken[i].timestamp <= s.taken[j].timestamp {
      assert s.taken[i] == s.added[i] && s.taken[j] == s.added[j];
    }
    if Sum(s.pcs, InHand) > 0 {
      var t := SumWitness(s.pcs, InHand);
      OnlyInHand(s, t);
    }
  }

  /** No lost wake-up: a queued record always has somebody who will still come for it. */
  lemma NoLostWakeup(s: State)
    requires Reachable(s) && s.queue != []
    ensures s.startFailed || exists t :: 0 <= t < |s.pcs| && (Owns(s.pcs[t]) == 1 || WillCheck(s.pcs[t]))
  {
    InvReachable(s);
    SingleConsumer(s);
    if !s.running {
      var t :| 0 <= t < |s.pcs| && WillCheck(s.pcs[t]);
    }
  }

  predicate Quiescent(s: State) {
    forall t :: 0 <= t < |s.pcs| ==> s.pcs[t].Finished?
  }

  /** When nothing is left to run, the flag is clear if and only if no thread start failed, and then
      every report has been taken and has its outcome. */
  lemma QuiescentIsDrained(s: State)
    requires Reachable(s) && Quiescent(s)
    ensures s.running <==> s.startFailed
    ensures !s.startFailed ==> s.queue == [] && s.taken == s.added && |s.outcomes| == |s.added|
  {
    InvReachable(s);
    SingleConsumer(s);
    if s.queue != [] { NoLostWakeup(s); }
    if Sum(s.pcs, InHand) > 0 {
      var t := SumWitness(s.pcs, InHand);
    }
  }

  /** After a failed thread start the flag stays set for ever and nothing is ever taken again. */
  lemma {:induction false} FailedStartIsForever(s: State, acts: seq<Action>)
    requires Inv(s) && s.startFailed && Exec(s, acts).Some?
    ensures var s' := Exec(s, acts).value;
      s'.startFailed && s'.running && s'.taken == s.taken && s.queue <= s'.queue
    decreases |acts|
  {
    if acts != [] {
      var a := acts[0];
      InvStep(s, a);
      if !a.Tick? && !a.Report? && Owns(s.pcs[a.t]) == 1 {
        AtMostOneOwner(s, a.t, a.t);
      }
      FailedStartIsForever(Apply(s, a), acts[1..]);
    }
  }

  /** Exactly when the agent still works: from a state with nothing left to run, a new report can
      be taken by some continuation if and only if no thread start has failed so far. */
  lemma NewReportIsTakenIff(s: State, app: nat)
    requires Reachable(s) && Quiescent(s)
    ensures !s.startFailed <==>
      exists acts :: Exec(Apply(s, Report(app)), acts).Some? &&
        var s' := Exec(Apply(s, Report(app)), acts).value;
        |s.added| < |s'.taken| && s'.taken[|s.added|] == Record(app, s.clock)
  {
    InvReachable(s);
    QuiescentIsDrained(s);
    var s1 := Apply(s, Report(app));
    if s.startFailed {
      InvStep(s, Report(app));
      forall acts | Exec(s1, acts).Some? ensures |Exec(s1, acts).value.taken| <= |s.added| {
        FailedStartIsForever(s1, acts);
      }
    } else {
      var n := |s.pcs|;
      var acts := [CompareAndSet(n), Start(n), Next(n + 1)];
      var s2 := Apply(s1, acts[0]);
      var s3 := Apply(s2, acts[1]);
      assert acts[1..] == [acts[1], acts[2]] && acts[1..][1..] == [acts[2]] && [acts[2]][1..] == [];
      assert Exec(s3, [acts[2]]) == Some(Apply(s3, acts[2]));
      assert Exec(s2, acts[1..]) == Some(Apply(s3, acts[2]));
      assert Exec(s1, acts) == Some(Apply(s3, acts[2]));
    }
  }

  /** The shortest run that loses a report: its own thread start fails. */
  lemma FailedStartLosesReport()
    ensures exists s :: Reachable(s) && Quiescent(s) && s.queue != []
  {
    var acts := [Report(0), CompareAndSet(0), StartFails(0)];
    var s1 := Apply(Init(), acts[0]);
    var s2 := Apply(s1, acts[1]);
    var s3 := Apply(s2, acts[2]);
    assert acts[1..] == [acts[1], acts[2]] && acts[1..][1..] == [acts[2]];
    assert Exec(s2, [acts[2]]) == Some(s3);
    assert Exec(s1, acts[1..]) == Some(s3);
    assert Exec(Init(), acts) == Some(s3);
  }

  // ---------------------------------------------------------------- termination of draining

  /** Steps an activation still has to take when the list is empty. */
  function WeightWhenEmpty(pc: Pc): nat {
    match pc
    case Added => 5
    case Starting => 4
    case Taking => 3
    case Handling(_) => 4
    case Exiting => 2
    case Rechecking => 1
    case Retrying => 5
    case Finished => 0
  }

  /** With records left, a dump thread that leaves by an exception may start its successor. */
  function WeightWhenBusy(pc: Pc): nat {
    match pc
    case Added => 5
    case Starting => 4
    case Taking => 3
    case Handling(_) => 8
    case Exiting => 7
    case Rechecking => 6
    case Retrying => 5
    case Finished => 0
  }

  ghost function Rank(s: State): nat {
    if s.queue == [] then Sum(s.pcs, WeightWhenEmpty) else 6 * |s.queue| + Sum(s.pcs, WeightWhenBusy)
  }

  /** What a step does to the list and the program counters. */
  lemma StepOf(s: State, a: Action)
    requires Enabled(s, a) && !a.Tick? && !a.Report?
    ensures var s' := Apply(s, a);
      && a.t < |s.pcs| && a.t < |s'.pcs|
      && s'.pcs == s.pcs[a.t := s'.pcs[a.t]] + (if a.Start? then [Taking] else [])
      && |s'.queue| == |s.queue| - (if a.Next? && s.queue != [] then 1 else 0)
  {
  }

  lemma WeightsDrop(s: State, a: Action)
    requires Enabled(s, a) && !a.Tick? && !a.Report?
    ensures var pc, pc' := s.pcs[a.t], Apply(s, a).pcs[a.t]; var more := if a.Start? then 3 else 0;
      && (s.queue == [] ==> WeightWhenEmpty(pc') + more < WeightWhenEmpty(pc))
      && (s.queue != [] ==> WeightWhenBusy(pc') + more < WeightWhenBusy(pc) + if a.Next? then 6 else 0)
    ensures WeightWhenEmpty(Taking) == WeightWhenBusy(Taking) == 3
  {
  }

  lemma RankDecreasesWhenEmpty(s: State, a: Action)
    requires Enabled(s, a) && !a.Tick? && !a.Report? && s.queue == []
    ensures Rank(Apply(s, a)) < Rank(s)
  {
    StepOf(s, a);
    WeightsDrop(s, a);
    hide Apply, Enabled, WeightWhenEmpty, WeightWhenBusy;
    SumWith(s.pcs, a.t, Apply(s, a).pcs[a.t], a.Start?, WeightWhenEmpty);
  }

  lemma RankDecreasesWhenBusy(s: State, a: Action)
    requires Enabled(s, a) && !a.Tick? && !a.Report? && s.queue != []
    ensures Rank(Apply(s, a)) < Rank(s)
  {
    StepOf(s, a);
    WeightsDrop(s, a);
    EmptyIsLess(Apply(s, a).pcs);
    hide Apply, Enabled, WeightWhenEmpty, WeightWhenBusy;
    SumWith(s.pcs, a.t, Apply(s, a).pcs[a.t], a.Start?, WeightWhenBusy);
  }

  lemma SumWith(pcs: seq<Pc>, t: nat, pc: Pc, starts: bool, weight: Pc -> nat)
    requires t < |pcs|
    ensures Sum(pcs[t := pc] + (if starts then [Taking] else []), weight)
      == Sum(pcs, weight) - weight(pcs[t]) + weight(pc) + if starts then weight(Taking) else 0
  {
    SumUpdate(pcs, t, pc, weight);
    if starts {
      SumAppend(pcs[t := pc], Taking, weight);
    } else {
      assert pcs[t := pc] + [] == pcs[t := pc];
    }
  }

  lemma EmptyIsLess(pcs: seq<Pc>)
    ensures Sum(pcs, WeightWhenEmpty) <= Sum(pcs, WeightWhenBusy)
  {
    SumMonotone(pcs, WeightWhenEmpty, WeightWhenBusy);
  }

  /** Every step of an activation, an exit by exception included, lowers the rank. */
  lemma RankDecreases(s: State, a: Action)
    requires Enabled(s, a) && !a.Tick? && !a.Report?
    ensures Rank(Apply(s, a)) < Rank(s)
  {
    if s.queue == [] { RankDecreasesWhenEmpty(s, a); } else { RankDecreasesWhenBusy(s, a); }
  }

  function Steps(acts: seq<Action>): nat {
    if acts == [] then 0 else (if acts[0].Tick? then 0 else 1) + Steps(acts[1..])
  }

  /** Once no more reports arrive, the number of steps any schedule can still take is bounded. */
  lemma {:induction false} DrainingTerminates(s: State, acts: seq<Action>)
    requires Exec(s, acts).Some?
    requires forall a :: a in acts ==> !a.Report?
    ensures Steps(acts) + Rank(Exec(s, acts).value) <= Rank(s)
    decreases |acts|
  {
    if acts != [] {
      if !acts[0].Tick? {
        RankDecreases(s, acts[0]);
      }
      DrainingTerminates(Apply(s, acts[0]), acts[1..]);
    }
  }

  /** Nothing blocks: an activation that is not finished has an enabled step. */
  lemma Progress(s: State, t: nat) returns (a: Action)
    requires t < |s.pcs| && !s.pcs[t].Finished?
    ensures Enabled(s, a) && !a.Tick? && !a.Report? && !a.StartFails? && a.t == t
  {
    a := match s.pcs[t]
      case Added => CompareAndSet(t)
      case Starting => Start(t)
      case Taking => Next(t)
      case Handling(_) => Dump(t, false)
      case Exiting => ClearFlag(t)
      case Rechecking => Recheck(t)
      case Retrying => CompareAndSet(t);
  }

  /** Draining, put together: once reports stop and no thread start fails, every schedule that has
      run until no activation has a step left ends with all reports handled and the flag clear. */
  lemma EveryRunDrains(s: State, acts: seq<Action>)
    requires Reachable(s) && !s.startFailed && Exec(s, acts).Some?
    requires forall a :: a in acts ==> !a.Report? && !a.StartFails?
    requires forall a :: Enabled(Exec(s, acts).value, a) ==> a.Tick? || a.Report?
    ensures var s' := Exec(s, acts).value;
      && Steps(acts) <= Rank(s)
      && s'.queue == [] && !s'.running
      && s'.added == s.added == s'.taken && |s'.outcomes| == |s'.added|
  {
    DrainingTerminates(s, acts);
    var s' := Exec(s, acts).value;
    ReachableExec(s, acts);
    NothingAdded(s, acts);
    forall t | 0 <= t < |s'.pcs| ensures s'.pcs[t].Finished? {
      if !s'.pcs[t].Finished? {
        var a := Progress(s', t);
      }
    }
    QuiescentIsDrained(s');
  }

  lemma {:induction false} ExecConcat(s: State, a: seq<Action>, b: seq<Action>)
    requires Exec(s, a).Some?
    ensures Exec(s, a + b) == Exec(Exec(s, a).value, b)
    decreases |a|
  {
    if a == [] {
      assert a + b == b;
    } else {
      assert (a + b)[1..] == a[1..] + b;
      ExecConcat(Apply(s, a[0]), a[1..], b);
    }
  }

  lemma ReachableExec(s: State, acts: seq<Action>)
    requires Reachable(s) && Exec(s, acts).Some?
    ensures Reachable(Exec(s, acts).value)
  {
    var before :| Exec(Init(), before) == Some(s);
    ExecConcat(Init(), before, acts);
  }

  lemma {:induction false} NothingAdded(s: State, acts: seq<Action>)
    requires Exec(s, acts).Some?
    requires forall a :: a in acts ==> !a.Report? && !a.StartFails?
    ensures Exec(s, acts).value.added == s.added
    ensures Exec(s, acts).value.startFailed == s.startFailed
    decreases |acts|
  {
    if acts != [] {
      NothingAdded(Apply(s, acts[0]), acts[1..]);
    }
  }

  // ---------------------------------------------------------------- the object itself

  /** The agent's two shared fields. Each method is one atomic region of the source; `trace` lists
      the regions run so far and `view` is the protocol state they lead to. */
  class Agent {
    var mAnrRecords: seq<Record>
    var mRunning: bool
    ghost var trace: seq<Action>
    ghost var view: State

    ghost predicate Valid()
      reads this
    {
      view.queue == mAnrRecords && view.running == mRunning && Exec(Init(), trace) == Some(view)
    }

    ghost predicate At(t: nat, pc: Pc)
      reads this
    {
      t < |view.pcs| && view.pcs[t] == pc
    }

    constructor ()
      ensures Valid() && view == Init()
    {
      mAnrRecords, mRunning, view, trace := [], false, Init(), [];
    }

    /** Records that the region `a` has just been run. */
    ghost method Log(a: Action)
      requires Exec(Init(), trace) == Some(view) && Enabled(view, a)
      modifies this`view, this`trace
      ensures Exec(Init(), trace) == Some(view)
      ensures view == Apply(old(view), a) && trace == old(trace) + [a]
    {
      ExecOne(Init(), trace, view, a);
      view := Apply(view, a);
      trace := trace + [a];
    }

    method Append(app: nat, now: int)
      requires Valid() && now == view.clock
      modifies this
      ensures Valid() && trace == old(trace) + [Report(app)]
      ensures mAnrRecords == old(mAnrRecords) + [Record(app, now)] && mRunning == old(mRunning)
      ensures At(|old(view).pcs|, Added) && view.clock == now
    {
      mAnrRecords := mAnrRecords + [Record(app, now)];
      Log(Report(app));
    }

    method TryClaim(ghost t: nat) returns (won: bool)
      requires Valid() && (At(t, Added) || At(t, Retrying))
      modifies this
      ensures Valid() && trace == old(trace) + [CompareAndSet(t)]
      ensures won == !old(mRunning) && mRunning && mAnrRecords == old(mAnrRecords)
      ensures At(t, if won then Starting else Finished) && view.clock == old(view.clock)
    {
      won := !mRunning;
      mRunning := true;
      Log(CompareAndSet(t));
    }

    method TakeNext(ghost t: nat) returns (r: Option<Record>)
      requires Valid() && At(t, Taking)
      modifies this
      ensures Valid() && trace == old(trace) + [Next(t)] && mRunning == old(mRunning)
      ensures if old(mAnrRecords) == [] then r == None && mAnrRecords == []
              else r.Some? && old(mAnrRecords) == [r.value] + mAnrRecords
      ensures At(t, if r.Some? then Handling(r.value) else Exiting) && view.clock == old(view.clock)
    {
      if mAnrRecords == [] {
        r := None;
      } else {
        r := Some(mAnrRecords[0]);
        mAnrRecords := mAnrRecords[1..];
      }
      Log(Next(t));
    }

    /** The handling of the record in hand; `throws` says whether its dump throws. */
    method Handle(ghost t: nat, r: Record, now: int, throws: bool) returns (dumped: bool, threw: bool)
      requires Valid() && At(t, Handling(r)) && now == view.clock
      modifies this`view, this`trace
      ensures threw == (throws && now - r.timestamp <= EXPIRY)
      ensures dumped == (!throws && now - r.timestamp <= EXPIRY)
      ensures Valid() && trace == old(trace) + [Dump(t, threw)]
      ensures view.outcomes == old(view).outcomes
        + [if threw then Threw(now) else if dumped then Dumped(now) else Outcome.Expired(now)]
      ensures At(t, if threw then Exiting else Taking) && view.clock == now
    {
      var expired := now - r.timestamp > EXPIRY;
      threw, dumped := !expired && throws, !expired && !throws;
      Log(Dump(t, threw));
    }

    method Release(ghost t: nat)
      requires Valid() && At(t, Exiting)
      modifies this
      ensures Valid() && trace == old(trace) + [ClearFlag(t)]
      ensures !mRunning && mAnrRecords == old(mAnrRecords) && At(t, Rechecking)
    {
      mRunning := false;
      Log(ClearFlag(t));
    }

    method StillRemaining(ghost t: nat) returns (remaining: bool)
      requires Valid() && At(t, Rechecking)
      modifies this`view, this`trace
      ensures Valid() && trace == old(trace) + [Recheck(t)]
      ensures remaining == (mAnrRecords != []) && At(t, if remaining then Retrying else Finished)
    {
      remaining := mAnrRecords != [];
      Log(Recheck(t));
    }

    /** The drain loop, run without interference at one clock reading; `throws[i]` says whether the
        dump of the i-th record would throw. */
    method HandleAnr(ghost t: nat, now: int, throws: seq<bool>) returns (dumped: seq<Record>, threw: bool)
      requires Valid() && At(t, Taking) && now == view.clock
      requires |throws| == |mAnrRecords|
      modifies this
      ensures Valid() && At(t, Exiting) && mRunning == old(mRunning)
      ensures Drained(dumped, mAnrRecords, threw) == Drain(old(mAnrRecords), throws, now)
    {
      dumped, threw := [], false;
      ghost var all := Drain(mAnrRecords, throws, now);
      var todo := throws;
      var r := TakeNext(t);
      while r.Some?
        invariant Valid() && mRunning == old(mRunning) && view.clock == now
        invariant At(t, if r.Some? then Handling(r.value) else Exiting)
        invariant r.Some? ==> |todo| == |mAnrRecords| + 1
        invariant all == if r.Some? then Drain([r.value] + mAnrRecords, todo, now).After(dumped)
                         else Drained(dumped, mAnrRecords, threw)
        decreases |mAnrRecords|, r.Some?
      {
        assert ([r.value] + mAnrRecords)[1..] == mAnrRecords;
        var done;
        done, threw := Handle(t, r.value, now, todo[0]);
        if done {
          dumped := dumped + [r.value];
        }
        todo := todo[1..];
        if threw {
          r := None;
        } else {
          r := TakeNext(t);
        }
      }
    }

    /** The whole life of a dump thread, run without interference: it either leaves an empty list
        and a clear flag, or leaves records and has claimed the flag for a successor. */
    method Run(ghost t: nat, now: int, throws: seq<bool>) returns (dumped: seq<Record>, startsSuccessor: bool)
      requires Valid() && At(t, Taking) && now == view.clock
      requires |throws| == |mAnrRecords|
      modifies this
      ensures Valid() && startsSuccessor == mRunning == (mAnrRecords != [])
      ensures At(t, if startsSuccessor then Starting else Finished)
      ensures Drained(dumped, mAnrRecords, mAnrRecords != [] || Drain(old(mAnrRecords), throws, now).threw)
        == Drain(old(mAnrRecords), throws, now)
    {
      DrainIsComplete(mAnrRecords, throws, now);
      var threw;
      dumped, threw := HandleAnr(t, now, throws);
      Release(t);
      var remaining := StillRemaining(t);
      startsSuccessor := false;
      if remaining {
        startsSuccessor := TryClaim(t);
      }
    }
  }

  /** The result of draining a list: what was dumped, what is left, whether a dump threw. */
  datatype Drained = Drained(dumped: seq<Record>, left: seq<Record>, threw: bool) {
    function After(earlier: seq<Record>): Drained {
      Drained(earlier + dumped, left, threw)
    }
  }

  /** Draining at time `now`: expired records are dropped, the first dump that throws ends it. */
  function Drain(rs: seq<Record>, throws: seq<bool>, now: int): Drained
    requires |rs| == |throws|
  {
    if rs == [] then Drained([], [], false)
    else if now - rs[0].timestamp > EXPIRY then Drain(rs[1..], throws[1..], now)
    else if throws[0] then Drained([], rs[1..], true)
    else Drain(rs[1..], throws[1..], now).After([rs[0]])
  }

  predicate Young(r: Record, now: int) {
    now - r.timestamp <= EXPIRY
  }

  /** For records in arrival order, one drain leaves a suffix, consumes no more than it must, and
      dumps exactly the young records before the first young one whose dump throws. */
  lemma {:induction false} DrainIsComplete(rs: seq<Record>, throws: seq<bool>, now: int)
    requires |rs| == |throws|
    ensures var d := Drain(rs, throws, now); var n := |rs| - |d.left|;
      && 0 <= n && d.left == rs[n..]
      && (!d.threw ==> d.left == [] && d.dumped == YoungOnes(rs, now))
      && (d.threw ==> n > 0 && throws[n - 1] && Young(rs[n - 1], now) && d.dumped == YoungOnes(rs[..n - 1], now))
      && (forall i :: 0 <= i < n && Young(rs[i], now) && throws[i] ==> d.threw && i == n - 1)
  {
    if rs != [] && !(Young(rs[0], now) && throws[0]) {
      DrainIsComplete(rs[1..], throws[1..], now);
      var n := |rs| - |Drain(rs, throws, now).left|;
      assert rs[n..] == rs[1..][n - 1..];
      if Drain(rs, throws, now).threw {
        assert rs[..n - 1][1..] == rs[1..][..n - 2];
      }
    }
  }

  function YoungOnes(rs: seq<Record>, now: int): seq<Record> {
    if rs == [] then []
    else (if Young(rs[0], now) then [rs[0]] else []) + YoungOnes(rs[1..], now)
  }

  lemma ExecOne(s: State, acts: seq<Action>, s': State, a: Action)
    requires Exec(s, acts) == Some(s') && Enabled(s', a)
    ensures Exec(s, acts + [a]) == Some(Apply(s', a))
  {
    ExecConcat(s, acts, [a]);
    assert [a][1..] == [];
    assert Exec(s', [a]) == Some(Apply(s', a));
  }

  // ---------------------------------------------------------------- what a schedule says of the records

  /** The records that a schedule reports, each with the time by then. */
  function ReportsFrom(clock: int, acts: seq<Action>): seq<Record>
    decreases |acts|
  {
    if acts == [] then []
    else
      match acts[0]
      case Tick(ms) => ReportsFrom(clock + ms, acts[1..])
      case Report(app) => [Record(app, clock)] + ReportsFrom(clock, acts[1..])
      case _ => ReportsFrom(clock, acts[1..])
  }

  /** Which of the records handled in a schedule had a dump that threw. */
  function ThrowsIn(acts: seq<Action>): seq<bool>
    decreases |acts|
  {
    if acts == [] then [] else (if acts[0].Dump? then [acts[0].throws] else []) + ThrowsIn(acts[1..])
  }

  lemma {:induction false} ReportedFrom(s: State, acts: seq<Action>)
    requires Exec(s, acts).Some?
    ensures Exec(s, acts).value.added == s.added + ReportsFrom(s.clock, acts)
    decreases |acts|
  {
    if acts != [] {
      var next := Apply(s, acts[0]);
      ReportedFrom(next, acts[1..]);
      assert s.added + [] == s.added;
      if acts[0].Report? {
        Associative(s.added, [Record(acts[0].app, s.clock)], ReportsFrom(s.clock, acts[1..]));
      }
    }
  }

  lemma {:induction false} HandledFrom(s: State, acts: seq<Action>)
    requires Exec(s, acts).Some?
    ensures var after, n, throws := Exec(s, acts).value.outcomes, |s.outcomes|, ThrowsIn(acts);
      && s.outcomes <= after && |after| == n + |throws|
      && forall i :: 0 <= i < |throws| ==> (after[n + i].Threw? <==> throws[i])
    decreases |acts|
  {
    if acts != [] {
      var a := acts[0];
      var next := Apply(s, a);
      HandledFrom(next, acts[1..]);
      var after, rest := Exec(s, acts).value.outcomes, ThrowsIn(acts[1..]);
      if a.Dump? {
        assert after[|s.outcomes|] == next.outcomes[|s.outcomes|];
        assert ThrowsIn(acts) == [a.throws] + rest;
        forall i | 0 <= i < |rest| + 1 ensures after[|s.outcomes| + i].Threw? <==> ([a.throws] + rest)[i] {
          if i > 0 { assert after[|next.outcomes| + (i - 1)].Threw? <==> rest[i - 1]; }
        }
      }
    }
  }

  /** Over every schedule: the records added are those reported, each with the time of its report; and of those
      handled, one whose dump threw has the outcome that it threw, and of the others those no older than three
      minutes when they were looked at were dumped, and the older ones were not. */
  lemma OutcomesAre(acts: seq<Action>, s: State)
    requires Exec(Init(), acts) == Some(s)
    ensures s.added == ReportsFrom(0, acts) && |s.outcomes| == |ThrowsIn(acts)| <= |s.taken|
    ensures forall i :: 0 <= i < |s.outcomes| ==>
      var age := s.outcomes[i].at - s.taken[i].timestamp;
      && (s.outcomes[i].Threw? <==> ThrowsIn(acts)[i])
      && (s.outcomes[i].Dumped? <==> !ThrowsIn(acts)[i] && age <= 180000)
      && (s.outcomes[i].Expired? <==> age > 180000)
  {
    ReportedFrom(Init(), acts);
    HandledFrom(Init(), acts);
    FifoExactlyOnce(s);
    hide *;
    InitIs();
    assert [] + ReportsFrom(0, acts) == ReportsFrom(0, acts);
    ExpiryIs();
    forall i | 0 <= i < |s.outcomes| ensures s.outcomes[i].Threw? <==> ThrowsIn(acts)[i] {
      assert s.outcomes[0 + i].Threw? <==> ThrowsIn(acts)[i];
    }
  }

  lemma InitIs()
    ensures Init().added == [] && Init().outcomes == [] && Init().clock == 0
  {
  }

  lemma ExpiryIs()
    ensures EXPIRY == 180000
  {
  }
}
