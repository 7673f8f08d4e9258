/** What waiting and suspending mean to a queue of callbacks, said in terms of the calls made on it: which
    arguments were pushed, and which callback objects have begun by then. */
module QueueLaws {
  import opened Collections
  import opened CallbackQueue

  // ---------------------------------------------------------------- what has been called and pushed

  /** The callback object `cb` has begun. */
  predicate Begun(events: seq<Event>, cb: int) {
    Made(Begins(cb)) in events
  }

  lemma {:induction false} CalledAre(events: seq<Event>, cb: int)
    ensures cb in After(events).called <==> Begun(events, cb)
  {
    if events != [] {
      var less, e := events[..|events| - 1], events[|events| - 1];
      assert events == less + [e];
      CalledAre(less, cb);
      AfterMore(less, e);
      CalledStep(After(less), e, cb);
      hide After, Step;
    }
  }

  lemma CalledStep(c: Control, e: Event, cb: int)
    ensures cb in Step(c, e).called <==> cb in c.called || e == Made(Begins(cb))
  {
    hide ItemsOf, Signalled, Awaited;
  }

  lemma StepPushed(c: Control, e: Event)
    ensures c.pushed <= Step(c, e).pushed
  {
    hide ItemsOf, Signalled, Awaited;
  }

  lemma {:induction false} PushedGrows(events: seq<Event>, n: nat)
    requires n <= |events|
    ensures After(events[..n]).pushed <= After(events).pushed
    decreases |events| - n
  {
    if n == |events| {
      assert events[..n] == events;
    } else {
      assert events[..n + 1] == events[..n] + [events[n]];
      AfterMore(events[..n], events[n]);
      StepPushed(After(events[..n]), events[n]);
      hide After, Step;
      PushedGrows(events, n + 1);
    }
  }

  /** The place of an argument among all that is pushed. */
  function PlaceOf(events: seq<Event>, p: nat, a: nat): nat
    requires p <= |events|
  {
    |ArgsIn(events[..p])| + a
  }

  /** At the `p`-th event the `a`-th of the arguments pushed is this one. */
  predicate Pushes(events: seq<Event>, p: nat, a: nat, arg: Arg) {
    p < |events| && events[p].Made? && events[p].op.Push? && a < |events[p].op.args| && events[p].op.args[a] == arg
  }

  /** What an argument is queued as: a function to run, and a callback object to wait for unless it has begun before
      it was pushed. */
  lemma PushedAs(events: seq<Event>, p: nat, a: nat, arg: Arg)
    requires Pushes(events, p, a, arg)
    ensures var x, pushed := PlaceOf(events, p, a), After(events).pushed;
      && x < |pushed|
      && (arg.Function? ==> pushed[x] == Run(arg.id))
      && (arg.Callback? && !Begun(events[..p], arg.cb) ==> pushed[x] == Wait(arg.cb))
      && (arg.Callback? && Begun(events[..p], arg.cb) ==> pushed[x] == Spent(arg.cb))
  {
    var before, args := events[..p], events[p].op.args;
    var c := After(before);
    PushedAre(before);
    assert |c.pushed| == |ArgsIn(before)|;
    if arg.Callback? { CalledAre(before, arg.cb); }
    assert events[..p + 1] == before + [events[p]];
    AfterMore(before, events[p]);
    PushedGrows(events, p + 1);
    var items := ItemsOf(args, c.called);
    assert items[a] == ItemOf(arg, c.called);
    assert (c.pushed + items)[|c.pushed| + a] == items[a];
    assert After(events[..p + 1]).pushed == c.pushed + items;
    hide After, ItemsOf, ArgsIn;
  }

  // ---------------------------------------------------------------- what is pushed behind a callback object

  lemma {:induction false} StartedLength(log: seq<Start>)
    ensures |Started(log)| == |log|
  {
    if log != [] {
      StartedLength(log[..|log| - 1]);
    }
  }

  /** No more than the first `x` items and the one behind them, which is to wait for `cb`, have started, and once
      it has, the queue waits. */
  predicate Blocked(c: Control, x: nat, cb: int) {
    && |c.log| <= x + 1
    && (|c.log| == x + 1 ==> if c.open == [] then c.waits[cb] > 0 else c.open[0].item == Wait(cb))
  }

  lemma StepBlocked(c: Control, e: Event, x: nat, cb: int)
    requires Blocked(c, x, cb) && Happens(c, e) && Ordered(c) && cb !in c.called && e != Made(Begins(cb))
    requires !NestedFrom(Step(c, e).log, 0) && (x < |c.pushed| ==> c.pushed[x] == Wait(cb))
    ensures Blocked(Step(c, e), x, cb)
  {
    hide Started, Held, ItemsOf;
    match e {
      case Made(op) =>
        if op.Ends? && op.cb == cb {
          NotSignalled(c.called, c.waits, cb, op.result);
        } else {
          StepWaits(c, e, cb);
        }
        hide Signalled;
      case Takes(item) =>
        var d := Step(c, e);
        assert d.log[|c.log|] == Start(item, c.open != []);
        assert c.open == [];
        NoneHeld();
        StartedLength(c.log);
        if |c.log| == x {
          assert c.pushed == Started(c.log) + [] + c.queue;
          assert c.pushed[x] == c.queue[0];
        }
      case _ =>
    }
  }

  lemma {:induction false} StaysBlocked(events: seq<Event>, x: nat, cb: int)
    requires Lawful(events) && !NestedFrom(After(events).log, 0) && !Begun(events, cb)
    requires x < |After(events).pushed| ==> After(events).pushed[x] == Wait(cb)
    ensures Blocked(After(events), x, cb)
  {
    if events != [] {
      var less, e := events[..|events| - 1], events[|events| - 1];
      assert events == less + [e];
      assert e in events && forall f :: f in less ==> f in events;
      CalledAre(less, cb);
      hide *;
      AfterMore(less, e);
      LawfulMore(less, e);
      StepLog(After(less), e);
      NestedLess(After(less).log, After(events).log);
      StepPushed(After(less), e);
      BegunLess(less, e, cb);
      StaysBlocked(less, x, cb);
      LawfulIsOrdered(less);
      StepBlocked(After(less), e, x, cb);
    } else {
      hide Lawful;
    }
  }

  lemma BegunLess(less: seq<Event>, e: Event, cb: int)
    ensures Begun(less + [e], cb) <==> Begun(less, cb) || e == Made(Begins(cb))
  {
  }

  /** A callback object that has not begun when it is pushed is waited for: nothing pushed behind it starts before
      it has begun, in a history without nested starts. */
  lemma StartsOnlyAfterBegun(events: seq<Event>, p: nat, a: nat, cb: int)
    requires Lawful(events) && !NestedFrom(After(events).log, 0)
    requires Pushes(events, p, a, Callback(cb)) && !Begun(events[..p], cb)
    requires |After(events).log| > PlaceOf(events, p, a) + 1
    ensures Begun(events, cb)
  {
    PushedAs(events, p, a, Callback(cb));
    hide PlaceOf, Lawful, After;
    if !Begun(events, cb) {
      StaysBlocked(events, PlaceOf(events, p, a), cb);
    }
  }

  /** So in every run of a program on a new queue, none of whose callbacks nests. */
  lemma RunStartsOnlyAfterBegun(program: seq<Op>, script: seq<Behaviour>, p: nat, a: nat, cb: int)
    requires var r := AfterOps([], program, script);
      && !SomeNests(Ran(script, r.rest))
      && Pushes(r.events, p, a, Callback(cb)) && !Begun(r.events[..p], cb)
      && |After(r.events).log| > PlaceOf(r.events, p, a) + 1
    ensures Begun(AfterOps([], program, script).events, cb)
  {
    var r := AfterOps([], program, script);
    assert Lawful([]) && After([]) == NEW && !NestedFrom(NEW.log, 0);
    hide *;
    RunIsLawful([], program, script);
    NewIs();
    NestedIff([], program, script);
    StartsOnlyAfterBegun(r.events, p, a, cb);
  }

  lemma NewIs()
    ensures NEW.open == [] && NEW.log == []
  {
  }

  /** What started is what was pushed, place by place, so that the place of a function tells whether it has. */
  lemma StartedAre(events: seq<Event>, y: nat)
    requires Lawful(events) && !NestedFrom(After(events).log, 0) && y < |After(events).log|
    ensures y < |After(events).pushed| && After(events).log[y].item == After(events).pushed[y]
  {
    LawfulIsOrdered(events);
    StartedAt(After(events).log, y);
    StartedLength(After(events).log);
    hide After, Lawful, Started, Held;
  }

  lemma {:induction false} StartedAt(log: seq<Start>, y: nat)
    requires y < |log|
    ensures |Started(log)| == |log| && Started(log)[y] == log[y].item
  {
    StartedLength(log);
    StartedLength(log[..|log| - 1]);
    if y < |log| - 1 {
      StartedAt(log[..|log| - 1], y);
    }
  }

  /** One that had begun when it was pushed holds nothing back: when its turn comes the queue passes over it, and
      is afterwards as it was, without it. */
  lemma BegunHoldsNothing(events: seq<Event>, p: nat, a: nat, cb: int, script: seq<Behaviour>)
    requires Lawful(events) && !NestedFrom(After(events).log, 0) && Ready(After(events)) && After(events).open == []
    requires Pushes(events, p, a, Callback(cb)) && Begun(events[..p], cb)
    requires |After(events).log| == PlaceOf(events, p, a)
    ensures var c, next := After(events), events + [Takes(Spent(cb))] + [Passes];
      && AfterProcess(events, script) == AfterProcess(next, script)
      && After(next) == c.(queue := c.queue[1..], log := c.log + [Start(Spent(cb), false)])
  {
    var c, item := After(events), Spent(cb);
    PushedAs(events, p, a, Callback(cb));
    hide *;
    FrontIs(events, PlaceOf(events, p, a));
    ProcessUnfolds(events, script);
    TakesIs(events, item);
    AfterMore(events + [Takes(item)], Passes);
    EndOfSpent(c, item);
  }

  lemma EndOfSpent(c: Control, item: Item)
    requires Ready(c) && c.open == [] && item.Spent?
    ensures EndOf(item) == Passes && c.queue != []
    ensures Step(Opening(c, item), Passes) == c.(queue := c.queue[1..], log := c.log + [Start(item, false)])
  {
    hide ItemsOf, Signalled;
    assert [Opened(item, c.queue[1..])][1..] == [];
    assert c.queue[1..] + [] == c.queue[1..];
  }

  /** With nothing running the front of the queue is the next of all that is pushed. */
  lemma FrontIs(events: seq<Event>, x: nat)
    requires Lawful(events) && !NestedFrom(After(events).log, 0) && After(events).open == []
    requires x == |After(events).log| < |After(events).pushed|
    ensures After(events).queue != [] && After(events).queue[0] == After(events).pushed[x]
  {
    LawfulIsOrdered(events);
    var c := After(events);
    StartedLength(c.log);
    NoneHeld();
    hide Lawful, After, Started, Held, NestedFrom;
    assert c.pushed == Started(c.log) + [] + c.queue;
  }

  // ---------------------------------------------------------------- what is waited for

  /** A callback object that a callback returned is waited for, once more, exactly if it has not begun. */
  lemma ReturnedIsAwaitedIff(events: seq<Event>, r: int)
    requires Happens(After(events), Returns(Some(r)))
    ensures var c, d := After(events), After(events + [Returns(Some(r))]);
      && d.waits[r] == c.waits[r] + (if Begun(events, r) then 0 else 1)
      && (forall x :: x != r ==> d.waits[x] == c.waits[x])
  {
    CalledAre(events, r);
    AfterMore(events, Returns(Some(r)));
    hide After, Begun;
  }

  lemma ReturnedNothing(events: seq<Event>)
    requires Happens(After(events), Returns(None))
    ensures After(events + [Returns(None)]).waits == After(events).waits
  {
    AfterMore(events, Returns(None));
    hide After;
  }

  /** A callback object ends: nobody waits for it any more, but as often as it was waited for, for the one it
      returns, if that has not begun. One that has not begun has no waiters to release. */
  lemma EndIs(events: seq<Event>, cb: int, result: Option<int>)
    ensures var c, d := After(events), After(events + [Made(Ends(cb, result))]);
      var moves := Begun(events, cb) && result.Some? && !Begun(events, result.value);
      && (!Begun(events, cb) ==> d == c)
      && (Begun(events, cb) ==> d.waits[cb] == 0)
      && (moves ==> d.waits[result.value] == c.waits[result.value] + c.waits[cb])
      && (forall x :: x != cb && !(moves && x == result.value) ==> d.waits[x] == c.waits[x])
      && d.queue == c.queue && d.running == c.running && d.open == c.open
  {
    CalledAre(events, cb);
    if result.Some? { CalledAre(events, result.value); }
    AfterMore(events, Made(Ends(cb, result)));
    hide After, Begun, ItemsOf;
    assert forall x :: x != cb ==> Without(After(events).waits, cb)[x] == After(events).waits[x];
  }

  // ---------------------------------------------------------------- suspension

  predicate Unsuspends(e: Event) {
    e == Made(Resume) || e.Returns? || e.Waits? || e.Passes?
  }

  lemma StepRunning(c: Control, e: Event)
    requires Happens(c, e)
    ensures !Unsuspends(e) ==> Step(c, e).running >= c.running
    ensures e == Made(Suspend) || e.Takes? ==> Step(c, e).running == c.running + 1
    ensures Unsuspends(e) ==> Step(c, e).running == if c.running > 0 then c.running - 1 else c.running
  {
    hide ItemsOf, Signalled, Awaited;
  }

  lemma {:induction false} StaysSuspended(events: seq<Event>, i: nat, j: nat)
    requires Lawful(events) && i < j <= |events| && (events[i] == Made(Suspend) || events[i].Takes?)
    requires forall k :: i < k < j ==> !Unsuspends(events[k])
    ensures After(events[..j]).running > 0
    decreases j
  {
    hide *;
    var less, e := events[..j - 1], events[j - 1];
    assert events[..j] == less + [e];
    AfterMore(less, e);
    LawfulAt(events, j - 1);
    UnsuspendsIs(e);
    StepRunning(After(less), e);
    if j > i + 1 {
      StaysSuspended(events, i, j - 1);
    }
  }

  lemma LawfulAt(events: seq<Event>, k: nat)
    requires Lawful(events) && k < |events|
    ensures Happens(After(events[..k]), events[k]) && After(events[..k]).running >= 0
  {
    LawfulPrefix(events, k);
    hide After, Happens;
    LawfulIsSound(events[..k]);
  }

  lemma UnsuspendsIs(e: Event)
    ensures Unsuspends(e) <==> e == Made(Resume) || e.Returns? || e.Waits? || e.Passes?
  {
  }

  lemma LawfulPrefix(events: seq<Event>, n: nat)
    requires Lawful(events) && n <= |events|
    ensures Lawful(events[..n])
  {
    hide After, Happens;
    forall k | 0 <= k < n ensures events[..n][..k] == events[..k] && events[..n][k] == events[k] {
    }
  }

  /** What suspending means: after a suspension, and while an item that was taken has not ended, nothing starts
      unless the queue is resumed. */
  lemma NothingStartsWhileSuspended(events: seq<Event>, i: nat, j: nat)
    requires Lawful(events) && i < j < |events| && (events[i] == Made(Suspend) || events[i].Takes?)
    requires forall k :: i < k < j ==> !Unsuspends(events[k])
    ensures !events[j].Takes?
  {
    StaysSuspended(events, i, j);
    assert Happens(After(events[..j]), events[j]);
    hide After;
  }

  /** Resuming undoes one suspension, and no more. */
  lemma ResumeUndoes(events: seq<Event>)
    requires Lawful(events)
    ensures After(events + [Made(Suspend)] + [Made(Resume)]) == After(events)
    ensures After(events).running == 0 ==> After(events + [Made(Resume)]) == After(events)
  {
    LawfulIsSound(events);
    AfterMore(events, Made(Suspend));
    AfterMore(events + [Made(Suspend)], Made(Resume));
    AfterMore(events, Made(Resume));
    hide After, Lawful, Started, Held;
  }

  // ---------------------------------------------------------------- what makes the queue go on

  /** A call after which the queue goes on, if something is in it: a push, a call of the queue, and the end of a
      callback object that alone it has been waiting for, unless it returns another one that has not begun. */
  predicate LetsGoOn(events: seq<Event>, op: Op) {
    var waits := After(events).waits;
    match op
    case Push(_) => waits == multiset{}
    case Call => waits == multiset{}
    case Ends(cb, result) =>
      && Begun(events, cb) && (result.Some? ==> Begun(events, result.value))
      && waits[cb] > 0 && waits == multiset{}[cb := waits[cb]]
    case _ => false
  }

  /** After such a call on a queue that is not suspended the first item is taken at once. The part ends before
      that only where a function is to start and the script has run out. */
  lemma GoesOn(events: seq<Event>, op: Op, script: seq<Behaviour>)
    requires Lawful(events) && After(events).running == 0 && LetsGoOn(events, op)
    ensures var p, c := AfterOp(events, op, script), After(events + [Made(op)]);
      if c.queue == [] then p == Played(events + [Made(op)], script, true)
      else if c.queue[0].Run? && script == [] then p == Played(events + [Made(op)], script, false)
      else events + [Made(op)] + [Takes(c.queue[0])] <= p.events
  {
    GoesOnIs(events, op);
    hide *;
    OpUnfolds(events, op, script);
    MadeLawful(events, op);
    AfterMore(events, Made(op));
    ProcessTakes(events + [Made(op)], script);
  }

  lemma GoesOnIs(events: seq<Event>, op: Op)
    requires After(events).running == 0 && LetsGoOn(events, op)
    ensures Goes(After(events), op)
    ensures var c := Step(After(events), Made(op)); Ready(c) <==> c.queue != []
  {
    hide After, ItemsOf, Begun;
    if op.Ends? {
      CalledAre(events, op.cb);
      if op.result.Some? { CalledAre(events, op.result.value); }
      assert Without(After(events).waits, op.cb) == multiset{};
    }
  }

  /** Every other call is only that. */
  lemma NothingElseGoesOn(events: seq<Event>, op: Op, script: seq<Behaviour>)
    requires op.Suspend? || op.Resume? || op.Begins? || (op.Ends? && !LetsGoOn(events, op))
    ensures AfterOp(events, op, script) == Played(events + [Made(op)], script, true)
  {
    OpUnfolds(events, op, script);
    hide After, AfterProcess, AfterOp, Begun;
    if op.Ends? {
      CalledAre(events, op.cb);
      if op.result.Some? { CalledAre(events, op.result.value); }
      var waits := After(events).waits;
      if waits[op.cb] > 0 && Without(waits, op.cb) == multiset{} {
        assert forall x :: x != op.cb ==> waits[x] == Without(waits, op.cb)[x];
        assert waits == multiset{}[op.cb := waits[op.cb]];
      }
    }
  }

  lemma ProcessTakes(events: seq<Event>, script: seq<Behaviour>)
    requires Lawful(events)
    ensures var p, c := AfterProcess(events, script), After(events);
      if !Ready(c) then p == Played(events, script, true)
      else if c.queue[0].Run? && script == [] then p == Played(events, script, false)
      else events + [Takes(c.queue[0])] <= p.events
  {
    hide *;
    var p, c := AfterProcess(events, script), After(events);
    StartingIs(c);
    ProcessUnfolds(events, script);
    if Ready(c) {
      var item := c.queue[0];
      if !item.Run? {
        var done := events + [Takes(item)] + [EndOf(item)];
        WaitLawful(events, item);
        var ran := ProcessPart(done, script);
        PartIs(done, p.events, [], ran, p.finished);
      } else if script != [] {
        var taken, b := events + [Takes(item)], script[0];
        TakesLawful(events, item);
        var q := AfterOps(taken, b.ops, script[1..]);
        var ran := OpsPart(taken, b.ops, script[1..]);
        PartIs(taken, q.events, b.ops, ran, q.finished);
        if q.finished {
          var done := q.events + [Returns(b.result)];
          var first := StartPart(events, script);
          var more := ProcessPart(done, q.rest);
          PartIs(done, p.events, [], more, p.finished);
        }
      }
    }
  }

  lemma TakesLawful(events: seq<Event>, item: Item)
    requires Lawful(events) && Ready(After(events)) && After(events).queue[0] == item
    ensures Lawful(events + [Takes(item)])
  {
    LawfulMore(events, Takes(item));
    hide Lawful, After;
  }
}
