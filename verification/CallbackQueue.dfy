/** MathJax's `Callback.Queue`: a queue of callbacks that run one after the other, each of which may
    push more callbacks, suspend the queue, or make it wait until some other callback is called.

    What callbacks do is given by a script: the i-th callback that starts makes the calls
    `script[i].ops` and then returns `script[i].result`. A script that runs out stands for the
    moment at which a longer run is looked at: the run stops where the next callback would start. */
module CallbackQueue {
  import opened Collections

  /** What is pushed: a function, or a callback object made elsewhere. */
  datatype Arg = Function(id: int) | Callback(cb: int)

  /** What is queued: a function to run, a callback object to wait for, one already called. */
  datatype Item = Run(id: int) | Wait(cb: int) | Spent(cb: int)

  /** Calls made while the program or a callback runs. `Begins` and `Ends` are the two ends of the
      execution of a callback object made elsewhere, with the callback object it returns, if any. */
  datatype Op =
    | Push(args: seq<Arg>)
    | Suspend
    | Resume
    | Call
    | Begins(cb: int)
    | Ends(cb: int, result: Option<int>)

  datatype Behaviour = Behaviour(ops: seq<Op>, result: Option<int>)

  /** A callback starting: what, and whether another one was running. */
  datatype Start = Start(item: Item, inside: bool)

  /** An argument becomes an item when it is pushed: what has been called by then is not waited for. */
  function ItemOf(a: Arg, called: set<int>): Item {
    match a
    case Function(id) => Run(id)
    case Callback(cb) => if cb in called then Spent(cb) else Wait(cb)
  }

  function ItemsOf(args: seq<Arg>, called: set<int>): (items: seq<Item>)
    ensures |items| == |args|
    ensures forall i :: 0 <= i < |args| ==> items[i] == ItemOf(args[i], called)
  {
    if args == [] then [] else [ItemOf(args[0], called)] + ItemsOf(args[1..], called)
  }

  // ---------------------------------------------------------------- what happens to a queue

  /** What happens to a queue: a call made on it, an item taken out, and the ends of the three kinds of item,
      a callback that returns, a wait that begins, one that has nothing to wait for. */
  datatype Event = Made(op: Op) | Takes(item: Item) | Returns(result: Option<int>) | Waits(cb: int) | Passes

  /** An item taken out and not ended yet, and what stood behind it. */
  datatype Opened = Opened(item: Item, rest: seq<Item>)

  /** What a queue has behind it, all items pushed, all starts, those not ended, the innermost first, and how
      it stands: what is queued, whether it is suspended, what has been called, what it waits for. */
  datatype Control = Control(
    pushed: seq<Item>, log: seq<Start>, open: seq<Opened>,
    queue: seq<Item>, running: int, called: set<int>, waits: multiset<int>)

  const NEW := Control([], [], [], [], 0, {}, multiset{})

  function Lowered(running: int): int {
    if running > 0 then running - 1 else running
  }

  /** A callback object that a callback returned is waited for, unless it has been called. */
  function Awaited(called: set<int>, waits: multiset<int>, result: Option<int>): multiset<int> {
    if result.Some? && result.value !in called then waits + multiset{result.value} else waits
  }

  /** The callback object `cb` ends: its waiters wait for what it returns, or no longer. */
  function Signalled(called: set<int>, waits: multiset<int>, cb: int, result: Option<int>): multiset<int> {
    if cb !in called then waits
    else if result.Some? && result.value !in called then
      Without(waits, cb)[result.value := waits[result.value] + waits[cb]]
    else Without(waits, cb)
  }

  /** The end of `cb` is what the waiting queue waits for. */
  predicate LastWait(called: set<int>, waits: multiset<int>, cb: int, result: Option<int>) {
    && cb in called && !(result.Some? && result.value !in called)
    && waits[cb] > 0 && Signalled(called, waits, cb, result) == multiset{}
  }

  /** The innermost item ends: what was pushed meanwhile goes behind what stood behind it, and an uncalled
      callback that was returned is waited for. */
  function Closed(c: Control, result: Option<int>): Control {
    if c.open == [] then c
    else c.(queue := c.open[0].rest + c.queue, open := c.open[1..], running := Lowered(c.running),
            waits := Awaited(c.called, c.waits, result))
  }

  function Opening(c: Control, item: Item): Control {
    if c.queue == [] then c
    else c.(log := c.log + [Start(item, c.open != [])], open := [Opened(item, c.queue[1..])] + c.open,
            queue := [], running := c.running + 1)
  }

  function Step(c: Control, e: Event): Control {
    match e
    case Made(Push(args)) => c.(pushed := c.pushed + ItemsOf(args, c.called), queue :=
      c.queue + ItemsOf(args, c.called))
    case Made(Suspend) => c.(running := c.running + 1)
    case Made(Resume) => c.(running := Lowered(c.running))
    case Made(Call) => c
    case Made(Begins(cb)) => c.(called := c.called + {cb})
    case Made(Ends(cb, result)) => c.(waits := Signalled(c.called, c.waits, cb, result))
    case Takes(item) => Opening(c, item)
    case Returns(result) => Closed(c, result)
    case Waits(cb) => Closed(c, Some(cb))
    case Passes => Closed(c, None)
  }

  function After(events: seq<Event>): Control {
    if events == [] then NEW else Step(After(events[..|events| - 1]), events[|events| - 1])
  }

  /** Something is queued and may start: the queue is neither suspended nor waiting. */
  predicate Ready(c: Control) {
    c.running == 0 && c.waits == multiset{} && c.queue != []
  }

  /** The next callback would start, which is where a run stops whose script has run out. */
  predicate Starting(c: Control) {
    Ready(c) && c.queue[0].Run?
  }

  /** What may happen: a call at any time; the first item is taken only from a queue that is ready; and what
      ends is the innermost item, a function by returning, a callback object to wait for by the queue waiting
      for it, and one already called at once. */
  predicate Happens(c: Control, e: Event) {
    match e
    case Made(_) => true
    case Takes(item) => Ready(c) && c.queue[0] == item
    case Returns(_) => c.open != [] && c.open[0].item.Run?
    case Waits(cb) => c.open != [] && c.open[0].item == Wait(cb)
    case Passes => c.open != [] && c.open[0].item.Spent?
  }

  ghost predicate Lawful(events: seq<Event>) {
    forall k :: 0 <= k < |events| ==> Happens(After(events[..k]), events[k])
  }

  lemma AfterMore(events: seq<Event>, e: Event)
    ensures After(events + [e]) == Step(After(events), e)
  {
    assert (events + [e])[..|events|] == events;
  }

  lemma LawfulMore(events: seq<Event>, e: Event)
    ensures Lawful(events + [e]) <==> Lawful(events) && Happens(After(events), e)
  {
    hide Happens, After;
    var more := events + [e];
    assert more[..|events|] == events && more[|events|] == e;
    forall k | 0 <= k < |events| ensures more[..k] == events[..k] && more[k] == events[k] {
    }
  }

  function Started(log: seq<Start>): seq<Item> {
    if log == [] then [] else Started(log[..|log| - 1]) + [log[|log| - 1].item]
  }

  function Held(open: seq<Opened>): seq<Item> {
    if open == [] then [] else open[0].rest + Held(open[1..])
  }

  // ---------------------------------------------------------------- what holds of all that is lawful

  /** Everything pushed has been started once, or will be: none is lost and none doubled. */
  ghost predicate Sound(c: Control) {
    multiset(c.pushed) == multiset(Started(c.log)) + multiset(Held(c.open)) + multiset(c.queue) && c.running >= 0
  }

  /** First in, first out: what was started, then what is still queued, is what was pushed. */
  ghost predicate Ordered(c: Control) {
    c.pushed == Started(c.log) + Held(c.open) + c.queue && |c.open| <= 1
  }

  lemma StartedMore(log: seq<Start>, s: Start)
    ensures Started(log + [s]) == Started(log) + [s.item]
  {
    assert (log + [s])[..|log|] == log;
  }

  lemma HeldMore(o: Opened, open: seq<Opened>)
    ensures Held([o] + open) == o.rest + Held(open)
  {
    assert ([o] + open)[1..] == open;
  }

  lemma TakeConserves<T>(s: seq<T>, h: seq<T>, item: T, rest: seq<T>)
    ensures multiset(s) + multiset(h) + multiset([item] + rest) == multiset(s + [item]) + multiset(rest + h)
  {
  }

  lemma StepSound(c: Control, e: Event)
    requires Sound(c) && Happens(c, e)
    ensures Sound(Step(c, e))
  {
    hide Sound, Ready, Opening, Closed, ItemsOf, Signalled, Lowered;
    match e {
      case Made(op) => MadeSound(c, op);
      case Takes(item) => OpeningSound(c, item);
      case Returns(result) => ClosedSound(c, result);
      case Waits(cb) => ClosedSound(c, Some(cb));
      case Passes => ClosedSound(c, None);
    }
  }

  lemma MadeSound(c: Control, op: Op)
    requires Sound(c)
    ensures Sound(Step(c, Made(op)))
  {
    hide Started, Held, ItemsOf, Signalled;
  }

  lemma OpeningSound(c: Control, item: Item)
    requires Sound(c) && Ready(c) && c.queue[0] == item
    ensures Sound(Opening(c, item))
  {
    var rest := c.queue[1..];
    StartedMore(c.log, Start(item, c.open != []));
    HeldMore(Opened(item, rest), c.open);
    TakeConserves(Started(c.log), Held(c.open), item, rest);
    assert c.queue == [item] + rest;
    NoneQueued();
    hide Started, Held;
  }

  lemma NoneQueued()
    ensures var none: seq<Item> := []; multiset(none) == multiset{}
  {
  }

  lemma ClosedSound(c: Control, result: Option<int>)
    requires Sound(c) && c.open != []
    ensures Sound(Closed(c, result))
  {
    hide Started, Held, Awaited;
    HeldMore(c.open[0], c.open[1..]);
    assert c.open == [c.open[0]] + c.open[1..];
  }

  /** Over every lawful run: everything pushed has been started once, or is still behind what runs or queued. */
  lemma {:induction false} LawfulIsSound(events: seq<Event>)
    requires Lawful(events)
    ensures Sound(After(events))
  {
    if events == [] {
      var none: seq<Item> := [];
      assert multiset(none) == multiset{};
    } else {
      hide *;
      var less, e := events[..|events| - 1], events[|events| - 1];
      assert events == less + [e];
      LawfulMore(less, e);
      AfterMore(less, e);
      LawfulIsSound(less);
      StepSound(After(less), e);
    }
  }

  lemma StepOrdered(c: Control, e: Event)
    requires Ordered(c) && Happens(c, e) && !NestedFrom(Step(c, e).log, 0)
    ensures Ordered(Step(c, e))
  {
    hide Started, Held, ItemsOf, Signalled, Awaited;
    match e {
      case Made(Push(args)) => Associative(Started(c.log) + Held(c.open), c.queue, ItemsOf(args, c.called));
      case Made(_) =>
      case Takes(item) =>
        var start := Start(item, c.open != []);
        assert (c.log + [start])[|c.log|] == start;
        assert c.open == [];
        StartedMore(c.log, start);
        HeldMore(Opened(item, c.queue[1..]), []);
        NoneHeld();
        var s, rest := Started(c.log), c.queue[1..];
        assert c.queue == [item] + rest;
        assert s + [] + ([item] + rest) == (s + [item]) + (rest + []) + [];
      case Returns(result) => ClosedOrdered(c, result);
      case Waits(cb) => ClosedOrdered(c, Some(cb));
      case Passes => ClosedOrdered(c, None);
    }
  }

  lemma NoneHeld()
    ensures Held([]) == []
  {
  }

  lemma ClosedOrdered(c: Control, result: Option<int>)
    requires Ordered(c) && c.open != []
    ensures Ordered(Closed(c, result))
  {
    hide Started, Held, Awaited;
    NoneHeld();
    HeldMore(c.open[0], []);
    var s, rest := Started(c.log), c.open[0].rest;
    assert c.open == [c.open[0]] + [] && c.open[1..] == [];
    assert s + (rest + []) + c.queue == s + [] + (rest + c.queue);
  }

  lemma StepLog(c: Control, e: Event)
    ensures c.log <= Step(c, e).log
  {
    hide ItemsOf, Signalled, Awaited;
  }

  /** Over every lawful run in which no callback started inside another, items started in push order. */
  lemma {:induction false} LawfulIsOrdered(events: seq<Event>)
    requires Lawful(events) && !NestedFrom(After(events).log, 0)
    ensures Ordered(After(events))
  {
    if events != [] {
      hide *;
      var less, e := events[..|events| - 1], events[|events| - 1];
      assert events == less + [e];
      AfterMore(less, e);
      StepLog(After(less), e);
      NestedLess(After(less).log, After(events).log);
      LawfulMore(less, e);
      LawfulIsOrdered(less);
      StepOrdered(After(less), e);
    }
  }

  lemma NestedLess(log: seq<Start>, more: seq<Start>)
    requires log <= more && !NestedFrom(more, 0)
    ensures !NestedFrom(log, 0)
  {
    assert forall i :: 0 <= i < |log| ==> log[i] == more[i];
  }

  /** The queue begins to wait for `cb`: it was pushed and has come to its turn, or was returned. */
  ghost predicate BeginsToWait(events: seq<Event>, i: nat, cb: int)
    requires i < |events|
  {
    (events[i] == Waits(cb) || events[i] == Returns(Some(cb))) && cb !in After(events[..i]).called
  }

  predicate IsEndOf(e: Event, cb: int) {
    e.Made? && e.op.Ends? && e.op.cb == cb
  }

  lemma StepWaits(c: Control, e: Event, cb: int)
    requires !IsEndOf(e, cb)
    ensures Step(c, e).waits[cb] >= c.waits[cb]
  {
    hide ItemsOf;
  }

  lemma {:induction false} WaitsStay(events: seq<Event>, i: nat, j: nat, cb: int)
    requires Lawful(events) && i < j <= |events| && BeginsToWait(events, i, cb)
    requires forall k :: i < k < j ==> !IsEndOf(events[k], cb)
    ensures After(events[..j]).waits[cb] > 0
    decreases j
  {
    hide *;
    if j == i + 1 {
      WaitBegins(events, i, cb);
    } else {
      var less := events[..j - 1];
      assert events[..j] == less + [events[j - 1]];
      AfterMore(less, events[j - 1]);
      StepWaits(After(less), events[j - 1], cb);
      WaitsStay(events, i, j - 1, cb);
    }
  }

  lemma WaitBegins(events: seq<Event>, i: nat, cb: int)
    requires Lawful(events) && i < |events| && BeginsToWait(events, i, cb)
    ensures After(events[..i + 1]).waits[cb] > 0
  {
    hide *;
    var less := events[..i];
    assert events[..i + 1] == less + [events[i]];
    AfterMore(less, events[i]);
    BeginsAt(events, i, cb);
    StepBegins(After(less), events[i], cb);
  }

  lemma BeginsAt(events: seq<Event>, i: nat, cb: int)
    requires Lawful(events) && i < |events| && BeginsToWait(events, i, cb)
    ensures Happens(After(events[..i]), events[i]) && cb !in After(events[..i]).called
    ensures events[i] == Waits(cb) || events[i] == Returns(Some(cb))
  {
    hide After, Happens;
  }

  lemma StepBegins(c: Control, e: Event, cb: int)
    requires Happens(c, e) && (e == Waits(cb) || e == Returns(Some(cb))) && cb !in c.called
    ensures Step(c, e).waits[cb] > 0
  {
  }

  /** What waiting means: once the queue has begun to wait for a callback object, nothing starts before that
      one has ended. */
  lemma NothingStartsWhileWaiting(events: seq<Event>, i: nat, j: nat, cb: int)
    requires Lawful(events) && i < j < |events| && BeginsToWait(events, i, cb)
    requires forall k :: i < k < j ==> !IsEndOf(events[k], cb)
    ensures !events[j].Takes?
  {
    WaitsStay(events, i, j, cb);
    assert Happens(After(events[..j]), events[j]);
    hide After, BeginsToWait, IsEndOf;
  }

  // ---------------------------------------------------------------- a run

  /** A part of a run: all that has happened then, the callbacks not started yet, and whether it came to its end
      or the script ran out. */
  datatype Played = Played(events: seq<Event>, rest: seq<Behaviour>, finished: bool)

  /** How an item ends that is not a function. */
  function EndOf(item: Item): Event {
    if item.Wait? then Waits(item.cb) else Passes
  }

  /** The call goes on to `Process`. */
  predicate Goes(c: Control, op: Op) {
    op.Push? || op.Call? || (op.Ends? && LastWait(c.called, c.waits, op.cb, op.result))
  }

  lemma TakesIs(events: seq<Event>, item: Item)
    requires Ready(After(events))
    ensures After(events + [Takes(item)]) == Opening(After(events), item)
  {
    AfterMore(events, Takes(item));
  }

  lemma TakeAndEnd(events: seq<Event>, item: Item)
    requires Ready(After(events)) && !item.Run?
    ensures After(events + [Takes(item)] + [EndOf(item)]).queue == After(events).queue[1..]
  {
    TakesIs(events, item);
    AfterMore(events + [Takes(item)], EndOf(item));
    hide After, Awaited;
  }

  /** `Process`: as long as the queue is ready its first item is taken out. A callback makes its calls and
      returns. */
  function AfterProcess(events: seq<Event>, script: seq<Behaviour>): (p: Played)
    ensures |p.rest| <= |script|
    decreases |script|, 1, |After(events).queue|
  {
    if !Ready(After(events)) then Played(events, script, true)
    else
      var item := After(events).queue[0];
      if !item.Run? then
        TakeAndEnd(events, item);
        AfterProcess(events + [Takes(item)] + [EndOf(item)], script)
      else if script == [] then Played(events, script, false)
      else
        var p := AfterOps(events + [Takes(item)], script[0].ops, script[1..]);
        if !p.finished then p else AfterProcess(p.events + [Returns(script[0].result)], p.rest)
  }

  /** One call. */
  function AfterOp(events: seq<Event>, op: Op, script: seq<Behaviour>): (p: Played)
    ensures |p.rest| <= |script|
    decreases |script|, 2, 0
  {
    if Goes(After(events), op) then AfterProcess(events + [Made(op)], script)
      else Played(events + [Made(op)], script, true)
  }

  /** The calls of a program or a callback, one after the other. */
  function AfterOps(events: seq<Event>, ops: seq<Op>, script: seq<Behaviour>): (p: Played)
    ensures |p.rest| <= |script|
    decreases |script|, 3, |ops|
  {
    if ops == [] then Played(events, script, true)
    else
      var p := AfterOp(events, ops[0], script);
      if !p.finished then p else AfterOps(p.events, ops[1..], p.rest)
  }

  lemma ProcessUnfolds(events: seq<Event>, script: seq<Behaviour>)
    ensures AfterProcess(events, script) ==
      if !Ready(After(events)) then Played(events, script, true)
      else
        var item := After(events).queue[0];
        if !item.Run? then AfterProcess(events + [Takes(item)] + [EndOf(item)], script)
        else if script == [] then Played(events, script, false)
        else
          var p := AfterOps(events + [Takes(item)], script[0].ops, script[1..]);
          if !p.finished then p else AfterProcess(p.events + [Returns(script[0].result)], p.rest)
  {
    hide After, AfterOps, EndOf;
  }

  lemma OpUnfolds(events: seq<Event>, op: Op, script: seq<Behaviour>)
    ensures AfterOp(events, op, script) ==
      if Goes(After(events), op) then AfterProcess(events + [Made(op)], script)
      else Played(events + [Made(op)], script, true)
  {
    hide After, Goes, AfterProcess;
  }

  lemma OpsUnfolds(events: seq<Event>, ops: seq<Op>, script: seq<Behaviour>)
    ensures AfterOps(events, ops, script) ==
      if ops == [] then Played(events, script, true)
      else
        var p := AfterOp(events, ops[0], script);
        if !p.finished then p else AfterOps(p.events, ops[1..], p.rest)
  {
    hide AfterOp;
  }

  // ---------------------------------------------------------------- when a callback starts another

  /** `running` while a callback that found the queue idle makes its calls: it is 1 at first, and a queue
      that is not suspended is not resumed any further. */
  function Level(ops: seq<Op>): nat {
    if ops == [] then 1
    else
      var before, last := Level(ops[..|ops| - 1]), ops[|ops| - 1];
      if last.Suspend? then before + 1 else if last.Resume? && before > 0 then before - 1 else before
  }

  /** The callback has pushed something. */
  predicate HasPushed(ops: seq<Op>) {
    exists op | op in ops :: op.Push? && op.args != []
  }

  /** The call enters `Process` on an idle queue with something in it. */
  predicate Enters(op: Op, idle: bool, empty: bool) {
    idle && ((op.Push? && (op.args != [] || !empty)) || (op.Call? && !empty))
  }

  /** At its `k`-th call the callback starts another inside itself, and not before. */
  predicate NestsAt(ops: seq<Op>, k: nat)
    requires k < |ops|
  {
    Enters(ops[k], Level(ops[..k]) == 0, !HasPushed(ops[..k]))
  }

  /** A callback starts another inside itself: it resumes the queue more often than it has suspended it,
      and then pushes, or calls the queue after a push. */
  ghost predicate Nests(ops: seq<Op>) {
    exists k :: 0 <= k < |ops| && NestsAt(ops, k)
  }

  ghost predicate NestsNowhere(ops: seq<Op>, i: nat)
    requires i <= |ops|
  {
    forall k :: 0 <= k < i ==> !NestsAt(ops, k)
  }

  lemma NestsHere(ops: seq<Op>, i: nat)
    requires i <= |ops|
    ensures NestsNowhere(ops, 0) && (Nests(ops) <==> !NestsNowhere(ops, |ops|))
    ensures i < |ops| ==> (NestsNowhere(ops, i + 1) <==> NestsNowhere(ops, i) && !NestsAt(ops, i))
    ensures i < |ops| && NestsAt(ops, i) ==> Nests(ops)
  {
    hide NestsAt;
  }

  ghost predicate SomeNests(script: seq<Behaviour>) {
    exists b :: b in script && Nests(b.ops)
  }

  function Depth(ops: seq<Op>): int {
    if ops == [] then 0
    else
      var last := ops[|ops| - 1];
      Depth(ops[..|ops| - 1]) + if last.Suspend? then 1 else if last.Resume? then -1 else 0
  }

  /** The callback never resumes the queue more often than it has suspended it. */
  ghost predicate Balanced(ops: seq<Op>) {
    forall n :: 0 <= n <= |ops| ==> Depth(ops[..n]) >= 0
  }

  lemma {:induction false} BalancedLevel(ops: seq<Op>, n: nat)
    requires Balanced(ops) && n <= |ops|
    ensures Level(ops[..n]) == 1 + Depth(ops[..n])
  {
    if n > 0 {
      BalancedLevel(ops, n - 1);
      assert ops[..n][..n - 1] == ops[..n - 1];
    }
  }

  /** A callback that resumes the queue no more often than it suspends it, one that never resumes it in
      particular, starts no other callback. */
  lemma BalancedNeverNests(ops: seq<Op>)
    requires Balanced(ops)
    ensures !Nests(ops)
  {
    forall k | 0 <= k < |ops| ensures !NestsAt(ops, k) {
      BalancedLevel(ops, k);
      assert Depth(ops[..k]) >= 0;
    }
  }

  lemma LevelStep(ops: seq<Op>, k: nat)
    requires k < |ops|
    ensures Level(ops[..k + 1]) ==
      if ops[k].Suspend? then Level(ops[..k]) + 1 else if ops[k].Resume? && Level(ops[..k]) > 0 then Level(ops[..k]) - 1
        else Level(ops[..k])
    ensures HasPushed(ops[..k + 1]) <==> HasPushed(ops[..k]) || (ops[k].Push? && ops[k].args != [])
  {
    var more := ops[..k + 1];
    assert more[..k] == ops[..k] && more[k] == ops[k];
    assert forall op :: op in more <==> op in ops[..k] || op == ops[k];
  }

  /** A queue as its callback finds it after `i` calls none of which has started another callback. */
  predicate Quiet(ops: seq<Op>, i: nat, c: Control)
    requires i <= |ops|
  {
    c.waits == multiset{} && c.running == Level(ops[..i]) && (c.queue == [] <==> !HasPushed(ops[..i]))
  }

  lemma QuietStep(ops: seq<Op>, i: nat, c: Control)
    requires i < |ops| && Quiet(ops, i, c)
    ensures NestsAt(ops, i) <==> Goes(c, ops[i]) && Ready(Step(c, Made(ops[i])))
    ensures Quiet(ops, i + 1, Step(c, Made(ops[i])))
  {
    LevelStep(ops, i);
    if ops[i].Push? {
      assert ItemsOf(ops[i].args, c.called) == [] <==> ops[i].args == [];
    }
    if ops[i].Ends? {
      NoWaiters(c.called, c.waits, ops[i].cb, ops[i].result);
    }
    hide Level, HasPushed, ItemsOf, Signalled;
  }

  lemma NoWaiters(called: set<int>, waits: multiset<int>, cb: int, result: Option<int>)
    requires waits == multiset{}
    ensures Signalled(called, waits, cb, result) == waits && !LastWait(called, waits, cb, result)
  {
  }

  lemma QuietStart(ops: seq<Op>, c: Control)
    requires c.waits == multiset{} && c.running == 1 && c.queue == []
    ensures Quiet(ops, 0, c)
  {
    assert ops[..0] == [];
  }

  // ---------------------------------------------------------------- what a run leaves in the log

  /** From the `from`-th start on, some callback started inside another. */
  ghost predicate NestedFrom(log: seq<Start>, from: nat) {
    exists i :: from <= i < |log| && log[i].inside
  }

  /** What a part of a run, with the callbacks `ran`, adds to the log. With callbacks running already, all
      others start inside them. With none running, some callback starts inside another only if one that
      ran nests, and has done so when the part is finished. */
  ghost predicate Adds(depth: nat, log: seq<Start>, more: seq<Start>, ran: seq<Behaviour>, finished: bool) {
    && log <= more
    && (ran != [] ==> |log| < |more|)
    && (depth > 0 ==> forall i :: |log| <= i < |more| ==> more[i].inside)
    && (depth == 0 && NestedFrom(more, |log|) ==> SomeNests(ran))
    && (depth == 0 && finished && SomeNests(ran) ==> NestedFrom(more, |log|))
  }

  lemma AddsNothing(depth: nat, log: seq<Start>, finished: bool)
    ensures Adds(depth, log, log, [], finished)
  {
  }

  lemma AddsMore(depth: nat, log: seq<Start>, more: seq<Start>, most: seq<Start>, a: seq<Behaviour>, b: seq<Behaviour>,
      finished: bool)
    requires Adds(depth, log, more, a, true) && Adds(depth, more, most, b, finished)
    ensures Adds(depth, log, most, a + b, finished)
  {
    hide Nests;
    assert SomeNests(a + b) <==> SomeNests(a) || SomeNests(b) by {
      assert forall x :: x in a + b <==> x in a || x in b;
    }
    hide SomeNests;
    if i :| |log| <= i < |most| && most[i].inside {
      if i < |more| { assert more[i] == most[i]; }
    }
    if i :| |log| <= i < |more| && more[i].inside { assert most[i] == more[i]; }
  }

  /** One callback: its own start, and the starts inside it. */
  lemma AddsCallback(depth: nat, log: seq<Start>, start: Start, more: seq<Start>, b: Behaviour, inner: seq<Behaviour>,
      finished: bool)
    requires start.inside == (depth > 0)
    requires Adds(depth + 1, log + [start], more, inner, finished)
    requires depth == 0 && |more| > |log| + 1 ==> Nests(b.ops)
    requires depth == 0 && finished && Nests(b.ops) ==> |more| > |log| + 1
    ensures Adds(depth, log, more, [b] + inner, finished)
  {
    hide Nests;
    assert more[|log|] == (log + [start])[|log|] == start;
    assert SomeNests([b] + inner) <==> Nests(b.ops) || SomeNests(inner) by {
      assert forall x :: x in [b] + inner <==> x == b || x in inner;
    }
    assert SomeNests(inner) ==> |more| > |log| + 1;
    hide SomeNests;
    if depth == 0 && |more| > |log| + 1 {
      assert more[|log| + 1].inside;
    }
  }

  /** A start that is not a callback of the program's: something to wait for. */
  lemma AddsStart(depth: nat, log: seq<Start>, start: Start)
    requires start.inside == (depth > 0)
    ensures Adds(depth, log, log + [start], [], true)
  {
  }

  lemma AddsSoFar(depth: nat, log: seq<Start>, more: seq<Start>, ran: seq<Behaviour>)
    requires Adds(depth, log, more, ran, true)
    ensures Adds(depth, log, more, ran, false)
  {
  }

  /** A log that had no nested start before. */
  lemma NestedSince(log: seq<Start>, more: seq<Start>)
    requires log <= more && !NestedFrom(log, 0)
    ensures NestedFrom(more, 0) <==> NestedFrom(more, |log|)
  {
    forall i | 0 <= i < |log| ensures !more[i].inside {
      assert log[i] == more[i];
    }
  }

  // ---------------------------------------------------------------- who made the calls

  /** The calls made and the callbacks that have returned. */
  function Tally(events: seq<Event>): seq<Event> {
    if events == [] then []
    else
      var e := events[|events| - 1];
      Tally(events[..|events| - 1]) + if e.Made? || e.Returns? then [e] else []
  }

  function AllMade(ops: seq<Op>): (events: seq<Event>)
    ensures |events| == |ops| && forall i :: 0 <= i < |ops| ==> events[i] == Made(ops[i])
  {
    seq(|ops|, i requires 0 <= i < |ops| => Made(ops[i]))
  }

  /** What callbacks do: each makes its calls and returns. */
  function Did(ran: seq<Behaviour>): seq<Event> {
    if ran == [] then [] else AllMade(ran[0].ops) + [Returns(ran[0].result)] + Did(ran[1..])
  }

  function CallbacksIn(log: seq<Start>): nat {
    if log == [] then 0 else CallbacksIn(log[..|log| - 1]) + if log[|log| - 1].item.Run? then 1 else 0
  }

  /** In this part of a run the callbacks `ran` started, no more and no fewer. The calls made are the calls
      `own` and those of the callbacks that ran, each once; in an unfinished part, some of these. */
  ghost predicate Does(e: seq<Event>, f: seq<Event>, own: seq<Op>, ran: seq<Behaviour>, finished: bool) {
    && e <= f && CallbacksIn(After(f).log) == CallbacksIn(After(e).log) + |ran|
    && var all := multiset(Tally(e)) + multiset(AllMade(own)) + multiset(Did(ran));
       if finished then multiset(Tally(f)) == all else multiset(Tally(f)) <= all
  }

  lemma TallyMore(events: seq<Event>, e: Event)
    ensures Tally(events + [e]) == Tally(events) + if e.Made? || e.Returns? then [e] else []
  {
    assert (events + [e])[..|events|] == events;
  }

  lemma CallbacksMore(log: seq<Start>, start: Start)
    ensures CallbacksIn(log + [start]) == CallbacksIn(log) + if start.item.Run? then 1 else 0
  {
    assert (log + [start])[..|log|] == log;
  }

  lemma {:induction false} DidMore(a: seq<Behaviour>, b: seq<Behaviour>)
    ensures Did(a + b) == Did(a) + Did(b)
  {
    if a == [] {
      assert a + b == b;
    } else {
      DidMore(a[1..], b);
      assert (a + b)[1..] == a[1..] + b && (a + b)[0] == a[0];
      Associative(AllMade(a[0].ops) + [Returns(a[0].result)], Did(a[1..]), Did(b));
    }
  }

  lemma AllMadeMore(own: seq<Op>, more: seq<Op>)
    ensures AllMade(own + more) == AllMade(own) + AllMade(more)
  {
  }

  lemma DoesIs(e: seq<Event>, f: seq<Event>, own: seq<Op>, ran: seq<Behaviour>, finished: bool)
    ensures Does(e, f, own, ran, finished) <==>
      && e <= f && CallbacksIn(After(f).log) == CallbacksIn(After(e).log) + |ran|
      && var all := multiset(Tally(e)) + multiset(AllMade(own)) + multiset(Did(ran));
         if finished then multiset(Tally(f)) == all else multiset(Tally(f)) <= all
  {
    hide Tally, AllMade, Did, CallbacksIn, After;
  }

  lemma DoesNothing(e: seq<Event>)
    ensures Does(e, e, [], [], true)
  {
    hide After, Tally, CallbacksIn;
  }

  lemma DoesCall(e: seq<Event>, op: Op)
    ensures Does(e, e + [Made(op)], [op], [], true)
  {
    hide *;
    AfterMore(e, Made(op));
    MadeLog(After(e), op);
    TallyAdds(e, Made(op));
    OneMade(op);
    DoesIs(e, e + [Made(op)], [op], [], true);
  }

  lemma OneMade(op: Op)
    ensures multiset(AllMade([op])) == multiset{Made(op)} && multiset(Did([])) == multiset{}
  {
    assert AllMade([op]) == [Made(op)];
  }

  lemma TallyAdds(events: seq<Event>, e: Event)
    ensures multiset(Tally(events + [e])) ==
      multiset(Tally(events)) + if e.Made? || e.Returns? then multiset{e} else multiset{}
  {
    TallyMore(events, e);
    hide Tally;
  }

  lemma DoesMore(e: seq<Event>, f: seq<Event>, g: seq<Event>, own: seq<Op>, more: seq<Op>, a: seq<Behaviour>,
      b: seq<Behaviour>, finished: bool)
    requires Does(e, f, own, a, true) && Does(f, g, more, b, finished)
    ensures Does(e, g, own + more, a + b, finished)
  {
    DidMore(a, b);
    AllMadeMore(own, more);
    hide Tally, AllMade, Did, CallbacksIn, After;
  }

  lemma DidFirst(b: Behaviour, inner: seq<Behaviour>)
    ensures multiset(Did([b] + inner)) == multiset(AllMade(b.ops)) + multiset{Returns(b.result)} + multiset(Did(inner))
    ensures multiset(AllMade([])) == multiset{}
  {
    assert ([b] + inner)[1..] == inner;
    hide AllMade;
    assert Did([b] + inner) == AllMade(b.ops) + [Returns(b.result)] + Did(inner);
  }

  lemma DoesCallback(e: seq<Event>, item: Item, f: seq<Event>, b: Behaviour, inner: seq<Behaviour>, finished: bool)
    requires Ready(After(e)) && item.Run? && Does(e + [Takes(item)], f, b.ops, inner, finished)
    ensures !finished ==> Does(e, f, [], [b] + inner, false)
    ensures finished ==> Does(e, f + [Returns(b.result)], [], [b] + inner, true)
  {
    hide *;
    var c := After(e);
    TakesIs(e, item);
    EndLog(f, Returns(b.result));
    DoesIs(e + [Takes(item)], f, b.ops, inner, finished);
    TallyAdds(e, Takes(item));
    TallyAdds(f, Returns(b.result));
    OpeningLog(c, item);
    CallbacksMore(c.log, Start(item, c.open != []));
    DidFirst(b, inner);
    assert e <= e + [Takes(item)];
    if !finished {
      DoesIs(e, f, [], [b] + inner, false);
    } else {
      DoesIs(e, f + [Returns(b.result)], [], [b] + inner, true);
    }
  }

  lemma OpeningLog(c: Control, item: Item)
    requires Ready(c)
    ensures var d := Opening(c, item);
      && d.log == c.log + [Start(item, c.open != [])] && d.open == [Opened(item, c.queue[1..])] + c.open
      && d.queue == [] && d.running == 1 && d.waits == multiset{}
  {
  }

  lemma EndLog(f: seq<Event>, end: Event)
    requires !end.Made? && !end.Takes?
    ensures After(f + [end]).log == After(f).log
    ensures After(f).open != [] ==> After(f + [end]).open == After(f).open[1..]
  {
    AfterMore(f, end);
    hide After, Awaited;
  }

  lemma DoesWait(e: seq<Event>, item: Item)
    requires Ready(After(e)) && !item.Run?
    ensures Does(e, e + [Takes(item)] + [EndOf(item)], [], [], true)
  {
    var c := After(e);
    TakesIs(e, item);
    OpeningLog(c, item);
    EndLog(e + [Takes(item)], EndOf(item));
    TallyMore(e, Takes(item));
    TallyMore(e + [Takes(item)], EndOf(item));
    CallbacksMore(c.log, Start(item, c.open != []));
    hide After, Tally, CallbacksIn, Opening;
  }

  // ---------------------------------------------------------------- the parts of a run

  /** A part of a run, in which the calls `own` were made from outside it and the callbacks `ran` were run;
      finished parts leave as many callbacks running as before. */
  ghost predicate Part(e: seq<Event>, f: seq<Event>, own: seq<Op>, ran: seq<Behaviour>, finished: bool) {
    && Adds(|After(e).open|, After(e).log, After(f).log, ran, finished)
    && (finished ==> After(f).open == After(e).open) && Does(e, f, own, ran, finished)
  }

  lemma PartIs(e: seq<Event>, f: seq<Event>, own: seq<Op>, ran: seq<Behaviour>, finished: bool)
    ensures Part(e, f, own, ran, finished) <==>
      && Adds(|After(e).open|, After(e).log, After(f).log, ran, finished)
      && (finished ==> After(f).open == After(e).open) && Does(e, f, own, ran, finished)
    ensures Part(e, f, own, ran, finished) ==> After(e).log <= After(f).log && e <= f
  {
    hide Does, After, SomeNests, NestedFrom, Tally, CallbacksIn, AllMade, Did;
    if Does(e, f, own, ran, finished) { DoesIs(e, f, own, ran, finished); }
  }

  lemma PartNothing(e: seq<Event>)
    ensures Part(e, e, [], [], true)
  {
    DoesNothing(e);
    AddsNothing(|After(e).open|, After(e).log, true);
    hide Does, Adds, After;
  }

  lemma PartCall(e: seq<Event>, op: Op)
    ensures Part(e, e + [Made(op)], [op], [], true)
  {
    DoesCall(e, op);
    AddsNothing(|After(e).open|, After(e).log, true);
    AfterMore(e, Made(op));
    hide Does, Adds, After, ItemsOf, Signalled;
  }

  lemma PartMore(e: seq<Event>, f: seq<Event>, g: seq<Event>, own: seq<Op>, more: seq<Op>, a: seq<Behaviour>,
      b: seq<Behaviour>, finished: bool)
    requires Part(e, f, own, a, true) && Part(f, g, more, b, finished)
    ensures Part(e, g, own + more, a + b, finished)
  {
    hide *;
    PartIs(e, f, own, a, true);
    PartIs(f, g, more, b, finished);
    AddsMore(|After(e).open|, After(e).log, After(f).log, After(g).log, a, b, finished);
    DoesMore(e, f, g, own, more, a, b, finished);
    PartIs(e, g, own + more, a + b, finished);
  }

  /** One callback: taken out, its calls, and back. */
  lemma PartCallback(e: seq<Event>, item: Item, f: seq<Event>, b: Behaviour, inner: seq<Behaviour>, finished: bool)
    requires Ready(After(e)) && item.Run? && Part(e + [Takes(item)], f, b.ops, inner, finished)
    requires |After(f).log| > |After(e).log| + 1 ==> Nests(b.ops)
    requires finished && Nests(b.ops) ==> |After(f).log| > |After(e).log| + 1
    ensures !finished ==> Part(e, f, [], [b] + inner, false)
    ensures finished ==> Part(e, f + [Returns(b.result)], [], [b] + inner, true)
  {
    hide *;
    var c, e1 := After(e), e + [Takes(item)];
    TakesIs(e, item);
    OpeningLog(c, item);
    PartIs(e1, f, b.ops, inner, finished);
    AddsCallback(|c.open|, c.log, Start(item, c.open != []), After(f).log, b, inner, finished);
    DoesCallback(e, item, f, b, inner, finished);
    if finished {
      EndLog(f, Returns(b.result));
      PartIs(e, f + [Returns(b.result)], [], [b] + inner, true);
    } else {
      PartIs(e, f, [], [b] + inner, false);
    }
  }

  lemma PartWait(e: seq<Event>, item: Item)
    requires Ready(After(e)) && !item.Run?
    ensures Part(e, e + [Takes(item)] + [EndOf(item)], [], [], true)
  {
    assert !EndOf(item).Made? && !EndOf(item).Takes?;
    hide *;
    var c, e1 := After(e), e + [Takes(item)];
    TakesIs(e, item);
    OpeningLog(c, item);
    EndLog(e1, EndOf(item));
    AddsStart(|c.open|, c.log, Start(item, c.open != []));
    DoesWait(e, item);
    PartIs(e, e1 + [EndOf(item)], [], [], true);
  }

  lemma PartCut(e: seq<Event>, f: seq<Event>, own: seq<Op>, ran: seq<Behaviour>)
    requires Part(e, f, own, ran, true)
    ensures Part(e, f, own, ran, false)
  {
    AddsSoFar(|After(e).open|, After(e).log, After(f).log, ran);
    hide Adds, After, Tally, CallbacksIn, AllMade, Did;
  }

  /** An unfinished part of what a callback does. */
  lemma PartLess(e: seq<Event>, f: seq<Event>, own: seq<Op>, more: seq<Op>, ran: seq<Behaviour>)
    requires Part(e, f, own, ran, false)
    ensures Part(e, f, own + more, ran, false)
  {
    AllMadeMore(own, more);
    hide Adds, Tally, AllMade, Did, CallbacksIn, After;
  }

  // ---------------------------------------------------------------- every run

  /** `Process` is lawful. It starts something exactly if the queue is ready, and stops only when the queue is
      not, or where the next callback would start and the script has run out. */
  lemma {:induction false} ProcessPart(events: seq<Event>, script: seq<Behaviour>) returns (ran: seq<Behaviour>)
    requires Lawful(events)
    ensures var p := AfterProcess(events, script);
      && script == ran + p.rest && Lawful(p.events) && Part(events, p.events, [], ran, p.finished)
      && (if p.finished then !Ready(After(p.events)) else p.rest == [] && Starting(After(p.events)))
      && (!Ready(After(events)) ==> p == Played(events, script, true))
      && (Ready(After(events)) && p.finished ==> |After(p.events).log| > |After(events).log|)
    decreases |script|, 1, |After(events).queue|
  {
    hide *;
    var p, c := AfterProcess(events, script), After(events);
    ProcessUnfolds(events, script);
    StartingIs(c);
    PartNothing(events);
    assert script == [] + script;
    ran := [];
    if Ready(c) {
      var item := c.queue[0];
      if !item.Run? {
        var done := events + [Takes(item)] + [EndOf(item)];
        TakeAndEnd(events, item);
        WaitLawful(events, item);
        PartWait(events, item);
        ran := ProcessPart(done, script);
        PartNext(events, done, p.events, [], ran, p.finished);
        Grows(events, item);
        assert [] + ran == ran;
      } else if script == [] {
        PartCut(events, events, [], []);
      } else {
        ran := StartPart(events, script);
        var q := AfterOps(events + [Takes(item)], script[0].ops, script[1..]);
        if q.finished {
          var done := q.events + [Returns(script[0].result)];
          var more := ProcessPart(done, q.rest);
          PartNext(events, done, p.events, ran, more, p.finished);
          assert script == (ran + more) + p.rest by { Associative(ran, more, p.rest); }
          ran := ran + more;
        }
      }
    }
  }

  lemma PartNext(e: seq<Event>, f: seq<Event>, g: seq<Event>, a: seq<Behaviour>, b: seq<Behaviour>, finished: bool)
    requires Part(e, f, [], a, true) && Part(f, g, [], b, finished)
    ensures Part(e, g, [], a + b, finished) && After(f).log <= After(g).log
  {
    hide *;
    var none: seq<Op> := [];
    assert none + none == none;
    PartMore(e, f, g, [], [], a, b, finished);
    PartIs(f, g, [], b, finished);
  }

  /** The next callback starts, makes its calls and returns. */
  lemma {:induction false} StartPart(events: seq<Event>, script: seq<Behaviour>) returns (ran: seq<Behaviour>)
    requires Lawful(events) && Starting(After(events)) && script != []
    ensures var item, b := After(events).queue[0], script[0];
      var q := AfterOps(events + [Takes(item)], b.ops, script[1..]);
      && script == ran + q.rest
      && if q.finished then
           var done := q.events + [Returns(b.result)];
           && Lawful(done) && Part(events, done, [], ran, true) && |After(done).log| > |After(events).log|
         else Lawful(q.events) && Part(events, q.events, [], ran, false) && q.rest == [] && Starting(After(q.events))
    decreases |script|, 0, 0
  {
    hide *;
    var c := After(events);
    StartingIs(c);
    var item, b := c.queue[0], script[0];
    var first := events + [Takes(item)];
    StartLawful(events, item);
    TakesIs(events, item);
    OpeningLog(c, item);
    var q := AfterOps(first, b.ops, script[1..]);
    var inner := OpsPart(first, b.ops, script[1..]);
    QuietStart(b.ops, After(first));
    NestsHere(b.ops, 0);
    assert b.ops[0..] == b.ops;
    NestIff(first, b.ops, 0, script[1..]);
    PartIs(first, q.events, b.ops, inner, q.finished);
    PartCallback(events, item, q.events, b, inner, q.finished);
    ran := [b] + inner;
    assert script == [b] + script[1..];
    assert script == ran + q.rest by { Associative([b], inner, q.rest); }
    if q.finished {
      ReturnLawful(q.events, item, b.result);
      EndLog(q.events, Returns(b.result));
    }
  }

  lemma StartingIs(c: Control)
    ensures Starting(c) <==> Ready(c) && c.queue[0].Run?
    ensures Ready(c) ==> c.queue != []
  {
  }

  lemma Grows(events: seq<Event>, item: Item)
    requires Ready(After(events)) && !item.Run?
    ensures |After(events + [Takes(item)] + [EndOf(item)]).log| == |After(events).log| + 1
    ensures var none: seq<Op> := []; none + none == none
  {
    TakesIs(events, item);
    OpeningLog(After(events), item);
    EndLog(events + [Takes(item)], EndOf(item));
    hide After, Opening;
  }

  lemma StartLawful(events: seq<Event>, item: Item)
    requires Lawful(events) && Ready(After(events)) && After(events).queue[0] == item
    ensures Lawful(events + [Takes(item)])
  {
    LawfulMore(events, Takes(item));
    hide Lawful, After;
  }

  lemma WaitLawful(events: seq<Event>, item: Item)
    requires Lawful(events) && Ready(After(events)) && After(events).queue[0] == item && !item.Run?
    ensures Lawful(events + [Takes(item)] + [EndOf(item)])
  {
    hide *;
    StartLawful(events, item);
    TakesIs(events, item);
    OpeningLog(After(events), item);
    EndHappens(After(events + [Takes(item)]), item);
    LawfulMore(events + [Takes(item)], EndOf(item));
  }

  lemma EndHappens(c: Control, item: Item)
    requires c.open != [] && c.open[0].item == item && !item.Run?
    ensures Happens(c, EndOf(item))
  {
  }

  lemma ReturnLawful(events: seq<Event>, item: Item, result: Option<int>)
    requires Lawful(events) && After(events).open != [] && After(events).open[0].item == item && item.Run?
    ensures Lawful(events + [Returns(result)])
  {
    LawfulMore(events, Returns(result));
    hide Lawful, After;
  }

  /** One call is made first, and then only those of the callbacks that it lets run. It starts something exactly if
      it goes on to `Process` and leaves the queue ready. */
  lemma {:induction false} OpPart(events: seq<Event>, op: Op, script: seq<Behaviour>) returns (ran: seq<Behaviour>)
    requires Lawful(events)
    ensures var p, c := AfterOp(events, op, script), After(events);
      var enters := Goes(c, op) && Ready(Step(c, Made(op)));
      && script == ran + p.rest && Lawful(p.events) && Part(events, p.events, [op], ran, p.finished)
      && events + [Made(op)] <= p.events
      && (if p.finished then Goes(c, op) ==> !Ready(After(p.events)) else p.rest == [] && Starting(After(p.events)))
      && (!enters ==> p == Played(events + [Made(op)], script, true))
      && (enters && p.finished ==> |After(p.events).log| > |After(events).log|)
    decreases |script|, 2, 0
  {
    hide *;
    var p, c, made := AfterOp(events, op, script), After(events), events + [Made(op)];
    OpUnfolds(events, op, script);
    MadeLawful(events, op);
    AfterMore(events, Made(op));
    PartCall(events, op);
    PartIs(events, made, [op], [], true);
    assert script == [] + script;
    ran := [];
    if Goes(c, op) {
      ran := ProcessPart(made, script);
      PartMore(events, made, p.events, [op], [], [], ran, p.finished);
      PartIs(made, p.events, [], ran, p.finished);
      assert [op] + [] == [op] && [] + ran == ran;
    }
  }

  lemma MadeLawful(events: seq<Event>, op: Op)
    requires Lawful(events)
    ensures Lawful(events + [Made(op)])
  {
    LawfulMore(events, Made(op));
    hide Lawful, After;
  }

  /** The calls of a program or a callback. */
  lemma {:induction false} OpsPart(events: seq<Event>, ops: seq<Op>, script: seq<Behaviour>)
      returns (ran: seq<Behaviour>)
    requires Lawful(events)
    ensures var p := AfterOps(events, ops, script);
      && script == ran + p.rest && Lawful(p.events) && Part(events, p.events, ops, ran, p.finished)
      && (p.finished ==> Within(AllMade(ops), p.events[|events|..]))
      && (!p.finished ==> p.rest == [] && Starting(After(p.events)))
    decreases |script|, 3, |ops|
  {
    hide *;
    OpsUnfolds(events, ops, script);
    if ops == [] {
      ran := [];
      PartNothing(events);
      NothingWithin();
      assert script == [] + script;
    } else {
      var p := AfterOps(events, ops, script);
      var q := AfterOp(events, ops[0], script);
      ran := OpPart(events, ops[0], script);
      assert ops == [ops[0]] + ops[1..];
      if q.finished {
        var more := OpsPart(q.events, ops[1..], q.rest);
        PartMore(events, q.events, p.events, [ops[0]], ops[1..], ran, more, p.finished);
        PartIs(events, q.events, [ops[0]], ran, true);
        PartIs(q.events, p.events, ops[1..], more, p.finished);
        if p.finished {
          CallsWithin(events, ops, q.events, p.events);
        }
        assert script == (ran + more) + p.rest by { Associative(ran, more, p.rest); }
        ran := ran + more;
      } else {
        PartLess(events, q.events, [ops[0]], ops[1..], ran);
      }
    }
  }

  lemma NothingWithin()
    ensures forall all: seq<Event> :: Within(AllMade([]), all)
  {
  }

  lemma CallsWithin(e: seq<Event>, ops: seq<Op>, f: seq<Event>, g: seq<Event>)
    requires ops != [] && e + [Made(ops[0])] <= f <= g && Within(AllMade(ops[1..]), g[|f|..])
    ensures Within(AllMade(ops), g[|e|..])
  {
    var made, rest := [Made(ops[0])], f[|e|..];
    assert rest[0] == made[0] && made[1..] == [];
    assert Within(made[1..], rest[1..]);
    assert Within(made, rest);
    WithinMore(made, rest, AllMade(ops[1..]), g[|f|..]);
    assert made + AllMade(ops[1..]) == AllMade(ops);
    assert rest + g[|f|..] == g[|e|..];
  }

  /** A callback starts another inside itself exactly if its calls nest. */
  lemma {:induction false} NestIff(events: seq<Event>, ops: seq<Op>, i: nat, script: seq<Behaviour>)
    requires Lawful(events) && i <= |ops| && Quiet(ops, i, After(events)) && NestsNowhere(ops, i)
    ensures var p := AfterOps(events, ops[i..], script);
      && (p.finished ==> (|After(p.events).log| > |After(events).log| <==> Nests(ops)))
      && (|After(p.events).log| > |After(events).log| ==> Nests(ops))
      && (!Nests(ops) ==> p.finished && p.rest == script)
    decreases |script|, 4, |ops| - i
  {
    hide *;
    NestsHere(ops, i);
    OpsUnfolds(events, ops[i..], script);
    if i < |ops| {
      var c, op := After(events), ops[i];
      assert ops[i..][0] == op && ops[i..][1..] == ops[i + 1..];
      QuietStep(ops, i, c);
      var q := AfterOp(events, op, script);
      var ran := OpPart(events, op, script);
      PartIs(events, q.events, [op], ran, q.finished);
      if NestsAt(ops, i) {
        if q.finished {
          var more := OpsPart(q.events, ops[i + 1..], q.rest);
          var p := AfterOps(q.events, ops[i + 1..], q.rest);
          PartIs(q.events, p.events, ops[i + 1..], more, p.finished);
        }
      } else {
        AfterMore(events, Made(op));
        MadeLog(c, op);
        NestIff(q.events, ops, i + 1, q.rest);
      }
    }
  }

  lemma MadeLog(c: Control, op: Op)
    ensures Step(c, Made(op)).log == c.log
  {
    hide ItemsOf, Signalled;
  }

  // ---------------------------------------------------------------- whole runs

  /** The callbacks that a run has started. */
  function Ran(script: seq<Behaviour>, rest: seq<Behaviour>): seq<Behaviour>
    requires |rest| <= |script|
  {
    script[..|script| - |rest|]
  }

  /** Every run of a program is lawful. The program's calls are made, in its order, and those of each callback
      that ran, each once and no others. An unfinished run stands where the next callback would start. */
  lemma RunIsLawful(events: seq<Event>, program: seq<Op>, script: seq<Behaviour>)
    requires Lawful(events)
    ensures var p := AfterOps(events, program, script);
      && Lawful(p.events) && script == Ran(script, p.rest) + p.rest
      && Does(events, p.events, program, Ran(script, p.rest), p.finished)
      && (if p.finished then Within(AllMade(program), p.events[|events|..])
        && After(p.events).open == After(events).open
          else p.rest == [] && Starting(After(p.events)))
  {
    var p := AfterOps(events, program, script);
    var ran := OpsPart(events, program, script);
    hide *;
    PartIs(events, p.events, program, ran, p.finished);
    assert Ran(script, p.rest) == ran by { RanIs(script, ran, p.rest); }
  }

  lemma RanIs(script: seq<Behaviour>, ran: seq<Behaviour>, rest: seq<Behaviour>)
    requires script == ran + rest
    ensures Ran(script, rest) == ran
  {
  }

  /** In a run that begins with no callback running, some callback starts inside another only if one that ran
      nests, and if the run is finished, if one does. */
  lemma NestedIff(events: seq<Event>, program: seq<Op>, script: seq<Behaviour>)
    requires Lawful(events) && After(events).open == [] && !NestedFrom(After(events).log, 0)
    ensures var p := AfterOps(events, program, script);
      && (NestedFrom(After(p.events).log, 0) ==> SomeNests(Ran(script, p.rest)))
      && (p.finished ==> (NestedFrom(After(p.events).log, 0) <==> SomeNests(Ran(script, p.rest))))
  {
    var p := AfterOps(events, program, script);
    var ran := OpsPart(events, program, script);
    hide AfterOps, After, Lawful, SomeNests, NestedFrom, Does, Within, Starting;
    assert After(events).log <= After(p.events).log;
    NestedSince(After(events).log, After(p.events).log);
    RanIs(script, ran, p.rest);
  }

  /** So a run of callbacks none of which nests starts everything in push order. */
  lemma FirstInFirstOut(events: seq<Event>, program: seq<Op>, script: seq<Behaviour>)
    requires Lawful(events) && After(events).open == [] && !NestedFrom(After(events).log, 0)
    requires !SomeNests(Ran(script, AfterOps(events, program, script).rest))
    ensures Ordered(After(AfterOps(events, program, script).events))
  {
    hide *;
    NestedIff(events, program, script);
    RunIsLawful(events, program, script);
    LawfulIsOrdered(AfterOps(events, program, script).events);
  }

  /** What was pushed are the arguments of the calls of the program and of the callbacks that ran. */
  lemma PushedByRun(events: seq<Event>, program: seq<Op>, script: seq<Behaviour>)
    requires Lawful(events) && AfterOps(events, program, script).finished
    ensures var p := AfterOps(events, program, script);
      multiset(ArgsOf(After(p.events).pushed))
      == multiset(ArgsIn(events + AllMade(program) + Did(Ran(script, p.rest))))
  {
    var p := AfterOps(events, program, script);
    var ran := Ran(script, p.rest);
    RunIsLawful(events, program, script);
    hide *;
    PushedAre(p.events);
    CallsTallied(events, p.events, program, ran);
  }

  /** A program that never resumes the queue leaves nothing that could start. */
  lemma {:induction false} NeverResumed(events: seq<Event>, program: seq<Op>, script: seq<Behaviour>)
    requires Lawful(events) && !Ready(After(events)) && forall op :: op in program ==> !op.Resume?
    ensures var p := AfterOps(events, program, script); p.finished ==> !Ready(After(p.events))
    decreases |program|
  {
    hide *;
    OpsUnfolds(events, program, script);
    if program != [] {
      var op, q := program[0], AfterOp(events, program[0], script);
      var ran := OpPart(events, op, script);
      assert op in program && forall o :: o in program[1..] ==> o in program;
      if q.finished {
        LawfulIsSound(events);
        NotReadied(After(events), op);
        AfterMore(events, Made(op));
        NeverResumed(q.events, program[1..], q.rest);
      }
    }
  }

  lemma NotReadied(c: Control, op: Op)
    requires !Ready(c) && !op.Resume? && Sound(c)
    ensures Goes(c, op) || !Ready(Step(c, Made(op)))
  {
    hide Started, Held, ItemsOf;
    if op.Ends? && !Goes(c, op) {
      if c.waits == multiset{} {
        NoWaiters(c.called, c.waits, op.cb, op.result);
      } else {
        StillWaiting(c.called, c.waits, op.cb, op.result);
      }
    }
    hide Signalled;
  }

  lemma StillWaiting(called: set<int>, waits: multiset<int>, cb: int, result: Option<int>)
    requires waits != multiset{} && !LastWait(called, waits, cb, result)
    ensures Signalled(called, waits, cb, result) != multiset{}
  {
    var now := Signalled(called, waits, cb, result);
    if now == multiset{} {
      assert cb in called;
      if result.Some? && result.value !in called {
        SignalMoves(called, waits, cb, result);
      } else {
        SignalEnds(called, waits, cb, result);
      }
    }
  }

  /** `own` is a subsequence of `all`. */
  ghost predicate Within<T>(own: seq<T>, all: seq<T>)
    decreases |all|
  {
    || own == []
    || (all != [] && ((own[0] == all[0] && Within(own[1..], all[1..])) || Within(own, all[1..])))
  }

  lemma {:induction false} WithinMore<T>(a: seq<T>, x: seq<T>, b: seq<T>, y: seq<T>)
    requires Within(a, x) && Within(b, y)
    ensures Within(a + b, x + y)
    decreases |x|
  {
    if x == [] {
      assert a + b == b && x + y == y;
    } else {
      assert (x + y)[1..] == x[1..] + y;
      if a != [] && a[0] == x[0] && Within(a[1..], x[1..]) {
        WithinMore(a[1..], x[1..], b, y);
        assert (a + b)[1..] == a[1..] + b;
      } else {
        WithinMore(a, x[1..], b, y);
      }
    }
  }

  function ArgOf(item: Item): Arg {
    match item
    case Run(id) => Function(id)
    case Wait(cb) => Callback(cb)
    case Spent(cb) => Callback(cb)
  }

  function ArgsOf(items: seq<Item>): (args: seq<Arg>)
    ensures |args| == |items| && forall i :: 0 <= i < |items| ==> args[i] == ArgOf(items[i])
  {
    seq(|items|, i requires 0 <= i < |items| => ArgOf(items[i]))
  }

  /** The arguments of the pushes among some events. */
  function ArgsIn(events: seq<Event>): seq<Arg> {
    if events == [] then []
    else
      var e := events[|events| - 1];
      ArgsIn(events[..|events| - 1]) + if e.Made? && e.op.Push? then e.op.args else []
  }

  lemma ArgsStep(c: Control, e: Event)
    ensures ArgsOf(Step(c, e).pushed) == ArgsOf(c.pushed) + ArgsIn([e])
  {
    assert [e][..0] == [];
    hide Awaited, Signalled, Lowered;
    if e.Made? && e.op.Push? {
      var items := ItemsOf(e.op.args, c.called);
      forall i | 0 <= i < |items| ensures ArgOf(items[i]) == e.op.args[i] {
      }
      hide ItemsOf;
      assert ArgsOf(c.pushed + items) == ArgsOf(c.pushed) + e.op.args;
    }
  }

  lemma NothingPushed()
    ensures ArgsOf(After([]).pushed) == [] == ArgsIn([])
  {
  }

  /** What was pushed are the arguments of the pushes, in order. */
  lemma {:induction false} PushedAre(events: seq<Event>)
    ensures ArgsOf(After(events).pushed) == ArgsIn(events)
  {
    hide *;
    if events == [] {
      NothingPushed();
    } else {
      var less, e := events[..|events| - 1], events[|events| - 1];
      PushedAre(less);
      assert events == less + [e];
      AfterMore(less, e);
      ArgsInMore(less, e);
      ArgsStep(After(less), e);
    }
  }

  /** Removing every occurrence of `cb`. */
  function Without(waits: multiset<int>, cb: int): (rest: multiset<int>)
    ensures |rest| == |waits| - waits[cb] && rest[cb] == 0
  {
    assert waits == waits[cb := 0] + multiset{}[cb := waits[cb]];
    waits[cb := 0]
  }

  lemma MoveWaits(waits: multiset<int>, from: int, to: int)
    requires from != to
    ensures |Without(waits, from)[to := waits[to] + waits[from]]| == |waits|
  {
    var rest := Without(waits, from);
    assert rest[to := waits[to] + waits[from]] == rest + multiset{}[to := waits[from]];
  }

  lemma NotSignalled(called: set<int>, waits: multiset<int>, cb: int, result: Option<int>)
    requires cb !in called
    ensures Signalled(called, waits, cb, result) == waits && !LastWait(called, waits, cb, result)
  {
  }

  lemma SignalMoves(called: set<int>, waits: multiset<int>, cb: int, result: Option<int>)
    requires cb in called && result.Some? && result.value !in called
    ensures var now := Without(waits, cb)[result.value := waits[result.value] + waits[cb]];
      Signalled(called, waits, cb, result) == now && |now| == |waits|
    ensures !LastWait(called, waits, cb, result)
  {
    MoveWaits(waits, cb, result.value);
    hide Without;
  }

  lemma SignalEnds(called: set<int>, waits: multiset<int>, cb: int, result: Option<int>)
    requires cb in called && !(result.Some? && result.value !in called)
    ensures var now := Without(waits, cb);
      && Signalled(called, waits, cb, result) == now && |now| == |waits| - waits[cb]
      && (LastWait(called, waits, cb, result) <==> waits[cb] > 0 && |now| == 0)
  {
    hide Without;
    assert |Without(waits, cb)| == 0 <==> Without(waits, cb) == multiset{};
  }

  lemma {:induction false} TallyAll(events: seq<Event>, more: seq<Event>)
    requires forall e :: e in more ==> e.Made? || e.Returns?
    ensures Tally(events + more) == Tally(events) + more
    decreases |more|
  {
    if more == [] {
      assert events + more == events;
    } else {
      var less, e := more[..|more| - 1], more[|more| - 1];
      assert more == less + [e];
      Associative(events, less, [e]);
      TallyAll(events, less);
      TallyMore(events + less, e);
    }
  }

  lemma {:induction false} AllDid(ran: seq<Behaviour>)
    ensures forall e :: e in Did(ran) ==> e.Made? || e.Returns?
  {
    if ran != [] {
      AllDid(ran[1..]);
    }
  }

  lemma {:induction false} ArgsInTally(events: seq<Event>)
    ensures ArgsIn(Tally(events)) == ArgsIn(events)
  {
    if events != [] {
      var less, e := events[..|events| - 1], events[|events| - 1];
      ArgsInTally(less);
      assert events == less + [e];
      ArgsInMore(less, e);
      ArgsInMore(Tally(less), e);
      assert Tally(less) + [] == Tally(less);
    }
  }

  lemma ArgsInMore(events: seq<Event>, e: Event)
    ensures ArgsIn(events + [e]) == ArgsIn(events) + ArgsIn([e])
  {
    assert (events + [e])[..|events|] == events;
    assert [e][..0] == [];
  }

  lemma {:induction false} ArgsInBoth(a: seq<Event>, b: seq<Event>)
    ensures ArgsIn(a + b) == ArgsIn(a) + ArgsIn(b)
    decreases |b|
  {
    if b == [] {
      assert a + b == a;
    } else {
      hide *;
      var less, e := b[..|b| - 1], b[|b| - 1];
      assert b == less + [e];
      Associative(a, less, [e]);
      Associative(ArgsIn(a), ArgsIn(less), ArgsIn([e]));
      ArgsInBoth(a, less);
      ArgsInMore(a + less, e);
      ArgsInMore(less, e);
    }
  }

  lemma WithoutOne<T>(less: seq<T>, b: seq<T>, e: T, i: nat)
    requires i < |b| && b[i] == e && multiset(less + [e]) == multiset(b)
    ensures multiset(less) == multiset(b[..i] + b[i + 1..])
  {
    assert b == b[..i] + [e] + b[i + 1..];
    assert multiset(b) == multiset(b[..i] + b[i + 1..]) + multiset{e};
    assert multiset(less) == multiset(less + [e]) - multiset{e};
  }

  /** The same calls push the same arguments, in whatever order they are made. */
  lemma {:induction false} ArgsOfSame(a: seq<Event>, b: seq<Event>)
    requires multiset(a) == multiset(b)
    ensures multiset(ArgsIn(a)) == multiset(ArgsIn(b))
    decreases |a|
  {
    if a == [] {
      assert |multiset(b)| == |b|;
    } else {
      var less, e := a[..|a| - 1], a[|a| - 1];
      assert a == less + [e];
      hide ArgsIn;
      assert e in multiset(b);
      var i :| 0 <= i < |b| && b[i] == e;
      assert b == b[..i] + [e] + b[i + 1..];
      WithoutOne(less, b, e, i);
      ArgsOfSame(less, b[..i] + b[i + 1..]);
      ArgsInBoth(b[..i] + [e], b[i + 1..]);
      ArgsInBoth(b[..i], b[i + 1..]);
      ArgsInMore(b[..i], e);
      ArgsInMore(less, e);
    }
  }

  lemma CallsTallied(e: seq<Event>, f: seq<Event>, program: seq<Op>, ran: seq<Behaviour>)
    requires Does(e, f, program, ran, true)
    ensures multiset(ArgsIn(f)) == multiset(ArgsIn(e + AllMade(program) + Did(ran)))
  {
    var all := e + AllMade(program) + Did(ran);
    AllDid(ran);
    TallyAll(e, AllMade(program));
    TallyAll(e + AllMade(program), Did(ran));
    ArgsInTally(f);
    ArgsInTally(all);
    hide Tally, AllMade, Did, ArgsIn, After, CallbacksIn;
    ArgsOfSame(Tally(f), Tally(all));
  }

  // ---------------------------------------------------------------- the queue

  class Queue {
    var queue: seq<Item>
    var running: int
    var pending: int
    var called: set<int>           // the callback objects made elsewhere that have been called
    var waits: multiset<int>       // those this queue waits for, as often as it does
    ghost var events: seq<Event>

    /** The queue is as its history, a lawful one, has left it, and `pending` counts what it waits for. */
    ghost predicate Valid()
      reads this
    {
      && Lawful(events) && pending == |waits|
      && Stands(After(events), queue, running, called, waits)
    }

    lemma ValidIs()
      ensures Valid() <==> Lawful(events) && pending == |waits| && Stands(After(events), queue, running, called, waits)
      ensures Valid() ==> running >= 0
      ensures Valid() ==> (Ready(After(events)) <==> running == 0 && pending == 0 && queue != [])
    {
      hide Lawful, After;
      if Valid() {
        LawfulIsSound(events);
        assert |waits| == 0 <==> waits == multiset{};
      }
      hide Sound;
    }

    constructor ()
      ensures Valid() && events == []
    {
      queue, running, pending, called, waits := [], 0, 0, {}, multiset{};
      events := [];
    }

    /** `Push` up to the decision whether to process: the arguments join the end. */
    method Append(args: seq<Arg>)
      requires Valid()
      modifies this`queue, this`events
      ensures Valid() && events == old(events) + [Made(Op.Push(args))]
      ensures queue == old(queue) + ItemsOf(args, called)
    {
      hide *;
      ValidIs();
      MadeLawful(events, Op.Push(args));
      PushStands(events, queue, running, called, waits, args);
      queue := queue + ItemsOf(args, called);
      events := events + [Made(Op.Push(args))];
      ValidIs();
    }

    /** `WAITFOR(callback, queue)`. */
    method WaitFor(cb: int)
      requires pending == |waits|
      modifies this`waits, this`pending
      ensures pending == |waits| && waits == Awaited(called, old(waits), Some(cb))
    {
      if cb !in called {
        waits := waits + multiset{cb};
        pending := pending + 1;
      }
    }

    /** The end of a callback object somebody waits for: its waiters wait for the uncalled callback it
        returns, or have waited long enough. */
    method Signal(cb: int, result: Option<int>) returns (call: bool)
      requires Valid()
      modifies this`waits, this`pending, this`events
      ensures Valid() && events == old(events) + [Made(Ends(cb, result))]
      ensures waits == Signalled(called, old(waits), cb, result)
      ensures call <==> LastWait(called, old(waits), cb, result)
    {
      hide *;
      call := false;
      ValidIs();
      MadeLawful(events, Ends(cb, result));
      EndsStands(events, queue, running, called, waits, cb, result);
      if cb in called {
        var n := waits[cb];
        var rest := Without(waits, cb);
        if result.Some? && result.value !in called {
          SignalMoves(called, waits, cb, result);
          waits := rest[result.value := waits[result.value] + n];
        } else {
          SignalEnds(called, waits, cb, result);
          call := CallWaiters(n);
          waits := rest;
        }
      } else {
        NotSignalled(called, waits, cb, result);
      }
      events := events + [Made(Ends(cb, result))];
      ValidIs();
    }

    /** Every waiter is told; the last one that was waited for has the queue called. */
    method CallWaiters(n: nat) returns (call: bool)
      modifies this`pending
      ensures pending == old(pending) - n && (call <==> n > 0 && pending <= 0)
    {
      var i := 0;
      call := false;
      while i < n
        invariant i <= n && pending == old(pending) - i
        invariant call <==> i > 0 && pending <= 0
      {
        pending := pending - 1;
        call := pending <= 0;
        i := i + 1;
      }
    }

    /** The first half of a round of `Process`: the first item is taken out and the queue suspended. */
    method Take() returns (item: Item, rest: seq<Item>)
      requires Valid() && running == 0 && pending == 0 && queue != []
      modifies this`queue, this`running, this`events
      ensures Valid() && events == old(events) + [Takes(item)]
      ensures running == 1 && [item] + rest == old(queue) && queue == []
      ensures After(events).open == [Opened(item, rest)] + After(old(events)).open
    {
      hide *;
      ValidIs();
      item, rest := queue[0], queue[1..];
      StandsIs(After(events), queue, running, called, waits);
      StartLawful(events, item);
      TakeStands(events, queue, called, waits);
      queue := [];
      running := running + 1;
      events := events + [Takes(item)];
      ValidIs();
    }

    /** The second half: what was pushed meanwhile goes behind the rest, and an uncalled callback that was
        returned is waited for. */
    method Finish(item: Item, rest: seq<Item>, result: Option<int>, ghost end: Event)
      requires Valid() && After(events).open != [] && After(events).open[0] == Opened(item, rest)
        && Closes(item, end, result)
      modifies this`queue, this`running, this`events, this`waits, this`pending
      ensures Valid() && events == old(events) + [end]
      ensures queue == rest + old(queue) && running == Lowered(old(running))
      ensures waits == Awaited(called, old(waits), result)
    {
      hide Valid, Lawful, After, Awaited, Stands, Lowered;
      ValidIs();
      CloseStands(events, queue, running, called, waits, item, rest, result, end);
      LoweredIs(running);
      assert rest == [] ==> rest + queue == queue;
      if running > 0 {
        running := running - 1;
      }
      if rest != [] {
        queue := rest + queue;
      }
      if result.Some? {
        WaitFor(result.value);
      } else {
        NothingAwaited(called, waits);
      }
      events := events + [end];
      ValidIs();
    }

    /** `Resume` */
    method DoResume()
      requires Valid()
      modifies this`running, this`events
      ensures Valid() && events == old(events) + [Made(Resume)] && running == Lowered(old(running))
    {
      hide *;
      ValidIs();
      MadeLawful(events, Resume);
      CallStands(events, queue, running, called, waits);
      LoweredIs(running);
      if running > 0 {
        running := running - 1;
      }
      events := events + [Made(Resume)];
      ValidIs();
    }

    /** `Suspend` */
    method DoSuspend()
      requires Valid()
      modifies this`running, this`events
      ensures Valid() && events == old(events) + [Made(Suspend)] && running == old(running) + 1
    {
      hide *;
      ValidIs();
      MadeLawful(events, Suspend);
      CallStands(events, queue, running, called, waits);
      running := running + 1;
      events := events + [Made(Suspend)];
      ValidIs();
    }

    /** A callback object made elsewhere is called. */
    method Began(cb: int)
      requires Valid()
      modifies this`called, this`events
      ensures Valid() && events == old(events) + [Made(Begins(cb))] && called == old(called) + {cb}
    {
      hide *;
      ValidIs();
      MadeLawful(events, Begins(cb));
      BeginsStands(events, queue, running, called, waits, cb);
      called := called + {cb};
      events := events + [Made(Begins(cb))];
      ValidIs();
    }

    /** One round of the loop of `Process`: an item is started and, unless the script ends meanwhile,
        finished. */
    method Round(script: seq<Behaviour>) returns (n: nat, finished: bool)
      requires Valid() && running == 0 && pending == 0 && queue != [] && (queue[0].Run? ==> script != [])
      modifies this
      ensures Valid() && n <= |script|
      ensures AfterProcess(old(events), script) ==
        if finished then AfterProcess(events, script[n..]) else Played(events, script[n..], false)
      ensures finished && n == 0 ==> |queue| < |old(queue)|
      decreases |script|, 0
    {
      hide *;
      ValidIs();
      StandsIs(After(events), queue, running, called, waits);
      ProcessUnfolds(events, script);
      n, finished := 0, true;
      assert script[0..] == script;
      var item, rest := Take();
      ghost var taken := events;
      var result := None;
      ghost var end := Passes;
      match item {
        case Run(_) =>
          ValidIs();
          ghost var ran := OpsPart(taken, script[0].ops, script[1..]);
          var k;
          k, finished := RunOps(script[0].ops, script[1..]);
          PartIs(taken, events, script[0].ops, ran, finished);
          result := script[0].result;
          n, end := 1 + k, Returns(result);
          assert script[1..][k..] == script[n..];
          if !finished {
            return;
          }
        case Wait(cb) =>
          end := Waits(cb);
          result := Some(cb);
        case Spent(_) =>
      }
      ClosesIs(item, result);
      Finish(item, rest, result, end);
    }

    /** The loop of `Process`, with however many callbacks running. */
    method Process(script: seq<Behaviour>) returns (n: nat, finished: bool)
      requires Valid()
      modifies this
      ensures Valid() && n <= |script|
      ensures Played(events, script[n..], finished) == AfterProcess(old(events), script)
      decreases |script|, 1
    {
      hide *;
      n, finished := 0, true;
      assert script[0..] == script;
      while running == 0 && pending == 0 && queue != []
        invariant Valid() && n <= |script| && finished
        invariant AfterProcess(events, script[n..]) == AfterProcess(old(events), script)
        decreases |script| - n, |queue|
      {
        ValidIs();
        StandsIs(After(events), queue, running, called, waits);
        ProcessUnfolds(events, script[n..]);
        if queue[0].Run? && n == |script| {
          return n, false;
        }
        var k;
        k, finished := Round(script[n..]);
        assert script[n..][k..] == script[n + k..];
        n := n + k;
        if !finished {
          return;
        }
      }
      ValidIs();
      ProcessUnfolds(events, script[n..]);
    }

    /** The calls that a callback makes between its start and its end, or a program. */
    method RunOps(ops: seq<Op>, script: seq<Behaviour>) returns (n: nat, finished: bool)
      requires Valid()
      modifies this
      ensures Valid() && n <= |script|
      ensures Played(events, script[n..], finished) == AfterOps(old(events), ops, script)
      decreases |script|, 4
    {
      hide *;
      n, finished := 0, true;
      var i := 0;
      assert script[0..] == script && ops[0..] == ops;
      while i < |ops|
        invariant i <= |ops| && Valid() && n <= |script| && finished
        invariant AfterOps(events, ops[i..], script[n..]) == AfterOps(old(events), ops, script)
      {
        OpsUnfolds(events, ops[i..], script[n..]);
        assert ops[i..][0] == ops[i] && ops[i..][1..] == ops[i + 1..];
        var k;
        k, finished := Perform(ops[i], script[n..]);
        assert script[n..][k..] == script[n + k..];
        n := n + k;
        i := i + 1;
        if !finished {
          return;
        }
      }
      assert ops[i..] == [];
      OpsUnfolds(events, [], script[n..]);
    }

    /** `Push` */
    method Push(args: seq<Arg>, script: seq<Behaviour>) returns (n: nat, finished: bool)
      requires Valid()
      modifies this
      ensures Valid() && n <= |script|
      ensures Played(events, script[n..], finished) == AfterOp(old(events), Op.Push(args), script)
      decreases |script|, 2
    {
      hide *;
      n, finished := 0, true;
      assert script[0..] == script;
      GoesIs(After(events), Op.Push(args));
      OpUnfolds(events, Op.Push(args), script);
      Append(args);
      if running == 0 && pending == 0 {
        n, finished := Process(script);
      } else {
        ValidIs();
        ProcessUnfolds(events, script);
      }
    }

    /** `call`, which is `Process`. */
    method DoCall(script: seq<Behaviour>) returns (n: nat, finished: bool)
      requires Valid()
      modifies this
      ensures Valid() && n <= |script|
      ensures Played(events, script[n..], finished) == AfterOp(old(events), Call, script)
      decreases |script|, 2
    {
      hide *;
      ValidIs();
      GoesIs(After(events), Call);
      OpUnfolds(events, Call, script);
      MadeLawful(events, Call);
      CallStands(events, queue, running, called, waits);
      events := events + [Made(Call)];
      ValidIs();
      n, finished := Process(script);
    }

    /** The end of a callback object made elsewhere, which may let the queue go on. */
    method Executed(cb: int, result: Option<int>, script: seq<Behaviour>) returns (n: nat, finished: bool)
      requires Valid()
      modifies this
      ensures Valid() && n <= |script|
      ensures Played(events, script[n..], finished) == AfterOp(old(events), Ends(cb, result), script)
      decreases |script|, 2
    {
      hide *;
      n, finished := 0, true;
      assert script[0..] == script;
      ValidIs();
      StandsIs(After(events), queue, running, called, waits);
      GoesIs(After(events), Ends(cb, result));
      OpUnfolds(events, Ends(cb, result), script);
      var call := Signal(cb, result);
      if call {
        n, finished := Process(script);
      }
    }

    /** One call made on the queue, by the program or by a running callback. */
    method Perform(op: Op, script: seq<Behaviour>) returns (n: nat, finished: bool)
      requires Valid()
      modifies this
      ensures Valid() && n <= |script|
      ensures Played(events, script[n..], finished) == AfterOp(old(events), op, script)
      decreases |script|, 3
    {
      hide *;
      n, finished := 0, true;
      assert script[0..] == script;
      GoesIs(After(events), op);
      OpUnfolds(events, op, script);
      match op {
        case Push(args) => n, finished := Push(args, script);
        case Suspend => DoSuspend();
        case Resume => DoResume();
        case Call => n, finished := DoCall(script);
        case Begins(cb) => Began(cb);
        case Ends(cb, result) => n, finished := Executed(cb, result, script);
      }
    }

    /** A program on a queue with no callback running, and none ever started inside another. What happens is
        the run of the specification, which is lawful: an item is started only when the queue is neither
        suspended nor waiting. Everything pushed, that is, by the calls of the program and of the callbacks that
        ran, has been started once or is queued, and in push order if no callback that ran nests. The run stops
        where the script has run out. */
    method RunProgram(program: seq<Op>, script: seq<Behaviour>) returns (n: nat, finished: bool)
      requires Valid() && After(events).open == [] && !NestedFrom(After(events).log, 0)
      modifies this
      ensures Valid() && n <= |script|
      ensures Played(events, script[n..], finished) == AfterOps(old(events), program, script)
      ensures Sound(After(events)) && Does(old(events), events, program, script[..n], finished)
      ensures if finished then After(events).open == [] else n == |script| && Starting(After(events))
      ensures !SomeNests(script[..n]) ==> Ordered(After(events))
      ensures finished ==> (NestedFrom(After(events).log, 0) <==> SomeNests(script[..n]))
      ensures finished && !Ready(After(old(events))) && (forall op :: op in program ==> !op.Resume?) ==>
        running > 0 || pending > 0 || queue == []
    {
      hide *;
      ghost var before := events;
      ValidIs();
      n, finished := RunOps(program, script);
      ValidIs();
      RunIsLawful(before, program, script);
      RanIs(script, script[..n], script[n..]);
      assert script == script[..n] + script[n..];
      NestedIff(before, program, script);
      LawfulIsSound(events);
      if !SomeNests(script[..n]) {
        FirstInFirstOut(before, program, script);
      }
      if finished && (forall op :: op in program ==> !op.Resume?) && !Ready(After(before)) {
        NeverResumed(before, program, script);
      }
    }
  }

  // ---------------------------------------------------------------- the fields and the history

  /** The fields are what the history makes of them. */
  predicate Stands(c: Control, queue: seq<Item>, running: int, called: set<int>, waits: multiset<int>) {
    c.queue == queue && c.running == running && c.called == called && c.waits == waits
  }

  lemma StandsIs(c: Control, queue: seq<Item>, running: int, called: set<int>, waits: multiset<int>)
    ensures Stands(c, queue, running, called, waits) <==>
      c.queue == queue && c.running == running && c.called == called && c.waits == waits
  {
  }

  lemma LoweredIs(running: int)
    ensures Lowered(running) == if running > 0 then running - 1 else running
  {
  }

  lemma NothingAwaited(called: set<int>, waits: multiset<int>)
    ensures Awaited(called, waits, None) == waits
  {
  }

  lemma GoesIs(c: Control, op: Op)
    ensures Goes(c, op) <==> op.Push? || op.Call? || (op.Ends? && LastWait(c.called, c.waits, op.cb, op.result))
  {
    hide LastWait;
  }

  lemma PushStands(e: seq<Event>, queue: seq<Item>, running: int, called: set<int>, waits: multiset<int>,
      args: seq<Arg>)
    requires Stands(After(e), queue, running, called, waits)
    ensures Stands(After(e + [Made(Push(args))]), queue + ItemsOf(args, called), running, called, waits)
  {
    AfterMore(e, Made(Push(args)));
    hide After, ItemsOf;
  }

  lemma EndsStands(e: seq<Event>, queue: seq<Item>, running: int, called: set<int>, waits: multiset<int>, cb: int,
      result: Option<int>)
    requires Stands(After(e), queue, running, called, waits)
    ensures Stands(After(e + [Made(Ends(cb, result))]), queue, running, called, Signalled(called, waits, cb, result))
  {
    AfterMore(e, Made(Ends(cb, result)));
    hide After, Signalled;
  }

  lemma CallStands(e: seq<Event>, queue: seq<Item>, running: int, called: set<int>, waits: multiset<int>)
    requires Stands(After(e), queue, running, called, waits)
    ensures Stands(After(e + [Made(Resume)]), queue, Lowered(running), called, waits)
    ensures Stands(After(e + [Made(Suspend)]), queue, running + 1, called, waits)
    ensures Stands(After(e + [Made(Call)]), queue, running, called, waits)
  {
    AfterMore(e, Made(Resume));
    AfterMore(e, Made(Suspend));
    AfterMore(e, Made(Call));
    hide After;
  }

  lemma BeginsStands(e: seq<Event>, queue: seq<Item>, running: int, called: set<int>, waits: multiset<int>, cb: int)
    requires Stands(After(e), queue, running, called, waits)
    ensures Stands(After(e + [Made(Begins(cb))]), queue, running, called + {cb}, waits)
  {
    AfterMore(e, Made(Begins(cb)));
    hide After;
  }

  lemma TakeStands(e: seq<Event>, queue: seq<Item>, called: set<int>, waits: multiset<int>)
    requires Ready(After(e)) && Stands(After(e), queue, 0, called, waits)
    ensures queue != [] && Stands(After(e + [Takes(queue[0])]), [], 1, called, waits)
    ensures After(e + [Takes(queue[0])]).open == [Opened(queue[0], queue[1..])] + After(e).open
  {
    TakesIs(e, queue[0]);
    hide After;
  }

  /** How an item ends, and what is then waited for. */
  predicate Closes(item: Item, end: Event, result: Option<int>) {
    match item
    case Run(_) => end == Returns(result)
    case Wait(cb) => end == Waits(cb) && result == Some(cb)
    case Spent(_) => end == Passes && result == None
  }

  lemma ClosesIs(item: Item, result: Option<int>)
    ensures item.Run? ==> Closes(item, Returns(result), result)
    ensures item.Wait? ==> Closes(item, Waits(item.cb), Some(item.cb)) && EndOf(item) == Waits(item.cb)
    ensures item.Spent? ==> Closes(item, Passes, None) && EndOf(item) == Passes
  {
  }

  lemma CloseStands(e: seq<Event>, queue: seq<Item>, running: int, called: set<int>, waits: multiset<int>, item: Item,
      rest: seq<Item>, result: Option<int>, end: Event)
    requires Stands(After(e), queue, running, called, waits) && Lawful(e)
    requires After(e).open != [] && After(e).open[0] == Opened(item, rest) && Closes(item, end, result)
    ensures Lawful(e + [end])
    ensures Stands(After(e + [end]), rest + queue, Lowered(running), called, Awaited(called, waits, result))
  {
    AfterMore(e, end);
    LawfulMore(e, end);
    hide After, Lawful, Awaited, Lowered;
  }

  // ---------------------------------------------------------------- a nested start

  // ---------------------------------------------------------------- a nested start

  /** Two functions are pushed; the first one resumes the queue and pushes another. */
  const PROGRAM := [Push([Function(1), Function(3)])]
  const RESUMES := Behaviour([Resume, Push([Function(2)])], None)
  const IDLES := Behaviour([], None)

  const PUSHES := Made(Push([Function(1), Function(3)]))
  const PUSHES_MORE := Made(Push([Function(2)]))

  const NESTED: seq<Event> :=
    [PUSHES, Takes(Run(1)), Made(Resume), PUSHES_MORE, Takes(Run(2)), Returns(None), Returns(None)]

  lemma AfterNext(events: seq<Event>, n: nat)
    requires n < |events|
    ensures events[..n + 1] == events[..n] + [events[n]]
    ensures After(events[..n + 1]) == Step(After(events[..n]), events[n])
  {
    hide Step, After;
    assert events[..n + 1] == events[..n] + [events[n]];
    AfterMore(events[..n], events[n]);
  }

  lemma Pushing(called: set<int>)
    ensures ItemsOf([Function(1), Function(3)], called) == [Run(1), Run(3)]
      && ItemsOf([Function(2)], called) == [Run(2)]
  {
  }

  /** The queue up to the start of the first one. */
  lemma FirstStates()
    ensures After(NESTED[..0]) == NEW
    ensures After(NESTED[..1]) == NEW.(pushed := [Run(1), Run(3)], queue := [Run(1), Run(3)])
    ensures After(NESTED[..2]) == After(NESTED[..1]).(
      log := [Start(Run(1), false)], open := [Opened(Run(1), [Run(3)])], queue := [], running := 1)
    ensures After(NESTED[..3]) == After(NESTED[..2]).(running := 0)
  {
    assert After(NESTED[..0]) == NEW;
    hide After, ItemsOf;
    Pushing({});
    AfterNext(NESTED, 0);
    AfterNext(NESTED, 1);
    AfterNext(NESTED, 2);
  }

  /** The second one, inside it. */
  lemma SecondStates()
    ensures After(NESTED[..4]) == After(NESTED[..3]).(pushed := [Run(1), Run(3), Run(2)], queue := [Run(2)])
    ensures After(NESTED[..5]) == After(NESTED[..4]).(
      log := [Start(Run(1), false), Start(Run(2), true)],
      open := [Opened(Run(2), []), Opened(Run(1), [Run(3)])], queue := [], running := 1)
  {
    FirstStates();
    hide After, ItemsOf;
    Pushing({});
    AfterNext(NESTED, 3);
    AfterNext(NESTED, 4);
    assert [Run(2)][1..] == [] && [Opened(Run(2), [])] + [Opened(Run(1), [Run(3)])]
      == [Opened(Run(2), []), Opened(Run(1), [Run(3)])];
    assert [Start(Run(1), false)] + [Start(Run(2), true)] == [Start(Run(1), false), Start(Run(2), true)];
  }

  lemma LastStates()
    ensures After(NESTED[..6]) == After(NESTED[..5]).(open := [Opened(Run(1), [Run(3)])], running := 0)
    ensures After(NESTED[..7]) == After(NESTED[..6]).(open := [], queue := [Run(3)])
  {
    FirstStates();
    SecondStates();
    hide After;
    AfterNext(NESTED, 5);
    AfterNext(NESTED, 6);
  }

  /** The function pushed inside the first one starts inside it, and before the one that was pushed earlier. */
  lemma NestedStart()
    ensures AfterOps([], PROGRAM, [RESUMES, IDLES]) == Played(NESTED, [], false)
    ensures After(NESTED).log == [Start(Run(1), false), Start(Run(2), true)]
    ensures After(NESTED).pushed == [Run(1), Run(3), Run(2)] && After(NESTED).queue == [Run(3)]
  {
    hide *;
    NestedRun();
    NestedEnds();
  }

  lemma NestedEnds()
    ensures After(NESTED).log == [Start(Run(1), false), Start(Run(2), true)]
    ensures After(NESTED).pushed == [Run(1), Run(3), Run(2)] && After(NESTED).queue == [Run(3)]
  {
    assert NESTED[..7] == NESTED;
    FirstStates();
    SecondStates();
    LastStates();
    hide After;
  }

  lemma NestedRun()
    ensures AfterOps([], PROGRAM, [RESUMES, IDLES]) == Played(NESTED, [], false)
  {
    var two := [RESUMES, IDLES];
    assert PROGRAM[1..] == [] && Made(PROGRAM[0]) == NESTED[0] && PROGRAM[0].Push?;
    assert NESTED[..7] == NESTED && |NESTED| == 7 && NESTED[..0] == [];
    hide *;
    OuterRun();
    AfterNext(NESTED, 0);
    GoesIs(After([]), PROGRAM[0]);
    OpsUnfolds([], PROGRAM, two);
    OpUnfolds([], PROGRAM[0], two);
  }

  /** The first one, until the third would start. */
  lemma OuterRun()
    ensures AfterProcess(NESTED[..1], [RESUMES, IDLES]) == Played(NESTED[..7], [], false)
  {
    NestedReady();
    var two := [RESUMES, IDLES];
    assert two[0] == RESUMES && two[1..] == [IDLES] && RESUMES.result == None && |NESTED| == 7;
    assert NESTED[1] == Takes(Run(1)) && NESTED[6] == Returns(None);
    hide *;
    InnerRun();
    AfterNext(NESTED, 1);
    AfterNext(NESTED, 6);
    ProcessUnfolds(NESTED[..1], two);
    ProcessUnfolds(NESTED[..7], []);
  }

  lemma NestedReady()
    ensures Ready(After(NESTED[..1])) && After(NESTED[..1]).queue[0] == Run(1)
    ensures Ready(After(NESTED[..4])) && After(NESTED[..4]).queue[0] == Run(2)
    ensures !Ready(After(NESTED[..6])) && Ready(After(NESTED[..7])) && After(NESTED[..7]).queue[0] == Run(3)
  {
    FirstStates();
    SecondStates();
    LastStates();
    hide After;
  }

  /** The calls of the first one. */
  lemma InnerRun()
    ensures AfterOps(NESTED[..2], RESUMES.ops, [IDLES]) == Played(NESTED[..6], [], true)
  {
    var ops, one := RESUMES.ops, [IDLES];
    assert ops == [Resume, Push([Function(2)])] && |NESTED| == 7;
    assert ops[1..] == [Push([Function(2)])] && ops[1..][1..] == [];
    assert NESTED[2] == Made(Resume) && NESTED[3] == Made(Push([Function(2)]));
    hide *;
    SecondRun();
    AfterNext(NESTED, 2);
    AfterNext(NESTED, 3);
    GoesIs(After(NESTED[..2]), Resume);
    GoesIs(After(NESTED[..3]), Push([Function(2)]));
    OpsUnfolds(NESTED[..2], ops, one);
    OpUnfolds(NESTED[..2], Resume, one);
    OpsUnfolds(NESTED[..3], ops[1..], one);
    OpUnfolds(NESTED[..3], Push([Function(2)]), one);
    OpsUnfolds(NESTED[..6], [], []);
  }

  /** The second one, which makes no calls. */
  lemma SecondRun()
    ensures AfterProcess(NESTED[..4], [IDLES]) == Played(NESTED[..6], [], true)
  {
    NestedReady();
    var one := [IDLES];
    assert IDLES.ops == [] && IDLES.result == None && |NESTED| == 7 && one[0] == IDLES && one[1..] == [];
    assert NESTED[4] == Takes(Run(2)) && NESTED[5] == Returns(None);
    hide *;
    AfterNext(NESTED, 4);
    AfterNext(NESTED, 5);
    ProcessUnfolds(NESTED[..4], one);
    OpsUnfolds(NESTED[..5], [], []);
    ProcessUnfolds(NESTED[..6], []);
  }
}
