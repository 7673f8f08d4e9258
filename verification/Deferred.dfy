/** `jQuery.Deferred`: two `once memory` callback lists, for `done` and for `fail`, whose first
    three functions set the state, disable the other list and lock the progress list.

    The calls made on the object, by the program and by the handlers it calls, are recorded in
    order as a history; everything the object does is determined by that history. */
module Deferred {
  import opened Collections
  import opened Callbacks

  datatype Side = Done | Fail {
    function Other(): Side {
      if Done? then Fail else Done
    }
  }

  datatype State = Pending | Resolved | Rejected

  /** `done`/`fail` registers a handler, `resolve`/`reject` settles. */
  datatype Request = Register(side: Side, id: nat) | Settle(side: Side, args: int)

  /** The functions found in the lists: handlers of the program and the three of `Deferred`. */
  datatype Handler = User(id: nat) | SetState | DisableOther | LockProgress

  datatype Call = Call(side: Side, id: nat, args: int)

  datatype Settlement = Settlement(side: Side, args: int)

  // ---------------------------------------------------------------- what a history means

  function SettledBy(history: seq<Request>): Option<Settlement> {
    if history == [] then None
    else
      var (before, last) := (SettledBy(history[..|history| - 1]), history[|history| - 1]);
      if before.Some? then before
      else if last.Settle? then Some(Settlement(last.side, last.args))
      else None
  }

  function Registered(history: seq<Request>, side: Side): seq<nat> {
    if history == [] then []
    else
      var last := history[|history| - 1];
      Registered(history[..|history| - 1], side) + (if last.Register? && last.side == side then [last.id] else [])
  }

  function CallsFor(side: Side, ids: seq<nat>, args: int): (calls: seq<Call>)
    ensures |calls| == |ids|
    ensures forall i :: 0 <= i < |ids| ==> calls[i] == Call(side, ids[i], args)
  {
    seq(|ids|, i requires 0 <= i < |ids| => Call(side, ids[i], args))
  }

  /** All handlers of the settled side, once each, in the order of registration, with the arguments
      of the settlement; none of the other side, and none at all while pending. */
  function Expected(history: seq<Request>): seq<Call> {
    match SettledBy(history)
    case None => []
    case Some(s) => CallsFor(s.side, Registered(history, s.side), s.args)
  }

  /** What a request leads to: the history with the requests of the handlers called, the handlers' scripts
      not used, and whether all handlers due have been called. */
  datatype Answer = Answer(history: seq<Request>, rest: seq<seq<Request>>, finished: bool)

  /** With `made` calls made: as long as handlers are due, the next one is called and makes its requests. */
  function Answered(history: seq<Request>, made: nat, script: seq<seq<Request>>): Answer
    decreases |script|
  {
    if made >= |Expected(history)| then Answer(history, script, true)
    else if script == [] then Answer(history, script, false)
    else Answered(history + script[0], made + 1, script[1..])
  }

  /** A program: each request, with what it leads to, before the next. */
  function AnswerAll(history: seq<Request>, program: seq<Request>, script: seq<seq<Request>>): Answer
    decreases |program|
  {
    if program == [] then Answer(history, script, true)
    else
      var a := Answered(history + [program[0]], |Expected(history)|, script);
      if !a.finished then a else AnswerAll(a.history, program[1..], a.rest)
  }

  /** The first settlement in a history is the one that counts, and it counts for ever. */
  lemma {:induction false} FirstSettlementCounts(history: seq<Request>)
    ensures SettledBy(history).None? <==> forall i :: 0 <= i < |history| ==> history[i].Register?
    ensures forall i :: (0 <= i < |history| && history[i].Settle?
      && (forall j :: 0 <= j < i ==> history[j].Register?)) ==>
              SettledBy(history) == Some(Settlement(history[i].side, history[i].args))
  {
    if history != [] {
      var before := history[..|history| - 1];
      FirstSettlementCounts(before);
      assert forall i :: 0 <= i < |before| ==> before[i] == history[i];
      if SettledBy(before).None? {
        assert forall i :: 0 <= i < |before| ==> history[i].Register?;
      }
    }
  }

  lemma {:induction false} SettledForEver(history: seq<Request>, more: seq<Request>)
    requires SettledBy(history).Some?
    ensures SettledBy(history + more) == SettledBy(history)
    ensures Expected(history) <= Expected(history + more)
  {
    if more == [] {
      assert history + more == history;
    } else {
      assert (history + more)[..|history + more| - 1] == history + more[..|more| - 1];
      SettledForEver(history, more[..|more| - 1]);
    }
  }

  // ---------------------------------------------------------------- the object

  function Fns(es: seq<Entry<Handler>>): (fs: seq<Handler>)
    ensures |fs| == |es| && forall i :: 0 <= i < |es| ==> fs[i] == es[i].fn
  {
    seq(|es|, i requires 0 <= i < |es| => es[i].fn)
  }

  function Users(ids: seq<nat>): (fs: seq<Handler>)
    ensures |fs| == |ids| && forall i :: 0 <= i < |ids| ==> fs[i] == User(ids[i])
  {
    seq(|ids|, i requires 0 <= i < |ids| => User(ids[i]))
  }

  const INTERNALS: seq<Handler> := [SetState, DisableOther, LockProgress]

  /** What a list has left to call: its last `left` internal functions, then the handlers `ids`. */
  function Due(left: nat, ids: seq<nat>): seq<Handler>
    requires left <= 3
  {
    if left == 0 then Users(ids) else [INTERNALS[3 - left]] + Due(left - 1, ids)
  }

  lemma Appended(history: seq<Request>, r: Request)
    ensures SettledBy(history + [r]) == if SettledBy(history).Some? then SettledBy(history)
                                        else if r.Settle? then Some(Settlement(r.side, r.args)) else None
    ensures forall side :: Registered(history + [r], side)
              == Registered(history, side) + if r.Register? && r.side == side then [r.id] else []
  {
    assert (history + [r])[..|history|] == history;
  }

  lemma SettleExpected(history: seq<Request>, side: Side, args: int)
    ensures var h := history + [Settle(side, args)];
      && (SettledBy(history).Some? ==> SettledBy(h) == SettledBy(history) && Expected(h) == Expected(history))
      && (SettledBy(history).None? ==> SettledBy(h) == Some(Settlement(side, args)) && Expected(history) == [])
      && (SettledBy(history).None? ==> [] + CallsFor(side, Registered(h, side), args) == Expected(h))
      && (forall s :: Registered(h, s) == Registered(history, s))
  {
    Appended(history, Settle(side, args));
    forall s ensures Registered(history + [Settle(side, args)], s) == Registered(history, s) {
      assert Registered(history, s) + [] == Registered(history, s);
    }
  }

  lemma FnsPush(es: seq<Entry<Handler>>, id: nat, n: nat)
    ensures Fns(es + Stamp([User(id)], n)) == Fns(es) + [User(id)]
    ensures [] + Stamp([User(id)], n) == Stamp([User(id)], n)
  {
  }

  lemma UsersPush(ids: seq<nat>, id: nat)
    ensures INTERNALS + Users(ids + [id]) == INTERNALS + Users(ids) + [User(id)]
    ensures Users(ids + []) == Users(ids)
  {
    assert ids + [] == ids;
  }

  lemma TakeCall(side: Side, ids: seq<nat>, args: int, calls: seq<Call>)
    requires ids != []
    ensures calls + CallsFor(side, ids, args) == calls + [Call(side, ids[0], args)] + CallsFor(side, ids[1..], args)
  {
  }

  lemma RegisterExpected(history: seq<Request>, id: nat, side: Side, args: int, calls: seq<Call>, ids: seq<nat>)
    requires SettledBy(history) == Some(Settlement(side, args))
    requires calls + CallsFor(side, ids, args) == Expected(history)
    ensures SettledBy(history + [Register(side, id)]) == Some(Settlement(side, args))
    ensures calls + CallsFor(side, ids + [id], args) == Expected(history + [Register(side, id)])
  {
    assert (history + [Register(side, id)])[..|history|] == history;
    assert CallsFor(side, ids + [id], args) == CallsFor(side, ids, args) + [Call(side, id, args)];
  }

  lemma DueLater(w: Work<Handler>, id: nat, ids: seq<nat>)
    requires Fns(w.todo) == Due(0, ids)
    ensures Fns(AddTo(w, [User(id)]).todo) == Due(0, ids + [id])
  {
    assert Stamp([User(id)], w.next) == [Entry(User(id), w.next)];
  }

  class Deferred {
    const done: Callbacks<Handler>
    const fail: Callbacks<Handler>
    var state: State
    var progressLocked: bool
    var calls: seq<Call>                // every call of a handler, in order
    ghost var history: seq<Request>

    function List(side: Side): Callbacks<Handler> {
      if side.Done? then done else fail
    }

    ghost predicate Shape()
    {
      done != fail && done.once && fail.once && done.keepsMemory && fail.keepsMemory
    }

    /** A list of a pending object: the three internal functions, then the handlers registered. */
    ghost predicate Waiting(side: Side)
      reads this, List(side)
    {
      var l := List(side);
      && l.Valid() && !l.firing && !l.fired && l.memory == None && l.list.Some?
      && Fns(l.list.value) == INTERNALS + Users(Registered(history, side))
    }

    /** The lists of a settled object; `due` is the length of the settled side's list. */
    ghost predicate Over(side: Side, args: int, due: nat)
      reads this, done, fail
    {
      var l, o := List(side), List(side.Other());
      && l.Ready() && l.firingStart == 0 && !l.firing && l.fired && l.memory == Some(args)
      && l.list.Some? && |l.list.value| == due
      && o.Valid() && !o.firing && o.list == None
      && state == (if side.Done? then Resolved else Rejected)
    }

    /** The invariant while no handler is running. */
    ghost predicate Valid()
      reads this, done, fail
    {
      && Shape()
      && calls == Expected(history)
      && match SettledBy(history)
         case None => state == Pending && Waiting(Done) && Waiting(Fail)
         case Some(s) => Over(s.side, s.args, 0)
    }

    constructor ()
      ensures Valid() && history == [] && fresh(done) && fresh(fail)
    {
      done := new Callbacks<Handler>(true, true);
      fail := new Callbacks<Handler>(true, true);
      state, progressLocked, calls, history := Pending, false, [], [];
      new;
      Install(done);
      Install(fail);
    }

    /** Puts the internal functions in a new list. */
    static method Install(l: Callbacks<Handler>)
      requires l.Valid() && l.list == Some([]) && !l.firing && l.memory == None && !l.fired
      modifies l
      ensures l.Valid() && !l.firing && !l.fired && l.memory == None && l.list.Some?
      ensures Fns(l.list.value) == INTERNALS + Users([])
    {
      var _ := l.Push(INTERNALS);
    }

    static ghost predicate Idle(l: Callbacks<Handler>)
      reads l
    {
      !l.firing && l.firingStart == 0 && l.stack.None?
    }

    /** The handlers of `side` are being called; `w` is the worklist of its list, the first `left`
        entries due are internal functions, and `ids` are the handlers due after them. */
    ghost predicate Calling(side: Side, args: int, w: Work<Handler>, left: nat, ids: seq<nat>)
      reads this, done, fail
    {
      && Shape() && left <= 3
      && SettledBy(history) == Some(Settlement(side, args))
      && calls + CallsFor(side, ids, args) == Expected(history)
      && Fns(w.todo) == Due(left, ids)
      && List(side).memory == Some(args)
      && Idle(List(side.Other()))
      && (left <= 2 ==> state == if side.Done? then Resolved else Rejected)
      && (left <= 1 ==> List(side.Other()).list == None)
    }

    /** A handler of `side` is running and has not changed the lists yet. */
    ghost predicate InHandler(side: Side, args: int, w: Work<Handler>, ids: seq<nat>)
      reads this, done, fail
    {
      Calling(side, args, w, 0, ids) && List(side).Running(w) && List(side).fired
    }

    method RegisterHere(id: nat, side: Side, args: int, ghost w: Work<Handler>, ghost ids: seq<nat>)
      requires InHandler(side, args, w, ids)
      modifies this`history, List(side)
      ensures InHandler(side, args, AddTo(w, [User(id)]), ids + [id])
      ensures history == old(history) + [Register(side, id)]
    {
      hide Callbacks<Handler>.Running, SettledBy, Expected, CallsFor, Due, Fns, AddTo, Calling, InHandler;
      InHandlerIs(side, args, w, ids);
      RegisterExpected(history, id, side, args, calls, ids);
      DueLater(w, id, ids);
      history := history + [Register(side, id)];
      List(side).PushInside([User(id)], w);
      InHandlerIs(side, args, AddTo(w, [User(id)]), ids + [id]);
    }

    /** What a handler cannot change by registering another one. */
    ghost predicate Settling(side: Side, args: int)
      reads this`state, List(side)`memory, List(side)`fired, List(side.Other())
    {
      && Shape() && List(side).memory == Some(args) && List(side).fired
      && Idle(List(side.Other())) && List(side.Other()).list == None
      && state == if side.Done? then Resolved else Rejected
    }

    lemma InHandlerIs(side: Side, args: int, w: Work<Handler>, ids: seq<nat>)
      ensures InHandler(side, args, w, ids) <==>
        && Settling(side, args) && List(side).Running(w)
        && SettledBy(history) == Some(Settlement(side, args)) && calls + CallsFor(side, ids, args) == Expected(history)
        && Fns(w.todo) == Due(0, ids)
      ensures Settling(side, args) ==> List(side) != List(side.Other())
    {
      hide Callbacks<Handler>.Running, SettledBy, Expected, CallsFor, Due, Fns;
    }

    method RegisterThere(id: nat, side: Side, args: int, ghost w: Work<Handler>, ghost ids: seq<nat>)
      requires InHandler(side, args, w, ids)
      modifies this`history, List(side.Other())
      ensures InHandler(side, args, w, ids)
      ensures history == old(history) + [Register(side.Other(), id)]
    {
      var o := List(side.Other());
      history := history + [Register(side.Other(), id)];
      assert history[..|history| - 1] == old(history);
      var _ := o.Push([User(id)]);
    }

    method SettleAgain(again: Side, a: int, side: Side, args: int, ghost w: Work<Handler>, ghost ids: seq<nat>)
      requires InHandler(side, args, w, ids)
      modifies this`history, List(again)`stack
      ensures InHandler(side, args, w, ids)
      ensures history == old(history) + [Settle(again, a)]
    {
      history := history + [Settle(again, a)];
      assert history[..|history| - 1] == old(history);
      var starts := List(again).Request(a);
      assert !starts;
    }

    /** The requests a running handler makes, one after the other. */
    method PerformEach(ops: seq<Request>, side: Side, args: int, ghost w: Work<Handler>, ghost ids: seq<nat>)
      returns (ghost w': Work<Handler>, ghost ids': seq<nat>)
      requires InHandler(side, args, w, ids)
      modifies this`history, done, fail
      ensures InHandler(side, args, w', ids') && history == old(history) + ops
    {
      hide Callbacks<Handler>.Running, Calling;
      w', ids' := w, ids;
      var i := 0;
      while i < |ops|
        invariant i <= |ops| && InHandler(side, args, w', ids') && history == old(history) + ops[..i]
      {
        match ops[i] {
          case Register(s, id) =>
            if s == side {
              RegisterHere(id, side, args, w', ids');
              w', ids' := AddTo(w', [User(id)]), ids' + [id];
            } else {
              RegisterThere(id, side, args, w', ids');
            }
          case Settle(s, a) => SettleAgain(s, a, side, args, w', ids');
        }
        i := i + 1;
      }
    }

    /** The loop of `fire` is before a call; `left` and `ids` describe what is due. */
    ghost predicate BeforeCall(side: Side, args: int, w: Work<Handler>, left: nat, ids: seq<nat>)
      reads this, done, fail
    {
      List(side).AtHead(w) && Calling(side, args, w, left, ids)
    }

    method CallInternal(h: Handler, side: Side, args: int, ghost w: Work<Handler>, ghost left: nat, ghost ids: seq<nat>)
      requires BeforeCall(side, args, w, left, ids) && left > 0 && w.todo != [] && h == w.todo[0].fn
      modifies this`state, this`progressLocked, List(side)`firingIndex, List(side.Other())
      ensures BeforeCall(side, args, CallFirst(w), left - 1, ids)
    {
      hide Callbacks<Handler>.AtHead, Callbacks<Handler>.Running, SettledBy, Expected, CallsFor, Due, Fns;
      List(side).HeadRuns(w);
      DueNext(w, left, ids);
      match h {
        case SetState => state := if side.Done? then Resolved else Rejected;
        case DisableOther => List(side.Other()).Disable();
        case LockProgress => progressLocked := true;
      }
      List(side).Advance(CallFirst(w));
    }

    method CallUser(h: Handler, ops: seq<Request>, side: Side, args: int, ghost w: Work<Handler>, ghost ids: seq<nat>)
      returns (ghost w': Work<Handler>, ghost ids': seq<nat>)
      requires BeforeCall(side, args, w, 0, ids) && w.todo != [] && h == w.todo[0].fn && h.User?
      modifies this`calls, this`history, done, fail
      ensures BeforeCall(side, args, w', 0, ids') && history == old(history) + ops
      ensures calls == old(calls) + [Call(side, h.id, args)]
    {
      hide Callbacks<Handler>.AtHead, Callbacks<Handler>.Running, SettledBy, Expected;
      List(side).HeadRuns(w);
      DueNext(w, 0, ids);
      TakeCall(side, ids, args, calls);
      calls := calls + [Call(side, h.id, args)];
      assert InHandler(side, args, CallFirst(w), ids[1..]);
      w', ids' := PerformEach(ops, side, args, CallFirst(w), ids[1..]);
      List(side).Advance(w');
    }

    /** The loop of `fire`. It ends when every handler due has been called, or when the next handler
        of the program has no script any more. */
    method CallAll(script: seq<seq<Request>>, side: Side, args: int, ghost w: Work<Handler>, ghost left: nat,
        ghost ids: seq<nat>)
      returns (n: nat, finished: bool, ghost w': Work<Handler>)
      requires BeforeCall(side, args, w, left, ids)
      modifies this, done, fail
      ensures n <= |script| && history == old(history) + Flatten(script[..n])
      ensures finished ==> w'.todo == [] && BeforeCall(side, args, w', 0, [])
      ensures !finished ==> n == |script|
      ensures calls <= Expected(history)
      ensures Answered(old(history), |old(calls)|, script) == Answer(history, script[n..], finished)
    {
      hide BeforeCall, Expected, Answered;
      var l := List(side);
      ghost var due, more := left, ids;
      n, w' := 0, w;
      NextCall(side, args, w', due, more);
      while l.HasNext() && (l.Current().fn.User? ==> n < |script|)
        invariant BeforeCall(side, args, w', due, more)
        invariant l.HasNext() <==> w'.todo != []
        invariant w'.todo != [] ==> l.list.Some? && 0 <= l.firingIndex < |l.list.value| && l.Current() == w'.todo[0]
        invariant n <= |script| && history == old(history) + Flatten(script[..n])
        invariant Answered(history, |calls|, script[n..]) == Answered(old(history), |old(calls)|, script)
        decreases due, |script| - n
      {
        NextCall(side, args, w', due, more);
        var h := l.Current().fn;
        if h.User? {
          FlattenNext(script, n);
          AnswerStep(history, |calls|, script, n);
          w', more := CallUser(h, script[n], side, args, w', more);
          n := n + 1;
        } else {
          CallInternal(h, side, args, w', due, more);
          w', due := CallFirst(w'), due - 1;
        }
        NextCall(side, args, w', due, more);
      }
      finished := !l.HasNext();
      NextCall(side, args, w', due, more);
      AnswerEnd(history, |calls|, script[n..]);
    }

    /** What stands before the cursor is the next call due. */
    lemma NextCall(side: Side, args: int, w: Work<Handler>, left: nat, ids: seq<nat>)
      requires BeforeCall(side, args, w, left, ids)
      ensures List(side).HasNext() <==> w.todo != []
      ensures w.todo != [] ==>
        List(side).list.Some? && 0 <= List(side).firingIndex < |List(side).list.value|
          && List(side).Current() == w.todo[0]
      ensures w.todo != [] ==> (w.todo[0].fn.User? <==> left == 0)
      ensures w.todo == [] ==> left == 0 && ids == [] && calls == Expected(history)
      ensures w.todo != [] && left == 0 ==> |calls| < |Expected(history)|
      ensures calls <= Expected(history)
    {
      List(side).HeadRuns(w);
      if w.todo == [] {
        NothingDue(w, left, ids);
      } else {
        DueNext(w, left, ids);
      }
    }

    /** A firing of one list from its first entry to its end. */
    method FireList(script: seq<seq<Request>>, side: Side, args: int, ghost left: nat, ghost ids: seq<nat>)
      returns (n: nat, finished: bool)
      requires Shape() && List(side).Valid() && !List(side).firing && List(side).list.Some?
      requires Idle(List(side.Other())) && left <= 3
      requires SettledBy(history) == Some(Settlement(side, args))
      requires calls + CallsFor(side, ids, args) == Expected(history)
      requires Fns(List(side).list.value) == Due(left, ids)
      requires left <= 2 ==> state == if side.Done? then Resolved else Rejected
      requires left <= 1 ==> List(side.Other()).list == None
      modifies this, done, fail
      ensures n <= |script| && history == old(history) + Flatten(script[..n])
      ensures if finished then Valid() else n == |script| && calls <= Expected(history)
      ensures Answered(old(history), |old(calls)|, script) == Answer(history, script[n..], finished)
    {
      hide Callbacks<Handler>.AtHead, Answered;
      var l := List(side);
      ghost var w := Begin([], l.list.value, [], l.registrations);
      assert l.list.value[..0] == [] && l.list.value[0..] == l.list.value;
      l.SetUp(args);
      assert l.AtHead(w);
      ghost var w';
      n, finished, w' := CallAll(script, side, args, w, left, ids);
      if finished {
        assert calls == Expected(history);
        l.AtHeadIsOnce(w');
        var _ := l.TearDown(w');
      }
    }

    // The three cases of one and the same push on the list of `side`: nothing has been settled yet,
    // the other side has, and this side has, so that the handler must be called at once.

    method PushWaiting(side: Side, id: nat)
      requires Valid() && SettledBy(history).None?
      modifies this`history, List(side)
      ensures history == old(history) + [Register(side, id)] && Valid()
    {
      hide Callbacks<Handler>.Valid, Callbacks<Handler>.Ready, Waiting, Registered, SettledBy, Expected, Users, Fns,
        Stamp;
      Appended(history, Register(side, id));
      UsersPush(Registered(history, side), id);
      UsersPush(Registered(history, side.Other()), id);
      PendingIs();
      WaitingIs(side);
      WaitingIs(side.Other());
      FnsPush(List(side).list.value, id, List(side).registrations);
      history := history + [Register(side, id)];
      var replay := List(side).Push([User(id)]);
      List(side).ReadyIsValid();
      PendingIs();
      WaitingIs(side);
      WaitingIs(side.Other());
    }

    lemma PendingIs()
      ensures SettledBy(history).None? ==>
        (Valid() <==> Shape() && calls == [] && state == Pending && Waiting(Done) && Waiting(Fail))
    {
      hide Waiting;
    }

    lemma WaitingIs(side: Side)
      ensures var l := List(side);
        Waiting(side) <==>
          && l.Valid() && !l.firing && !l.fired && l.memory == None && l.list.Some?
          && Fns(l.list.value) == INTERNALS + Users(Registered(history, side))
    {
      hide Callbacks<Handler>.Valid, Registered, Users, Fns;
    }

    method PushIgnored(side: Side, id: nat)
      requires Valid() && SettledBy(history).Some? && SettledBy(history).value.side != side
      modifies this`history, List(side)
      ensures history == old(history) + [Register(side, id)] && Valid()
    {
      Appended(history, Register(side, id));
      assert Registered(history + [Register(side, id)], side.Other()) == Registered(history, side.Other()) + [];
      hide Increasing, Below, Registered, SettledBy, Users, Fns;
      history := history + [Register(side, id)];
      var replay := List(side).Push([User(id)]);
      assert replay.None?;
    }

    method PushReplayed(side: Side, id: nat) returns (args: int)
      requires Valid() && SettledBy(history).Some? && SettledBy(history).value.side == side
      modifies this`history, List(side)
      ensures history == old(history) + [Register(side, id)]
      ensures SettledBy(history) == Some(Settlement(side, args))
        && calls + CallsFor(side, [id], args) == Expected(history)
      ensures Shape() && Over(side, args, 1) && List(side).list.value[0].fn == User(id)
    {
      RegisterExpected(history, id, side, SettledBy(history).value.args, calls, []);
      assert [] + Stamp([User(id)], List(side).registrations) == [Entry(User(id), List(side).registrations)];
      hide Increasing, Below, Expected, CallsFor, Registered, SettledBy, Users, Fns, Due, Stamp;
      history := history + [Register(side, id)];
      var replay := List(side).Push([User(id)]);
      args := replay.value;
    }

    /** `done` or `fail`: on a settled object of that side the handler is called at once. */
    method RegisterHandler(side: Side, id: nat, script: seq<seq<Request>>) returns (n: nat, finished: bool)
      requires Valid()
      modifies this, done, fail
      ensures n <= |script| && history == old(history) + [Register(side, id)] + Flatten(script[..n])
      ensures if finished then Valid() else n == |script| && calls <= Expected(history)
      ensures Answered(old(history) + [Register(side, id)], |old(calls)|, script)
        == Answer(history, script[n..], finished)
    {
      hide Expected, Registered, Answered;
      n, finished := 0, true;
      if state == Pending {
        PushWaiting(side, id);
      } else if state != (if side.Done? then Resolved else Rejected) {
        PushIgnored(side, id);
      } else {
        n, finished := Replay(side, id, script);
        return;
      }
      CallsExpected();
      AnswerEnd(history, |calls|, script);
    }

    /** A handler of the side that was settled is called at once. */
    method Replay(side: Side, id: nat, script: seq<seq<Request>>) returns (n: nat, finished: bool)
      requires Valid() && SettledBy(history).Some? && SettledBy(history).value.side == side
      modifies this, done, fail
      ensures n <= |script| && history == old(history) + [Register(side, id)] + Flatten(script[..n])
      ensures if finished then Valid() else n == |script| && calls <= Expected(history)
      ensures Answered(old(history) + [Register(side, id)], |old(calls)|, script)
        == Answer(history, script[n..], finished)
    {
      hide Expected, Registered, Answered, CallsFor;
      var args := PushReplayed(side, id);
      assert Fns(List(side).list.value) == [User(id)] == Due(0, [id]);
      n, finished := FireList(script, side, args, 0, [id]);
    }

    lemma CallsExpected()
      requires Valid()
      ensures calls == Expected(history)
    {
      hide Callbacks<Handler>.Valid, Callbacks<Handler>.Ready, Expected, SettledBy;
    }

    /** `resolve` or `reject`: only the first call on the object has an effect. */
    method SettleNow(side: Side, args: int, script: seq<seq<Request>>) returns (n: nat, finished: bool)
      requires Valid()
      modifies this, done, fail
      ensures n <= |script| && history == old(history) + [Settle(side, args)] + Flatten(script[..n])
      ensures if finished then Valid() else n == |script| && calls <= Expected(history)
      ensures Answered(old(history) + [Settle(side, args)], |old(calls)|, script)
        == Answer(history, script[n..], finished)
      ensures old(state) != Pending ==> finished && state == old(state) && calls == old(calls)
    {
      SettleExpected(history, side, args);
      AllDue(Registered(history, side));
      hide Increasing, Below, Expected, CallsFor, Registered, SettledBy, Users, Fns, Due, Answered;
      history := history + [Settle(side, args)];
      n, finished := 0, true;
      var starts := List(side).Request(args);
      if starts {
        n, finished := FireList(script, side, args, 3, Registered(history, side));
      } else {
        CallsExpected();
        AnswerEnd(history, |calls|, script);
      }
    }

    /** A program that registers handlers and settles, with handlers that do the same while they are called.
        The history is that of the specification, and after every request with all it leads to, the calls
        made are those due from the history. The run stops where a handler has no script any more. */
    method RunProgram(program: seq<Request>, script: seq<seq<Request>>)
        returns (rest: seq<seq<Request>>, finished: bool)
      requires Valid()
      modifies this, done, fail
      ensures AnswerAll(old(history), program, script) == Answer(history, rest, finished)
      ensures if finished then Valid() && calls == Expected(history) else calls <= Expected(history)
    {
      rest, finished := script, true;
      var i := 0;
      assert program[0..] == program;
      hide *;
      CallsExpected();
      while i < |program|
        invariant i <= |program| && Valid() && calls == Expected(history) && finished
        invariant AnswerAll(history, program[i..], rest) == AnswerAll(old(history), program, script)
      {
        RunStep(history, program, i, rest);
        var n;
        match program[i] {
          case Register(side, id) => n, finished := RegisterHandler(side, id, rest);
          case Settle(side, args) => n, finished := SettleNow(side, args, rest);
        }
        rest := rest[n..];
        if !finished {
          return;
        }
        CallsExpected();
        i := i + 1;
      }
      RunEnd(history, rest);
    }
  }

  lemma RunStep(history: seq<Request>, program: seq<Request>, i: nat, script: seq<seq<Request>>)
    requires i < |program|
    ensures var a := Answered(history + [program[i]], |Expected(history)|, script);
      AnswerAll(history, program[i..], script) == if !a.finished then a
        else AnswerAll(a.history, program[i + 1..], a.rest)
  {
    hide Answered, Expected;
    assert program[i..][1..] == program[i + 1..];
  }

  lemma RunEnd(history: seq<Request>, script: seq<seq<Request>>)
    ensures AnswerAll(history, [], script) == Answer(history, script, true)
  {
  }

  lemma DueNext(w: Work<Handler>, left: nat, ids: seq<nat>)
    requires w.todo != [] && left <= 3 && Fns(w.todo) == Due(left, ids)
    ensures left > 0 ==> w.todo[0].fn == INTERNALS[3 - left] && Fns(w.todo[1..]) == Due(left - 1, ids)
    ensures left == 0 ==> ids != [] && w.todo[0].fn == User(ids[0]) && Fns(w.todo[1..]) == Users(ids[1..])
  {
    assert Fns(w.todo)[0] == w.todo[0].fn;
    assert Fns(w.todo[1..]) == Due(left, ids)[1..];
    assert left == 0 && ids != [] ==> Users(ids)[1..] == Users(ids[1..]);
  }

  lemma NothingDue(w: Work<Handler>, left: nat, ids: seq<nat>)
    requires w.todo == [] && left <= 3 && Fns(w.todo) == Due(left, ids)
    ensures left == 0 && ids == []
  {
    assert |Fns(w.todo)| == 0;
  }

  lemma AllDue(ids: seq<nat>)
    ensures INTERNALS + Users(ids) == Due(3, ids)
  {
    assert Due(1, ids) == [LockProgress] + Users(ids);
    assert Due(2, ids) == [DisableOther, LockProgress] + Users(ids);
  }

  lemma AnswerStep(history: seq<Request>, made: nat, script: seq<seq<Request>>, n: nat)
    requires made < |Expected(history)| && n < |script|
    ensures Answered(history, made, script[n..]) == Answered(history + script[n], made + 1, script[n + 1..])
  {
    assert script[n..][1..] == script[n + 1..];
  }

  lemma AnswerEnd(history: seq<Request>, made: nat, script: seq<seq<Request>>)
    ensures made == |Expected(history)| ==> Answered(history, made, script) == Answer(history, script, true)
    ensures made < |Expected(history)| && script == [] ==>
      Answered(history, made, script) == Answer(history, script, false)
  {
  }

  function Flatten(script: seq<seq<Request>>): seq<Request> {
    if script == [] then [] else Flatten(script[..|script| - 1]) + script[|script| - 1]
  }

  lemma FlattenNext(script: seq<seq<Request>>, n: nat)
    requires n < |script|
    ensures Flatten(script[..n + 1]) == Flatten(script[..n]) + script[n]
  {
    assert script[..n + 1][..n] == script[..n];
  }
}
