/** `jQuery.Callbacks`: a list of functions that is fired by a cursor while the functions being
    called add to it, remove from it and fire it again.

    A function is a value of `F`; each registration of it gets its own number, so two registrations
    of one function can be told apart. What the functions do is given by a script: `script[i]` lists
    the calls the i-th function invoked makes on the list before it returns. A script that runs out
    stands for the moment at which a longer run is looked at. */
module Callbacks {
  import opened Collections

  datatype Entry<F> = Entry(fn: F, reg: nat)

  datatype Op<F> = Add(fns: seq<F>) | Remove(fns: seq<F>) | Fire(args: int)

  // ---------------------------------------------------------------- the list without a cursor

  /** One firing as a worklist: what lies behind the cursor, what is still to be called, the
      firings asked for meanwhile; and the histories of this firing: the entries called, the
      entries removed before their turn, and all the entries that were ever due. */
  datatype Work<F> = Work(
    past: seq<Entry<F>>, todo: seq<Entry<F>>, queued: seq<int>, next: nat,
    called: seq<Entry<F>>, dropped: seq<Entry<F>>, scope: seq<Entry<F>>)

  function Stamp<F>(fns: seq<F>, next: nat): (es: seq<Entry<F>>)
    ensures |es| == |fns|
    ensures forall i :: 0 <= i < |es| ==> es[i] == Entry(fns[i], next + i)
  {
    if fns == [] then [] else [Entry(fns[0], next)] + Stamp(fns[1..], next + 1)
  }

  function Without<F(==)>(es: seq<Entry<F>>, fn: F): seq<Entry<F>> {
    if es == [] then []
    else (if es[0].fn == fn then [] else [es[0]]) + Without(es[1..], fn)
  }

  function Only<F(==)>(es: seq<Entry<F>>, fn: F): seq<Entry<F>> {
    if es == [] then []
    else (if es[0].fn == fn then [es[0]] else []) + Only(es[1..], fn)
  }

  function Begin<F>(past: seq<Entry<F>>, todo: seq<Entry<F>>, queued: seq<int>, next: nat): Work<F> {
    Work(past, todo, queued, next, [], [], todo)
  }

  function AddTo<F>(w: Work<F>, fns: seq<F>): Work<F> {
    var es := Stamp(fns, w.next);
    w.(todo := w.todo + es, scope := w.scope + es, next := w.next + |fns|)
  }

  function RemoveOne<F(==)>(w: Work<F>, fn: F): Work<F> {
    w.(past := Without(w.past, fn), todo := Without(w.todo, fn), dropped := w.dropped + Only(w.todo, fn))
  }

  function RemoveEach<F(==)>(w: Work<F>, fns: seq<F>): Work<F>
    decreases fns
  {
    if fns == [] then w else RemoveEach(RemoveOne(w, fns[0]), fns[1..])
  }

  /** `once` lists have no queue: firing them while they fire is ignored. */
  function Perform<F(==)>(w: Work<F>, op: Op<F>, once: bool): Work<F> {
    match op
    case Add(fns) => AddTo(w, fns)
    case Remove(fns) => RemoveEach(w, fns)
    case Fire(args) => if once then w else w.(queued := w.queued + [args])
  }

  function PerformAll<F(==)>(w: Work<F>, ops: seq<Op<F>>, once: bool): Work<F>
    decreases ops
  {
    if ops == [] then w else PerformAll(Perform(w, ops[0], once), ops[1..], once)
  }

  function CallFirst<F>(w: Work<F>): Work<F>
    requires w.todo != []
  {
    w.(past := w.past + [w.todo[0]], todo := w.todo[1..], called := w.called + [w.todo[0]])
  }

  /** One firing: call the first entry due, do what it does, go on. */
  function Pass<F(==)>(w: Work<F>, script: seq<seq<Op<F>>>, once: bool): (Work<F>, seq<seq<Op<F>>>)
    decreases |script|
  {
    if w.todo == [] || script == [] then (w, script)
    else Pass(PerformAll(CallFirst(w), script[0], once), script[1..], once)
  }

  // ---------------------------------------------------------------- what one firing does

  ghost predicate Increasing<F>(es: seq<Entry<F>>) {
    forall i, j :: 0 <= i < j < |es| ==> es[i].reg < es[j].reg
  }

  ghost predicate Below<F>(es: seq<Entry<F>>, bound: nat) {
    forall e :: e in es ==> e.reg < bound
  }

  ghost predicate Before<F>(a: seq<Entry<F>>, b: seq<Entry<F>>) {
    forall x, y :: x in a && y in b ==> x.reg < y.reg
  }

  ghost predicate WorkInv<F>(w: Work<F>) {
    && Increasing(w.todo) && Below(w.todo, w.next)
    && Increasing(w.called) && Below(w.called, w.next) && Before(w.called, w.todo)
    && Increasing(w.scope) && Below(w.scope, w.next)
    && multiset(w.scope) == multiset(w.called) + multiset(w.dropped) + multiset(w.todo)
  }

  lemma {:induction false} WithoutOnly<F>(es: seq<Entry<F>>, fn: F)
    ensures multiset(es) == multiset(Without(es, fn)) + multiset(Only(es, fn))
  {
    if es != [] {
      WithoutOnly(es[1..], fn);
      assert es == [es[0]] + es[1..];
    }
  }

  lemma {:induction false} WithoutWithin<F>(es: seq<Entry<F>>, fn: F)
    ensures forall e :: e in Without(es, fn) ==> e in es && e.fn != fn
    ensures forall e :: e in Only(es, fn) ==> e in es && e.fn == fn
  {
    if es != [] {
      WithoutWithin(es[1..], fn);
    }
  }

  lemma Glue<F>(a: seq<Entry<F>>, b: seq<Entry<F>>)
    requires Increasing(a) && Increasing(b) && Before(a, b)
    ensures Increasing(a + b)
  {
    forall i, j | 0 <= i < j < |a + b| ensures (a + b)[i].reg < (a + b)[j].reg {
      if i < |a| <= j {
        assert a[i] in a && b[j - |a|] in b;
      }
    }
  }

  lemma Unglue<F>(a: seq<Entry<F>>, b: seq<Entry<F>>)
    requires Increasing(a + b)
    ensures Increasing(a) && Increasing(b) && Before(a, b)
  {
    var ab := a + b;
    forall i, j | 0 <= i < j < |b| ensures b[i].reg < b[j].reg {
      assert ab[|a| + i] == b[i] && ab[|a| + j] == b[j];
    }
    forall i, j | 0 <= i < j < |a| ensures a[i].reg < a[j].reg {
      assert ab[i] == a[i] && ab[j] == a[j];
    }
    forall i, j | 0 <= i < |a| && 0 <= j < |b| ensures a[i].reg < b[j].reg {
      assert ab[i] == a[i] && ab[|a| + j] == b[j];
    }
  }

  lemma {:induction false} WithoutIncreasing<F>(es: seq<Entry<F>>, fn: F)
    requires Increasing(es)
    ensures Increasing(Without(es, fn))
  {
    if es != [] {
      assert es == [es[0]] + es[1..];
      Unglue([es[0]], es[1..]);
      WithoutOnly(es[1..], fn);
      WithoutIncreasing(es[1..], fn);
      WithoutWithin(es[1..], fn);
      Glue([es[0]], Without(es[1..], fn));
    }
  }

  lemma AddKeeps<F>(w: Work<F>, fns: seq<F>)
    requires WorkInv(w)
    ensures WorkInv(AddTo(w, fns))
  {
    var es := Stamp(fns, w.next);
    StampInOrder(fns, w.next);
    hide Increasing, Below, Before, Stamp;
    GlueBelow(w.todo, es, w.next, w.next + |fns|);
    GlueBelow(w.scope, es, w.next, w.next + |fns|);
    BeforeMore(w.called, w.todo, es, w.next, w.next + |fns|);
    MoreInScope(w.scope, w.called, w.dropped, w.todo, es);
  }

  ghost predicate Between<F>(es: seq<Entry<F>>, low: nat, bound: nat) {
    forall e :: e in es ==> low <= e.reg < bound
  }

  lemma StampInOrder<F>(fns: seq<F>, next: nat)
    ensures Increasing(Stamp(fns, next)) && Between(Stamp(fns, next), next, next + |fns|)
  {
  }

  lemma GlueBelow<F>(a: seq<Entry<F>>, b: seq<Entry<F>>, mid: nat, bound: nat)
    requires Increasing(a) && Increasing(b) && Below(a, mid) && mid <= bound && Between(b, mid, bound)
    ensures Increasing(a + b) && Below(a + b, bound)
  {
    Glue(a, b);
  }

  lemma BeforeMore<F>(called: seq<Entry<F>>, todo: seq<Entry<F>>, es: seq<Entry<F>>, mid: nat, bound: nat)
    requires Before(called, todo) && Below(called, mid) && mid <= bound && Between(es, mid, bound)
    ensures Before(called, todo + es) && Below(called, bound)
  {
  }

  lemma MoreInScope<F>(scope: seq<Entry<F>>, called: seq<Entry<F>>, dropped: seq<Entry<F>>, todo: seq<Entry<F>>,
      es: seq<Entry<F>>)
    requires multiset(scope) == multiset(called) + multiset(dropped) + multiset(todo)
    ensures multiset(scope + es) == multiset(called) + multiset(dropped) + multiset(todo + es)
  {
  }

  lemma RemoveOneKeeps<F>(w: Work<F>, fn: F)
    requires WorkInv(w)
    ensures WorkInv(RemoveOne(w, fn))
  {
    WithoutOnly(w.todo, fn);
    WithoutWithin(w.todo, fn);
    WithoutIncreasing(w.todo, fn);
  }

  lemma {:induction false} RemoveEachKeeps<F>(w: Work<F>, fns: seq<F>)
    requires WorkInv(w)
    ensures WorkInv(RemoveEach(w, fns))
    ensures RemoveEach(w, fns).scope == w.scope && RemoveEach(w, fns).called == w.called
    ensures w.dropped <= RemoveEach(w, fns).dropped && RemoveEach(w, fns).next == w.next
    decreases fns
  {
    if fns != [] {
      RemoveOneKeeps(w, fns[0]);
      RemoveEachKeeps(RemoveOne(w, fns[0]), fns[1..]);
    }
  }

  /** What happens while one function runs adds to what is due and never changes what was called. */
  lemma {:induction false} PerformAllKeeps<F>(w: Work<F>, ops: seq<Op<F>>, once: bool)
    requires WorkInv(w)
    ensures WorkInv(PerformAll(w, ops, once))
    ensures var w' := PerformAll(w, ops, once);
      w.scope <= w'.scope && w'.called == w.called && w.dropped <= w'.dropped && w.next <= w'.next
    decreases ops
  {
    if ops != [] {
      PerformAllUnfolds(w, ops, once);
      hide *;
      PerformKeeps(w, ops[0], once);
      PerformAllKeeps(Perform(w, ops[0], once), ops[1..], once);
    }
  }

  lemma PerformKeeps<F>(w: Work<F>, op: Op<F>, once: bool)
    requires WorkInv(w)
    ensures WorkInv(Perform(w, op, once))
    ensures var w' := Perform(w, op, once);
      w.scope <= w'.scope && w'.called == w.called && w.dropped <= w'.dropped && w.next <= w'.next
  {
    match op {
      case Add(fns) => AddKeeps(w, fns);
      case Remove(fns) => RemoveEachKeeps(w, fns);
      case Fire(_) =>
    }
    hide Increasing, Below, Before;
  }

  lemma CallFirstKeeps<F>(w: Work<F>)
    requires WorkInv(w) && w.todo != []
    ensures WorkInv(CallFirst(w))
  {
    var x := w.todo[0];
    assert w.todo == [x] + w.todo[1..];
    Unglue([x], w.todo[1..]);
    Glue(w.called, [x]);
  }

  lemma {:induction false} RemoveEachCalls<F>(w: Work<F>, fns: seq<F>)
    ensures RemoveEach(w, fns).called == w.called
    decreases fns
  {
    if fns != [] {
      RemoveEachCalls(RemoveOne(w, fns[0]), fns[1..]);
    }
  }

  lemma {:induction false} PerformAllCalls<F>(w: Work<F>, ops: seq<Op<F>>, once: bool)
    ensures PerformAll(w, ops, once).called == w.called
    decreases ops
  {
    if ops != [] {
      if ops[0].Remove? {
        RemoveEachCalls(w, ops[0].fns);
      }
      PerformAllCalls(Perform(w, ops[0], once), ops[1..], once);
    }
  }

  lemma PassStepKeeps<F>(w: Work<F>, ops: seq<Op<F>>, once: bool)
    requires WorkInv(w) && w.todo != []
    ensures var w' := PerformAll(CallFirst(w), ops, once);
      WorkInv(w') && w.scope <= w'.scope && w.called <= w'.called && w.dropped <= w'.dropped
  {
    CallFirstKeeps(w);
    PerformAllKeeps(CallFirst(w), ops, once);
  }

  lemma {:induction false} PassKeeps<F>(w: Work<F>, script: seq<seq<Op<F>>>, once: bool)
    requires WorkInv(w)
    ensures var w' := Pass(w, script, once).0;
      WorkInv(w') && w.scope <= w'.scope && w.called <= w'.called && w.dropped <= w'.dropped
    decreases |script|
  {
    if w.todo != [] && script != [] {
      PassStepKeeps(w, script[0], once);
      PassKeeps(PerformAll(CallFirst(w), script[0], once), script[1..], once);
    }
  }

  lemma {:induction false} IncreasingUnique<F>(es: seq<Entry<F>>, e: Entry<F>)
    requires Increasing(es)
    ensures multiset(es)[e] == if e in es then 1 else 0
  {
    if es != [] {
      assert es == [es[0]] + es[1..];
      Unglue([es[0]], es[1..]);
      IncreasingUnique(es[1..], e);
    }
  }

  /** Functions are called in list order, and each entry that was due at the start or was added
      meanwhile is, exactly one of the three, called once, removed before its turn and never
      called, or still due when the script ends. */
  ghost predicate EachOnce<F>(w: Work<F>, due: seq<Entry<F>>) {
    && Increasing(w.called) && Before(w.called, w.todo)
    && due <= w.scope && Increasing(w.scope)
    && multiset(w.scope) == multiset(w.called) + multiset(w.dropped) + multiset(w.todo)
    && (forall e :: e in w.scope ==> multiset(w.called)[e] + multiset(w.dropped)[e] + multiset(w.todo)[e] == 1)
    && (w.todo == [] ==> forall e :: e in w.scope ==> (e in w.called <==> e !in w.dropped))
  }

  /** Re-entrant firing, whatever the functions called do to the list. */
  lemma EachDueEntryOnce<F>(list: seq<Entry<F>>, start: nat, queued: seq<int>, next: nat, script: seq<seq<Op<F>>>,
      once: bool)
    requires start <= |list| && Increasing(list) && Below(list, next)
    ensures EachOnce(Pass(Begin(list[..start], list[start..], queued, next), script, once).0, list[start..])
  {
    var w0 := Begin(list[..start], list[start..], queued, next);
    assert list == list[..start] + list[start..];
    Unglue(list[..start], list[start..]);
    assert WorkInv(w0);
    PassKeeps(w0, script, once);
    var w := Pass(w0, script, once).0;
    forall e | e in w.scope ensures multiset(w.called)[e] + multiset(w.dropped)[e] + multiset(w.todo)[e] == 1 {
      IncreasingUnique(w.scope, e);
    }
    forall e | e in w.scope && w.todo == [] ensures e in w.called <==> e !in w.dropped {
      IncreasingUnique(w.scope, e);
      assert multiset(w.called)[e] > 0 <==> e in w.called;
      assert multiset(w.dropped)[e] > 0 <==> e in w.dropped;
    }
  }

  // ---------------------------------------------------------------- a firing and those it asks for

  /** One firing: its arguments, the entries due when it began, and its worklist when it ended. */
  datatype Firing<F> = Firing(args: int, due: seq<Entry<F>>, work: Work<F>)

  datatype Outcome<F> = Outcome(firings: seq<Firing<F>>, rest: seq<seq<Op<F>>>, finished: bool)

  function WithArgs<F>(args: int, es: seq<Entry<F>>): seq<(int, Entry<F>)> {
    if es == [] then [] else [(args, es[0])] + WithArgs(args, es[1..])
  }

  /** Every call made in a sequence of firings, with its arguments. */
  function CallsOf<F>(firings: seq<Firing<F>>): seq<(int, Entry<F>)> {
    if firings == [] then []
    else WithArgs(firings[0].args, firings[0].work.called) + CallsOf(firings[1..])
  }

  lemma {:induction false} PassConsumes<F>(w: Work<F>, script: seq<seq<Op<F>>>, once: bool)
    ensures var (w', rest) := Pass(w, script, once);
      |rest| <= |script| && (|rest| == |script| ==> w' == w) && (w'.todo != [] ==> rest == [])
    decreases |script|
  {
    if w.todo != [] && script != [] {
      PassConsumes(PerformAll(CallFirst(w), script[0], once), script[1..], once);
    }
  }

  /** Fire from position `start`, then, unless the list is `once`, every firing asked for meanwhile. */
  function FireAll<F(==)>(list: seq<Entry<F>>, start: nat, queued: seq<int>, next: nat, args: int,
      script: seq<seq<Op<F>>>, once: bool): (o: Outcome<F>)
    requires start <= |list|
    ensures o.firings != []
    decreases |script|, |queued|
  {
    var w0 := Begin(list[..start], list[start..], queued, next);
    PassConsumes(w0, script, once);
    var (w, rest) := Pass(w0, script, once);
    var firing := Firing(args, list[start..], w);
    if w.todo != [] || once || w.queued == [] then Outcome([firing], rest, w.todo == [])
    else
      var o := FireAll(w.past, 0, w.queued[1..], w.next, w.queued[0], rest, once);
      o.(firings := [firing] + o.firings)
  }

  /** The rest of the worklist invariant: what lies behind the cursor is ordered as well. */
  ghost predicate ListInv<F>(w: Work<F>) {
    Increasing(w.past + w.todo) && Below(w.past + w.todo, w.next)
  }

  lemma {:induction false} PassKeepsList<F>(w: Work<F>, script: seq<seq<Op<F>>>, once: bool)
    requires ListInv(w)
    ensures ListInv(Pass(w, script, once).0)
    decreases |script|
  {
    if w.todo != [] && script != [] {
      assert w.past + w.todo == CallFirst(w).past + CallFirst(w).todo;
      PerformAllKeepsList(CallFirst(w), script[0], once);
      PassKeepsList(PerformAll(CallFirst(w), script[0], once), script[1..], once);
    }
  }

  lemma {:induction false} PerformAllKeepsList<F>(w: Work<F>, ops: seq<Op<F>>, once: bool)
    requires ListInv(w)
    ensures ListInv(PerformAll(w, ops, once))
    decreases ops
  {
    if ops != [] {
      hide *;
      PerformKeepsList(w, ops[0], once);
      PerformAllUnfolds(w, ops, once);
      PerformAllKeepsList(Perform(w, ops[0], once), ops[1..], once);
    }
  }

  lemma PerformAllUnfolds<F>(w: Work<F>, ops: seq<Op<F>>, once: bool)
    requires ops != []
    ensures PerformAll(w, ops, once) == PerformAll(Perform(w, ops[0], once), ops[1..], once)
  {
  }

  lemma AddKeepsList<F>(w: Work<F>, fns: seq<F>)
    requires ListInv(w)
    ensures ListInv(AddTo(w, fns))
  {
    PushKeepsOrder(w.past + w.todo, fns, w.next);
    hide Increasing, Below, Stamp;
    assert w.past + (w.todo + Stamp(fns, w.next)) == w.past + w.todo + Stamp(fns, w.next);
  }

  lemma PerformKeepsList<F>(w: Work<F>, op: Op<F>, once: bool)
    requires ListInv(w)
    ensures ListInv(Perform(w, op, once))
  {
    match op {
      case Add(fns) =>
        AddKeepsList(w, fns);
      case Remove(fns) =>
        hide RemoveEach, ListInv;
        RemoveEachKeepsList(w, fns);
      case Fire(_) =>
    }
  }

  lemma {:induction false} RemoveEachKeepsList<F>(w: Work<F>, fns: seq<F>)
    requires ListInv(w)
    ensures ListInv(RemoveEach(w, fns))
    decreases fns
  {
    if fns != [] {
      WithoutConcat(w.past, w.todo, fns[0]);
      WithoutWithin(w.past + w.todo, fns[0]);
      WithoutIncreasing(w.past + w.todo, fns[0]);
      RemoveEachKeepsList(RemoveOne(w, fns[0]), fns[1..]);
    }
  }

  /** In every firing of a run, the one asked for and those asked for while it ran, each entry due
      is called exactly once, in list order, unless it was removed before its turn. */
  lemma {:induction false} EveryFiringCallsEachOnce<F>(
      list: seq<Entry<F>>, start: nat, queued: seq<int>, next: nat, args: int, script: seq<seq<Op<F>>>, once: bool)
    requires start <= |list| && Increasing(list) && Below(list, next)
    ensures forall f :: f in FireAll(list, start, queued, next, args, script, once).firings ==> EachOnce(f.work, f.due)
    decreases |script|, |queued|
  {
    var w0 := Begin(list[..start], list[start..], queued, next);
    var (w, rest) := Pass(w0, script, once);
    FireAllUnfolds(list, start, queued, next, args, script, once);
    PassKeepsOrder(list, start, queued, next, script, once);
    hide *;
    EachDueEntryOnce(list, start, queued, next, script, once);
    if w.todo == [] && !once && w.queued != [] {
      EveryFiringCallsEachOnce(w.past, 0, w.queued[1..], w.next, w.queued[0], rest, once);
    }
  }

  lemma FireAllUnfolds<F>(list: seq<Entry<F>>, start: nat, queued: seq<int>, next: nat, args: int,
      script: seq<seq<Op<F>>>, once: bool)
    requires start <= |list|
    ensures var w0 := Begin(list[..start], list[start..], queued, next);
      var (w, rest) := Pass(w0, script, once);
      var firing := Firing(args, list[start..], w);
      && |rest| <= |script| && (|rest| == |script| ==> w.queued == queued)
      && FireAll(list, start, queued, next, args, script, once) ==
        if w.todo != [] || once || w.queued == [] then Outcome([firing], rest, w.todo == [])
        else
          var o := FireAll(w.past, 0, w.queued[1..], w.next, w.queued[0], rest, once);
          o.(firings := [firing] + o.firings)
  {
    var w0 := Begin(list[..start], list[start..], queued, next);
    PassConsumes(w0, script, once);
    hide Pass, Stamp;
  }

  lemma PassKeepsOrder<F>(list: seq<Entry<F>>, start: nat, queued: seq<int>, next: nat, script: seq<seq<Op<F>>>,
      once: bool)
    requires start <= |list| && Increasing(list) && Below(list, next)
    ensures var w := Pass(Begin(list[..start], list[start..], queued, next), script, once).0;
      w.todo == [] ==> Increasing(w.past) && Below(w.past, w.next)
  {
    var w0 := Begin(list[..start], list[start..], queued, next);
    assert list == w0.past + w0.todo;
    PassKeepsList(w0, script, once);
    var w := Pass(w0, script, once).0;
    hide Pass, Increasing, Below;
    if w.todo == [] {
      assert w.past + w.todo == w.past;
    }
  }

  // ---------------------------------------------------------------- the cursor

  lemma {:induction false} WithoutConcat<F>(a: seq<Entry<F>>, b: seq<Entry<F>>, fn: F)
    ensures Without(a + b, fn) == Without(a, fn) + Without(b, fn)
    ensures Only(a + b, fn) == Only(a, fn) + Only(b, fn)
  {
    if a == [] {
      assert a + b == b;
    } else {
      assert (a + b)[1..] == a[1..] + b && (a + b)[0] == a[0];
      WithoutConcat(a[1..], b, fn);
      var x := if a[0].fn == fn then [] else [a[0]];
      assert x + (Without(a[1..], fn) + Without(b, fn)) == x + Without(a[1..], fn) + Without(b, fn);
      var y := if a[0].fn == fn then [a[0]] else [];
      assert y + (Only(a[1..], fn) + Only(b, fn)) == y + Only(a[1..], fn) + Only(b, fn);
    }
  }

  /** Splicing out one registration of `fn` does not change what is left without `fn`. */
  lemma {:induction false} WithoutSplice<F>(es: seq<Entry<F>>, k: nat, fn: F)
    requires k < |es| && es[k].fn == fn
    ensures Without(es[..k] + es[k + 1..], fn) == Without(es, fn)
  {
    var t := es[1..];
    if k == 0 {
      assert es[..k] + es[k + 1..] == t;
    } else {
      WithoutSplice(t, k - 1, fn);
      var s := es[..k] + es[k + 1..];
      assert s[0] == es[0] && s[1..] == t[..k - 1] + t[k..];
    }
  }

  ghost predicate NoneIn<F>(es: seq<Entry<F>>, fn: F) {
    forall i :: 0 <= i < |es| ==> es[i].fn != fn
  }

  lemma NoneUpTo<F>(es: seq<Entry<F>>, from: nat, to: nat, fn: F)
    requires from <= to <= |es| && NoneIn(es[..from], fn) && NoneIn(es[from..to], fn)
    ensures NoneIn(es[..to], fn) && (to == |es| ==> NoneIn(es, fn))
  {
    forall k | 0 <= k < to ensures es[k].fn != fn {
      if k < from { assert es[..from][k] == es[k]; } else { assert es[from..to][k - from] == es[k]; }
    }
  }

  lemma {:induction false} WithoutAbsent<F>(es: seq<Entry<F>>, fn: F)
    requires NoneIn(es, fn)
    ensures Without(es, fn) == es
  {
    if es != [] {
      WithoutAbsent(es[1..], fn);
    }
  }

  /** A firing that starts with functions that were just added calls each of those once. */
  lemma PushedInOrder<F>(es: seq<Entry<F>>, fns: seq<F>, queued: seq<int>, next: nat, args: int,
      script: seq<seq<Op<F>>>, once: bool)
    requires Increasing(es) && Below(es, next)
    ensures var o := FireAll(es + Stamp(fns, next), |es|, queued, next + |fns|, args, script, once);
      forall f :: f in o.firings ==> EachOnce(f.work, f.due)
  {
    hide *;
    PushKeepsOrder(es, fns, next);
    EveryFiringCallsEachOnce(es + Stamp(fns, next), |es|, queued, next + |fns|, args, script, once);
  }

  // ---------------------------------------------------------------- a program around the firings

  /** A list that is not being fired: its functions, the arguments it remembers, whether it has been
      fired, the firings asked for (None for a `once` or locked list), the next registration. */
  datatype List<F> = List(entries: Option<seq<Entry<F>>>, memory: Option<int>, fired: bool, queued: Option<seq<int>>,
      next: nat)

  /** A part of a run: the list it leaves, if it is finished, the firings it made, the script left. */
  datatype Played<F> = Played(list: List<F>, firings: seq<Firing<F>>, rest: seq<seq<Op<F>>>, finished: bool)

  /** What the last of some firings leaves. */
  function Left<F>(keepsMemory: bool, queues: bool, last: Firing<F>): List<F> {
    List(if queues then Some(last.work.past) else if keepsMemory then Some([]) else None,
         if keepsMemory then Some(last.args) else None, true, if queues then Some([]) else None, last.work.next)
  }

  function Queue<F>(l: List<F>): seq<int> {
    if l.queued.Some? then l.queued.value else []
  }

  function FireFrom<F(==)>(keepsMemory: bool, l: List<F>, start: nat, args: int, script: seq<seq<Op<F>>>): Played<F>
    requires l.entries.Some? && start <= |l.entries.value|
  {
    var o := FireAll(l.entries.value, start, Queue(l), l.next, args, script, l.queued.None?);
    var after := if o.finished then Left(keepsMemory, l.queued.Some?, o.firings[|o.firings| - 1]) else l;
    Played(after, o.firings, o.rest, o.finished)
  }

  /** `add`, `remove` and `fireWith` on a list that is not being fired. */
  function Play<F(==)>(keepsMemory: bool, l: List<F>, op: Op<F>, script: seq<seq<Op<F>>>): Played<F> {
    if l.entries.None? then Played(l, [], script, true)
    else
      var es := l.entries.value;
      match op
      case Add(fns) =>
        var more := l.(entries := Some(es + Stamp(fns, l.next)), next := l.next + |fns|);
        if l.memory.Some? then FireFrom(keepsMemory, more, |es|, l.memory.value, script)
        else Played(more, [], script, true)
      case Remove(fns) => Played(l.(entries := Some(WithoutAll(es, fns))), [], script, true)
      case Fire(args) =>
        if l.fired && l.queued.None? then Played(l, [], script, true)
        else FireFrom(keepsMemory, l, 0, args, script)
  }

  lemma AddPlays<F>(keepsMemory: bool, l: List<F>, fns: seq<F>, script: seq<seq<Op<F>>>)
    ensures Play(keepsMemory, l, Op<F>.Add(fns), script) ==
      if l.entries.None? then Played(l, [], script, true)
      else
        var more := l.(entries := Some(l.entries.value + Stamp(fns, l.next)), next := l.next + |fns|);
        if l.memory.Some? then FireFrom(keepsMemory, more, |l.entries.value|, l.memory.value, script)
        else Played(more, [], script, true)
  {
    hide FireFrom, Stamp, FireAll, Left, WithoutAll;
  }

  lemma FireFromIs<F>(keepsMemory: bool, l: List<F>, start: nat, args: int, script: seq<seq<Op<F>>>)
    requires l.entries.Some? && start <= |l.entries.value|
    ensures var p := FireFrom(keepsMemory, l, start, args, script);
      && Outcome(p.firings, p.rest, p.finished)
        == FireAll(l.entries.value, start, Queue(l), l.next, args, script, l.queued.None?)
      && p.firings != [] && (p.finished ==> p.list == Left(keepsMemory, l.queued.Some?, p.firings[|p.firings| - 1]))
  {
    hide FireAll;
  }

  lemma RunUnfolds<F>(keepsMemory: bool, l: List<F>, program: seq<Op<F>>, script: seq<seq<Op<F>>>)
    requires program != []
    ensures var p := Play(keepsMemory, l, program[0], script);
      var q := RunAll(keepsMemory, p.list, program[1..], p.rest);
      RunAll(keepsMemory, l, program, script) == if !p.finished then p else q.(firings := p.firings + q.firings)
  {
    hide Play;
  }

  lemma RemovePlays<F>(keepsMemory: bool, l: List<F>, fns: seq<F>, script: seq<seq<Op<F>>>)
    ensures Play(keepsMemory, l, Op<F>.Remove(fns), script)
      == Played(Play(keepsMemory, l, Op<F>.Remove(fns), []).list, [], script, true)
  {
  }

  lemma RunEnds<F>(keepsMemory: bool, l: List<F>, script: seq<seq<Op<F>>>)
    ensures RunAll(keepsMemory, l, [], script) == Played(l, [], script, true)
  {
  }

  /** A program, up to the point where the script runs out. */
  function RunAll<F(==)>(keepsMemory: bool, l: List<F>, program: seq<Op<F>>, script: seq<seq<Op<F>>>): Played<F>
    decreases |program|
  {
    if program == [] then Played(l, [], script, true)
    else
      var p := Play(keepsMemory, l, program[0], script);
      if !p.finished then p
      else
        var q := RunAll(keepsMemory, p.list, program[1..], p.rest);
        q.(firings := p.firings + q.firings)
  }

  // ---------------------------------------------------------------- who removes an entry before its turn

  ghost predicate RemovedIn<F(!new)>(ops: seq<Op<F>>, fn: F) {
    exists k :: 0 <= k < |ops| && ops[k].Remove? && fn in ops[k].fns
  }

  /** Some function that is called removes `fn`. */
  ghost predicate Removed<F(!new)>(script: seq<seq<Op<F>>>, fn: F) {
    exists k :: 0 <= k < |script| && RemovedIn(script[k], fn)
  }

  lemma {:induction false} RemoveEachDrops<F(!new)>(w: Work<F>, fns: seq<F>)
    ensures forall e :: e in RemoveEach(w, fns).dropped ==> e in w.dropped || e.fn in fns
    decreases fns
  {
    if fns != [] {
      WithoutWithin(w.todo, fns[0]);
      RemoveEachDrops(RemoveOne(w, fns[0]), fns[1..]);
    }
  }

  lemma {:induction false} PerformAllDrops<F(!new)>(w: Work<F>, ops: seq<Op<F>>, once: bool)
    ensures forall e :: e in PerformAll(w, ops, once).dropped ==> e in w.dropped || RemovedIn(ops, e.fn)
    decreases ops
  {
    if ops != [] {
      var next := Perform(w, ops[0], once);
      if ops[0].Remove? { RemoveEachDrops(w, ops[0].fns); }
      PerformAllUnfolds(w, ops, once);
      PerformAllDrops(next, ops[1..], once);
      assert forall e :: e in next.dropped ==> e in w.dropped || (ops[0].Remove? && e.fn in ops[0].fns);
      hide Perform, PerformAll;
      forall fn: F | RemovedIn(ops[1..], fn) ensures RemovedIn(ops, fn) {
        var k :| 0 <= k < |ops[1..]| && ops[1..][k].Remove? && fn in ops[1..][k].fns;
        assert ops[k + 1].Remove? && fn in ops[k + 1].fns;
      }
    }
  }

  lemma RemovedLater<F(!new)>(script: seq<seq<Op<F>>>)
    requires script != []
    ensures forall fn: F :: RemovedIn(script[0], fn) || Removed(script[1..], fn) ==> Removed(script, fn)
  {
    hide RemovedIn;
    forall fn: F | Removed(script[1..], fn) ensures Removed(script, fn) {
      var k :| 0 <= k < |script[1..]| && RemovedIn(script[1..][k], fn);
      assert RemovedIn(script[k + 1], fn);
    }
  }

  /** An entry loses its turn only if one of the functions called removes its function. */
  lemma {:induction false} DroppedIsRemoved<F(!new)>(w: Work<F>, script: seq<seq<Op<F>>>, once: bool)
    ensures var (w', rest) := Pass(w, script, once);
      && (forall e :: e in w'.dropped ==> e in w.dropped || Removed(script, e.fn))
      && (forall fn: F :: Removed(rest, fn) ==> Removed(script, fn))
    decreases |script|
  {
    if w.todo != [] && script != [] {
      PerformAllDrops(CallFirst(w), script[0], once);
      DroppedIsRemoved(PerformAll(CallFirst(w), script[0], once), script[1..], once);
      RemovedLater(script);
      hide PerformAll, Removed;
    }
  }

  lemma {:induction false} FireAllDrops<F(!new)>(
      list: seq<Entry<F>>, start: nat, queued: seq<int>, next: nat, args: int, script: seq<seq<Op<F>>>, once: bool)
    requires start <= |list|
    ensures var o := FireAll(list, start, queued, next, args, script, once);
      && (forall f, e :: f in o.firings && e in f.work.dropped ==> Removed(script, e.fn))
      && (forall fn: F :: Removed(o.rest, fn) ==> Removed(script, fn))
    decreases |script|, |queued|
  {
    var w0 := Begin(list[..start], list[start..], queued, next);
    var (w, rest) := Pass(w0, script, once);
    FireAllUnfolds(list, start, queued, next, args, script, once);
    DroppedIsRemoved(w0, script, once);
    hide FireAll, Pass, Removed;
    if w.todo == [] && !once && w.queued != [] {
      FireAllDrops(w.past, 0, w.queued[1..], w.next, w.queued[0], rest, once);
    }
  }

  lemma PlayDrops<F(!new)>(keepsMemory: bool, l: List<F>, op: Op<F>, script: seq<seq<Op<F>>>)
    ensures var p := Play(keepsMemory, l, op, script);
      && (forall f, e :: f in p.firings && e in f.work.dropped ==> Removed(script, e.fn))
      && (forall fn: F :: Removed(p.rest, fn) ==> Removed(script, fn))
  {
    hide FireAll, Removed, WithoutAll, Stamp, Left;
    if l.entries.Some? {
      match op {
        case Add(fns) =>
          var es := l.entries.value;
          if l.memory.Some? {
            FireAllDrops(es + Stamp(fns, l.next), |es|, Queue(l), l.next + |fns|, l.memory.value, script,
              l.queued.None?);
          }
        case Remove(_) =>
        case Fire(args) => FireAllDrops(l.entries.value, 0, Queue(l), l.next, args, script, l.queued.None?);
      }
    }
  }

  /** Over a whole program: an entry loses its turn in a firing only if a function called in the course of
      the run removes its function. */
  lemma {:induction false} RunDrops<F(!new)>(keepsMemory: bool, l: List<F>, program: seq<Op<F>>,
      script: seq<seq<Op<F>>>)
    ensures forall f, e :: f in RunAll(keepsMemory, l, program, script).firings && e in f.work.dropped ==>
      Removed(script, e.fn)
    decreases |program|
  {
    if program != [] {
      hide Play, Removed;
      PlayDrops(keepsMemory, l, program[0], script);
      var p := Play(keepsMemory, l, program[0], script);
      RunDrops(keepsMemory, p.list, program[1..], p.rest);
    }
  }

  /** So an entry that was due in a firing that came to its end, and whose function is never removed, was
      called in it exactly once. */
  lemma UnremovedIsCalled<F(!new)>(keepsMemory: bool, l: List<F>, program: seq<Op<F>>, script: seq<seq<Op<F>>>,
                                   f: Firing<F>, e: Entry<F>)
    requires f in RunAll(keepsMemory, l, program, script).firings && EachOnce(f.work, f.due)
    requires f.work.todo == [] && e in f.work.scope && !Removed(script, e.fn)
    ensures multiset(f.work.called)[e] == 1
  {
    hide RunAll, Removed;
    RunDrops(keepsMemory, l, program, script);
    assert e !in f.work.dropped;
  }

  /** The closure of `Callbacks`; the comments give the one-letter names of the minified source. */
  class Callbacks<F(==)> {
    const once: bool
    const keepsMemory: bool
    var list: Option<seq<Entry<F>>>   // h; None once disabled
    var firing: bool                  // b
    var memory: Option<int>           // c
    var fired: bool                   // d
    var firingLength: int             // e
    var firingIndex: int              // f
    var firingStart: nat              // g
    var stack: Option<seq<int>>       // i; None for a `once` or locked list
    var registrations: nat            // counts pushes, to number them

    /** The invariant while no firing is being set up. */
    ghost predicate Valid()
      reads this
    {
      Ready() && firingStart == 0
    }

    ghost predicate Ready()
      reads this
    {
      && (once ==> stack.None?)
      && (list.Some? ==> firingStart <= |list.value| && Increasing(list.value) && Below(list.value, registrations))
      && (firing && list.Some? ==> firingLength == |list.value| && -1 <= firingIndex < |list.value|)
    }

    /** The entries up to and including the one being called, and those after it. */
    ghost function Past(): seq<Entry<F>>
      reads this
      requires Valid() && firing && list.Some?
    {
      list.value[..firingIndex + 1]
    }

    ghost function Todo(): seq<Entry<F>>
      reads this
      requires Valid() && firing && list.Some?
    {
      list.value[firingIndex + 1..]
    }

    ghost function Queued(): seq<int>
      reads this`stack
    {
      if stack.Some? then stack.value else []
    }

    ghost function State(): List<F>
      reads this
    {
      List(list, memory, fired, stack, registrations)
    }

    constructor (once: bool, keepsMemory: bool)
      ensures Valid() && this.once == once && this.keepsMemory == keepsMemory
      ensures list == Some([]) && !firing && memory == None && !fired && registrations == 0
      ensures stack == if once then None else Some([])
    {
      this.once, this.keepsMemory := once, keepsMemory;
      list, firing, memory, fired := Some([]), false, None, false;
      firingLength, firingIndex, firingStart, registrations := 0, 0, 0, 0;
      stack := if once then None else Some([]);
    }

    /** A function of the list is running, and `w` is the firing it runs in. */
    ghost predicate Running(w: Work<F>)
      reads this
    {
      && Valid() && firing && list.Some?
      && w.past == Past() && w.todo == Todo() && w.queued == Queued() && w.next == registrations
    }

    method IndexOf(fn: F, from: int) returns (index: int)
      requires list.Some? && 0 <= from <= |list.value|
      ensures -1 == index || from <= index < |list.value|
      ensures index >= 0 ==> list.value[index].fn == fn
      ensures NoneIn(list.value[from..if index < 0 then |list.value| else index], fn)
    {
      index := from;
      while index < |list.value|
        invariant from <= index <= |list.value|
        invariant forall k :: from <= k < index ==> list.value[k].fn != fn
      {
        if list.value[index].fn == fn {
          return;
        }
        index := index + 1;
      }
      index := -1;
    }

    /** `add`, up to the decision whether the new functions must be called at once. */
    method Push(fns: seq<F>) returns (replay: Option<int>)
      requires Valid()
      modifies this`list, this`registrations, this`firingLength, this`firingStart
      ensures Ready()
      ensures list == if old(list).None? then None else Some(old(list).value + Stamp(fns, old(registrations)))
      ensures registrations == if list.None? then old(registrations) else old(registrations) + |fns|
      ensures replay == if list.None? || firing then None else memory
      ensures firingStart == if replay.Some? then |old(list).value| else 0
      ensures firing && list.Some? ==> Past() == old(Past()) && Todo() == old(Todo()) + Stamp(fns, old(registrations))
    {
      replay := None;
      if list.Some? {
        PushKeepsOrder(list.value, fns, registrations);
        hide Increasing, Below;
        ghost var es := list.value;
        var length := |list.value|;
        list := Some(list.value + Stamp(fns, registrations));
        registrations := registrations + |fns|;
        if firing {
          firingLength := |list.value|;
          SplitAppend(es, Stamp(fns, old(registrations)), firingIndex + 1);
        } else if memory.Some? {
          firingStart := length;
          replay := memory;
        }
      }
    }

    /** `add` called by a function of the list that is running. */
    method PushInside(fns: seq<F>, ghost w: Work<F>)
      requires Running(w)
      modifies this`list, this`registrations, this`firingLength, this`firingStart
      ensures Running(AddTo(w, fns))
    {
      var _ := Push(fns);
    }

    /** Splices one registration out and corrects the cursor, if it is in use. */
    method SpliceOut(d: nat)
      requires Valid() && list.Some? && d < |list.value|
      modifies this`list, this`firingLength, this`firingIndex
      ensures Valid() && list == Some(old(list).value[..d] + old(list).value[d + 1..])
      ensures firing && d <= old(firingIndex) ==>
        Past() == old(Past())[..d] + old(Past())[d + 1..] && Todo() == old(Todo())
      ensures firing && d > old(firingIndex) ==> var j := d - old(firingIndex) - 1;
        Past() == old(Past()) && Todo() == old(Todo())[..j] + old(Todo())[j + 1..]
    {
      SpliceKeepsOrder(list.value, d);
      hide Increasing, Below;
      if firing {
        SpliceSlices(list.value, firingIndex + 1, d);
      }
      list := Some(list.value[..d] + list.value[d + 1..]);
      if firing {
        if firingLength >= d { firingLength := firingLength - 1; }
        if firingIndex >= d { firingIndex := firingIndex - 1; }
      }
    }

    /** Splices out a registration of `fn`: nothing else changes, before or behind the cursor. */
    method SpliceFunction(d: nat, fn: F)
      requires Valid() && list.Some? && d < |list.value| && list.value[d].fn == fn
      modifies this`list, this`firingLength, this`firingIndex
      ensures Valid() && list.Some? && |list.value| == |old(list).value| - 1
      ensures list.value[..d] == old(list).value[..d]
      ensures Without(list.value, fn) == Without(old(list).value, fn)
      ensures firing ==>
        Without(Past(), fn) == Without(old(Past()), fn) && Without(Todo(), fn) == Without(old(Todo()), fn)
    {
      hide *;
      WithoutSplice(list.value, d, fn);
      CursorSplice(d, fn);
      SpliceFront(list.value, d);
      SpliceOut(d);
    }

    /** The search goes on where the last registration was spliced out. */
    method NextIndex(fn: F, from: int) returns (index: int)
      requires list.Some? && 0 <= from <= |list.value| && NoneIn(list.value[..from], fn)
      ensures index == -1 || (from <= index < |list.value| && list.value[index].fn == fn)
      ensures NoneIn(if index < 0 then list.value else list.value[..index], fn)
    {
      hide *;
      index := IndexOf(fn, from);
      NoneUpTo(list.value, from, if index < 0 then |list.value| else index, fn);
      assert list.value[..|list.value|] == list.value;
    }

    /** `remove` of one function: every registration of it is spliced out, and a cursor in use is
        moved back past each registration that stood at or before it. */
    method RemoveFunction(fn: F)
      requires Valid()
      modifies this`list, this`firingLength, this`firingIndex
      ensures Valid()
      ensures list == if old(list).None? then None else Some(Without(old(list).value, fn))
      ensures firing && list.Some? ==> Past() == Without(old(Past()), fn) && Todo() == Without(old(Todo()), fn)
    {
      if list.None? {
        return;
      }
      assert NoneIn(list.value[..0], fn);
      hide *;
      ghost var past, todo := if firing then Past() else [], if firing then Todo() else [];
      var d := NextIndex(fn, 0);
      while d > -1
        invariant Valid() && list.Some? && (d > -1 ==> d < |list.value| && list.value[d].fn == fn)
        invariant NoneIn(if d < 0 then list.value else list.value[..d], fn)
        invariant Without(list.value, fn) == Without(old(list).value, fn)
        invariant firing ==> Without(Past(), fn) == Without(past, fn) && Without(Todo(), fn) == Without(todo, fn)
        decreases if d < 0 then 0 else |list.value|
      {
        SpliceFunction(d, fn);
        d := NextIndex(fn, d);
      }
      NoneLeft(fn);
    }

    lemma CursorSplice(d: nat, fn: F)
      requires Valid() && list.Some? && d < |list.value| && list.value[d].fn == fn
      ensures firing && d <= firingIndex ==>
        d < |Past()| && Without(Past()[..d] + Past()[d + 1..], fn) == Without(Past(), fn)
      ensures firing && d > firingIndex ==> var j := d - firingIndex - 1;
        j < |Todo()| && Without(Todo()[..j] + Todo()[j + 1..], fn) == Without(Todo(), fn)
    {
      if firing && d <= firingIndex { WithoutSplice(Past(), d, fn); }
      if firing && d > firingIndex { WithoutSplice(Todo(), d - firingIndex - 1, fn); }
    }

    lemma NoneLeft(fn: F)
      requires Valid() && list.Some? && NoneIn(list.value, fn)
      ensures Without(list.value, fn) == list.value
      ensures firing ==> Without(Past(), fn) == Past() && Without(Todo(), fn) == Todo()
    {
      WithoutAbsent(list.value, fn);
      if firing {
        WithoutAbsent(Past(), fn);
        WithoutAbsent(Todo(), fn);
      }
    }

    method Remove(fns: seq<F>, ghost w: Work<F>)
      requires Running(w)
      modifies this`list, this`firingLength, this`firingIndex
      ensures Running(RemoveEach(w, fns))
    {
      var i := 0;
      ghost var now := w;
      while i < |fns|
        invariant i <= |fns| && Running(now) && RemoveEach(now, fns[i..]) == RemoveEach(w, fns)
      {
        RemoveFunction(fns[i]);
        now := RemoveOne(now, fns[i]);
        i := i + 1;
      }
    }

    /** `fireWith`, up to the decision whether a firing starts now. */
    method Request(args: int) returns (starts: bool)
      requires Valid()
      modifies this`stack
      ensures Valid()
      ensures starts == (list.Some? && (fired ==> stack.Some?) && !firing)
      ensures stack == if list.Some? && firing && old(stack).Some? then Some(old(stack).value + [args]) else old(stack)
    {
      starts := false;
      if !(list.None? || (fired && stack.None?)) {
        if firing {
          if stack.Some? {
            stack := Some(stack.value + [args]);
          }
        } else {
          starts := true;
        }
      }
    }

    /** `fire` called by a function of the list that is running. */
    method RequestInside(args: int, ghost w: Work<F>)
      requires Running(w) && fired
      modifies this`stack
      ensures Running(Perform(w, Op<F>.Fire(args), stack.None?)) && stack.None? == old(stack).None?
    {
      var _ := Request(args);
    }

    /** The calls the running function makes on this list. */
    method PerformOps(ops: seq<Op<F>>, ghost w: Work<F>)
      requires Running(w) && fired
      modifies this
      ensures Running(PerformAll(w, ops, stack.None?))
      ensures fired && memory == old(memory) && stack.None? == old(stack).None?
    {
      hide Running;
      var i := 0;
      ghost var now := w;
      while i < |ops|
        invariant i <= |ops| && Running(now) && fired && memory == old(memory) && stack.None? == old(stack).None?
        invariant PerformAll(now, ops[i..], stack.None?) == PerformAll(w, ops, stack.None?)
      {
        match ops[i] {
          case Add(fns) => PushInside(fns, now);
          case Remove(fns) => Remove(fns, now);
          case Fire(args) => RequestInside(args, now);
        }
        now := Perform(now, ops[i], stack.None?);
        i := i + 1;
      }
    }

    /** The cursor stands before the first entry still to be called. */
    ghost predicate AtHead(w: Work<F>)
      reads this
    {
      && (once ==> stack.None?) && firing && fired && firingStart == 0
      && list.Some? && Increasing(list.value) && Below(list.value, registrations)
      && 0 <= firingIndex <= |list.value| == firingLength
      && w.past == list.value[..firingIndex] && w.todo == list.value[firingIndex..]
      && w.queued == Queued() && w.next == registrations
    }

    function Current(): Entry<F>
      reads this
      requires list.Some? && 0 <= firingIndex < |list.value|
    {
      list.value[firingIndex]
    }

    predicate HasNext()
      reads this
    {
      list.Some? && firingLength > firingIndex
    }

    /** Before a call the cursor stands at the first entry due; calling it is running inside it. */
    lemma HeadRuns(w: Work<F>)
      requires AtHead(w)
      ensures HasNext() <==> w.todo != []
      ensures w.next == registrations
      ensures w.todo != [] ==> list.Some? && 0 <= firingIndex < |list.value| && Current() == w.todo[0]
      ensures w.todo != [] ==> Running(CallFirst(w)) && fired
    {
    }

    lemma AtHeadIsOnce(w: Work<F>)
      requires AtHead(w) && once
      ensures stack.None? && Queued() == []
    {
    }

    method Advance(ghost w: Work<F>)
      requires Running(w) && fired
      modifies this`firingIndex
      ensures AtHead(w)
    {
      firingIndex := firingIndex + 1;
    }

    /** The loop of one firing. */
    method CallEach(script: seq<seq<Op<F>>>, ghost w: Work<F>) returns (calls: seq<Entry<F>>, rest: seq<seq<Op<F>>>)
      requires AtHead(w) && w.called == []
      modifies this
      ensures AtHead(Pass(w, script, stack.None?).0) && rest == Pass(w, script, stack.None?).1
      ensures calls == Pass(w, script, stack.None?).0.called
      ensures memory == old(memory) && stack.None? == old(stack).None?
    {
      var i := 0;
      ghost var now := w;
      calls := [];
      while HasNext() && i < |script|
        invariant i <= |script| && AtHead(now) && calls == now.called
        invariant memory == old(memory) && stack.None? == old(stack).None?
        invariant Pass(now, script[i..], stack.None?) == Pass(w, script, stack.None?)
        decreases |script| - i
      {
        HeadRuns(now);
        assert script[i..][1..] == script[i + 1..];
        ghost var running := CallFirst(now);
        PerformAllCalls(running, script[i], stack.None?);
        calls := calls + [Current()];
        PerformOps(script[i], running);
        now := PerformAll(running, script[i], stack.None?);
        Advance(now);
        i := i + 1;
      }
      rest := script[i..];
    }

    /** The opening of `fire`. */
    method SetUp(args: int)
      requires Ready() && list.Some? && !firing
      modifies this
      ensures list == old(list) && stack == old(stack) && registrations == old(registrations)
      ensures AtHead(Begin(list.value[..old(firingStart)], list.value[old(firingStart)..], Queued(), registrations))
      ensures memory == if keepsMemory then Some(args) else None
    {
      memory := if keepsMemory then Some(args) else None;
      fired := true;
      firingIndex := firingStart;
      firingStart := 0;
      firingLength := |list.value|;
      firing := true;
    }

    /** The close of `fire`: take the next firing asked for, or empty a list that only remembers,
        or disable one that does not. */
    method TearDown(ghost w: Work<F>) returns (next: Option<int>)
      requires AtHead(w) && w.todo == [] && (memory.Some? <==> keepsMemory)
      modifies this
      ensures Valid() && !firing && fired && memory == old(memory) && registrations == old(registrations)
      ensures stack.None? == old(stack).None?
      ensures next == if old(Queued()) == [] then None else Some(old(Queued())[0])
      ensures Queued() == if next.Some? then old(Queued())[1..] else []
      ensures list == if stack.Some? then Some(w.past) else if memory.Some? then Some([]) else None
    {
      assert w.past == list.value;
      next := None;
      firing := false;
      if stack.Some? {
        if stack.value != [] {
          next := Some(stack.value[0]);
          stack := Some(stack.value[1..]);
        }
      } else if memory.Some? {
        list := Some([]);
      } else {
        list := None;
      }
    }

    /** What one firing without another one behind it leaves. */
    lemma ClosedIs(f: Firing<F>)
      requires fired && Queued() == [] && f.work.next == registrations
      requires memory == if keepsMemory then Some(f.args) else None
      requires list == if stack.Some? then Some(f.work.past) else if memory.Some? then Some([]) else None
      ensures State() == Left(keepsMemory, stack.Some?, f)
    {
    }

    /** `fire` itself, together with the firings asked for while it runs. */
    method FireNow(args: int, script: seq<seq<Op<F>>>)
        returns (calls: seq<(int, Entry<F>)>, rest: seq<seq<Op<F>>>, finished: bool, ghost firings: seq<Firing<F>>)
      requires Ready() && list.Some? && !firing
      modifies this
      ensures Outcome(firings, rest, finished)
        == FireAll(old(list).value, old(firingStart), old(Queued()), old(registrations), args, script, old(stack).None?)
      ensures calls == CallsOf(firings) && stack.None? == old(stack).None?
      ensures finished ==> Valid() && !firing && State() == Left(keepsMemory, stack.Some?, firings[|firings| - 1])
      decreases |script|, |Queued()|
    {
      assert list.Some? && firingStart <= |list.value|;
      hide Increasing, Below, AtHead, WithArgs, Left, State, FireAll, Pass, Ready;
      FireAllUnfolds(list.value, firingStart, Queued(), registrations, args, script, stack.None?);
      ghost var w0 := Begin(list.value[..firingStart], list.value[firingStart..], Queued(), registrations);
      SetUp(args);
      PassConsumes(w0, script, stack.None?);
      var entries;
      entries, rest := CallEach(script, w0);
      calls := WithArgs(args, entries);
      ghost var w := Pass(w0, script, stack.None?).0;
      HeadRuns(w);
      finished := !HasNext();
      firings := [Firing(args, w0.todo, w)];
      if finished {
        var next := TearDown(w);
        if next.Some? {
          assert w.past[0..] == w.past;
          var moreCalls;
          ghost var more;
          moreCalls, rest, finished, more := FireNow(next.value, rest);
          calls := calls + moreCalls;
          firings := firings + more;
          assert firings[|firings| - 1] == more[|more| - 1];
        } else {
          ClosedIs(firings[0]);
        }
      }
    }

    /** A part of a run goes as specified, and leaves the list so. */
    ghost predicate Plays(p: Played<F>, firings: seq<Firing<F>>, rest: seq<seq<Op<F>>>, finished: bool)
      reads this
    {
      p.firings == firings && p.rest == rest && p.finished == finished && (finished ==> State() == p.list)
    }

    /** `add` called from outside a firing: a list that remembers its arguments calls the new
        functions at once. */
    method AddNow(fns: seq<F>, script: seq<seq<Op<F>>>)
      returns (calls: seq<(int, Entry<F>)>, rest: seq<seq<Op<F>>>, finished: bool, ghost firings: seq<Firing<F>>)
      requires Valid() && !firing
      modifies this
      ensures Plays(Play(keepsMemory, old(State()), Op<F>.Add(fns), script), firings, rest, finished)
      ensures calls == CallsOf(firings) && forall f :: f in firings ==> EachOnce(f.work, f.due)
      ensures finished ==> Valid() && !firing
    {
      hide *;
      calls, rest, finished, firings := [], script, true, [];
      NoCalls<F>();
      AddedInOrder(fns, script);
      StateIs();
      AddPlays(keepsMemory, State(), fns, script);
      var replay := Push(fns);
      StateIs();
      if replay.Some? {
        FireFromIs(keepsMemory, State(), firingStart, replay.value, script);
        calls, rest, finished, firings := FireNow(replay.value, script);
      } else {
        ReadyIsValid();
      }
      PlaysIs();
    }

    lemma StateIs()
      ensures State() == List(list, memory, fired, stack, registrations) && Queue(State()) == Queued()
    {
    }

    lemma PlaysIs()
      ensures forall p, firings, rest, finished :: Plays(p, firings, rest, finished) <==>
        p.firings == firings && p.rest == rest && p.finished == finished && (finished ==> State() == p.list)
    {
    }

    lemma ReadyIsValid()
      ensures Valid() <==> Ready() && firingStart == 0
    {
    }

    lemma AddedInOrder(fns: seq<F>, script: seq<seq<Op<F>>>)
      requires Valid()
      ensures list.Some? && memory.Some? ==>
        var o := FireAll(list.value + Stamp(fns, registrations), |list.value|, Queued(), registrations + |fns|,
          memory.value, script, stack.None?);
        forall f :: f in o.firings ==> EachOnce(f.work, f.due)
    {
      if list.Some? && memory.Some? {
        assert Increasing(list.value) && Below(list.value, registrations);
        hide *;
        PushedInOrder(list.value, fns, Queued(), registrations, memory.value, script, stack.None?);
      }
    }

    /** `remove` called from outside a firing. */
    method RemoveNow(fns: seq<F>)
      requires Valid() && !firing
      modifies this`list, this`firingLength, this`firingIndex
      ensures Valid() && !firing && State() == Play(keepsMemory, old(State()), Op<F>.Remove(fns), []).list
    {
      hide Valid, Without;
      var i := 0;
      while i < |fns|
        invariant i <= |fns| && Valid() && list.Some? == old(list).Some?
        invariant list.Some? ==> WithoutAll(list.value, fns[i..]) == WithoutAll(old(list).value, fns)
      {
        RemoveFunction(fns[i]);
        i := i + 1;
      }
    }

    /** `fireWith` called from outside a firing. */
    method FireWith(args: int, script: seq<seq<Op<F>>>)
      returns (calls: seq<(int, Entry<F>)>, rest: seq<seq<Op<F>>>, finished: bool, ghost firings: seq<Firing<F>>)
      requires Valid() && !firing
      modifies this
      ensures Plays(Play(keepsMemory, old(State()), Op<F>.Fire(args), script), firings, rest, finished)
      ensures calls == CallsOf(firings) && forall f :: f in firings ==> EachOnce(f.work, f.due)
      ensures finished ==> Valid() && !firing
    {
      hide EachOnce, FireAll, Increasing, Below;
      calls, rest, finished, firings := [], script, true, [];
      NoCalls<F>();
      if list.Some? {
        EveryFiringCallsEachOnce(list.value, 0, Queued(), registrations, args, script, stack.None?);
      }
      var starts := Request(args);
      if starts {
        calls, rest, finished, firings := FireNow(args, script);
      }
    }

    /** A program that adds, removes and fires, with functions that do the same while they are called. It
        makes the firings of the specification and leaves its list. In every firing of the whole run each
        entry due is called exactly once, in list order, unless it was removed before its turn, and there
        are no other calls. The run stops where the script ends. */
    method RunProgram(program: seq<Op<F>>, script: seq<seq<Op<F>>>)
      returns (calls: seq<(int, Entry<F>)>, rest: seq<seq<Op<F>>>, finished: bool, ghost firings: seq<Firing<F>>)
      requires Valid() && !firing
      modifies this
      ensures Plays(RunAll(keepsMemory, old(State()), program, script), firings, rest, finished)
      ensures calls == CallsOf(firings) && forall f :: f in firings ==> EachOnce(f.work, f.due)
      ensures finished ==> Valid() && !firing
    {
      hide *;
      calls, rest, finished, firings := [], script, true, [];
      var i := 0;
      NoCalls<F>();
      ghost var all := RunAll(keepsMemory, State(), program, script);
      assert program[0..] == program;
      assert all.(firings := [] + all.firings) == all;
      while i < |program| && finished
        invariant i <= |program| && calls == CallsOf(firings) && forall f :: f in firings ==> EachOnce(f.work, f.due)
        invariant finished ==> Valid() && !firing
        invariant finished ==> var left := RunAll(keepsMemory, State(), program[i..], rest);
          all == left.(firings := firings + left.firings)
        invariant !finished ==> all.firings == firings && all.rest == rest && !all.finished
        decreases |program| - i
      {
        PlaysIs();
        RunUnfolds(keepsMemory, State(), program[i..], rest);
        assert program[i..][1..] == program[i + 1..];
        ghost var p := Play(keepsMemory, State(), program[i], rest);
        var more := [];
        ghost var moreFirings := [];
        NoCalls<F>();
        match program[i] {
          case Add(fns) => more, rest, finished, moreFirings := AddNow(fns, rest);
          case Remove(fns) =>
            RemovePlays(keepsMemory, State(), fns, rest);
            RemoveNow(fns);
          case Fire(args) => more, rest, finished, moreFirings := FireWith(args, rest);
        }
        PlaysIs();
        CallsConcat(firings, moreFirings);
        calls := calls + more;
        firings := firings + moreFirings;
        i := i + 1;
      }
      RunEnds(keepsMemory, State(), rest);
      PlaysIs();
    }

    method Disable()
      modifies this`list, this`stack, this`memory
      ensures list == None && stack == None && memory == None
    {
      list, stack, memory := None, None, None;
    }
  }

  function WithoutAll<F(==)>(es: seq<Entry<F>>, fns: seq<F>): seq<Entry<F>>
    decreases |fns|
  {
    if fns == [] then es else WithoutAll(Without(es, fns[0]), fns[1..])
  }

  lemma NoCalls<F>()
    ensures CallsOf<F>([]) == []
  {
  }

  lemma {:induction false} CallsConcat<F>(a: seq<Firing<F>>, b: seq<Firing<F>>)
    ensures CallsOf(a + b) == CallsOf(a) + CallsOf(b)
  {
    if a == [] {
      assert a + b == b;
    } else {
      CallsConcat(a[1..], b);
      assert (a + b)[1..] == a[1..] + b && (a + b)[0] == a[0];
      hide WithArgs;
      Associative(WithArgs(a[0].args, a[0].work.called), CallsOf(a[1..]), CallsOf(b));
    }
  }

  lemma PushKeepsOrder<F>(es: seq<Entry<F>>, fns: seq<F>, next: nat)
    requires Increasing(es) && Below(es, next)
    ensures Increasing(es + Stamp(fns, next)) && Below(es + Stamp(fns, next), next + |fns|)
  {
    var stamped := Stamp(fns, next);
    assert Increasing(stamped);
    assert forall e :: e in stamped ==> next <= e.reg < next + |fns|;
    Glue(es, stamped);
  }

  lemma SplitAppend<F>(es: seq<Entry<F>>, more: seq<Entry<F>>, cut: nat)
    requires cut <= |es|
    ensures (es + more)[..cut] == es[..cut] && (es + more)[cut..] == es[cut..] + more
  {
  }

  /** Splicing on one side of a cut leaves the other side alone. */
  lemma SpliceSlices<F>(es: seq<Entry<F>>, cut: nat, d: nat)
    requires d < |es| && cut <= |es|
    ensures var s := es[..d] + es[d + 1..];
      && (d < cut ==> s[..cut - 1] == es[..cut][..d] + es[..cut][d + 1..] && s[cut - 1..] == es[cut..])
      && (d >= cut ==> s[..cut] == es[..cut] && s[cut..] == es[cut..][..d - cut] + es[cut..][d - cut + 1..])
  {
  }

  lemma SpliceFront<T>(s: seq<T>, d: nat)
    requires d < |s|
    ensures |s[..d] + s[d + 1..]| == |s| - 1 && (s[..d] + s[d + 1..])[..d] == s[..d]
  {
  }

  lemma SpliceKeepsOrder<F>(es: seq<Entry<F>>, d: nat)
    requires d < |es| && Increasing(es)
    ensures Increasing(es[..d] + es[d + 1..])
    ensures forall e :: e in es[..d] + es[d + 1..] ==> e in es
  {
    assert es == es[..d] + [es[d]] + es[d + 1..];
    Unglue(es[..d] + [es[d]], es[d + 1..]);
    Unglue(es[..d], [es[d]]);
    forall x, y | x in es[..d] && y in es[d + 1..] ensures x.reg < y.reg {
      assert x in es[..d] + [es[d]];
    }
    Glue(es[..d], es[d + 1..]);
  }
}
