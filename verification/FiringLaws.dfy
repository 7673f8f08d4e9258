/** What `add`, `remove` and `fire` mean to a list of callbacks, said without the functions that carry them
    out: over the calls a running function makes, over a firing, and over a whole program. */
module FiringLaws {
  import opened Collections
  import opened Callbacks

  // ---------------------------------------------------------------- one call

  /** The entries whose function is none of these, in their order. */
  function Others<F(==)>(es: seq<Entry<F>>, fns: seq<F>): seq<Entry<F>> {
    if es == [] then [] else (if es[0].fn in fns then [] else [es[0]]) + Others(es[1..], fns)
  }

  /** New entries for these functions, in order, with numbers not given out before. */
  ghost predicate AreNew<F>(es: seq<Entry<F>>, fns: seq<F>, next: nat) {
    |es| == |fns| && forall i :: 0 <= i < |es| ==> es[i].fn == fns[i] && es[i].reg == next + i
  }

  lemma {:induction false} OthersAre<F>(es: seq<Entry<F>>, fns: seq<F>)
    ensures forall e :: e in Others(es, fns) <==> e in es && e.fn !in fns
  {
    if es != [] {
      OthersAre(es[1..], fns);
      assert forall e :: e in es <==> e == es[0] || e in es[1..];
    }
  }

  lemma {:induction false} OthersConcat<F>(a: seq<Entry<F>>, b: seq<Entry<F>>, fns: seq<F>)
    ensures Others(a + b, fns) == Others(a, fns) + Others(b, fns)
  {
    if a == [] {
      assert a + b == b;
    } else {
      assert (a + b)[1..] == a[1..] + b && (a + b)[0] == a[0];
      OthersConcat(a[1..], b, fns);
      Associative(if a[0].fn in fns then [] else [a[0]], Others(a[1..], fns), Others(b, fns));
    }
  }

  lemma {:induction false} WithoutOthers<F>(es: seq<Entry<F>>, fns: seq<F>)
    requires fns != []
    ensures Others(Without(es, fns[0]), fns[1..]) == Others(es, fns)
  {
    if es != [] {
      WithoutOthers(es[1..], fns);
      var x := if es[0].fn == fns[0] then [] else [es[0]];
      OthersConcat(x, Without(es[1..], fns[0]), fns[1..]);
      assert es[0].fn in fns <==> es[0].fn == fns[0] || es[0].fn in fns[1..] by { assert fns == [fns[0]] + fns[1..]; }
      assert x != [] ==> x[1..] == [];
    }
  }

  lemma {:induction false} OthersOfNone<F>(es: seq<Entry<F>>, fns: seq<F>)
    requires fns == []
    ensures Others(es, fns) == es
  {
    if es != [] {
      OthersOfNone(es[1..], fns);
    }
  }

  /** `remove` from outside a firing. */
  lemma {:induction false} WithoutAllIs<F>(es: seq<Entry<F>>, fns: seq<F>)
    ensures WithoutAll(es, fns) == Others(es, fns)
    decreases |fns|
  {
    if fns == [] {
      OthersOfNone(es, fns);
    } else {
      WithoutAllIs(Without(es, fns[0]), fns[1..]);
      WithoutOthers(es, fns);
    }
  }

  lemma {:induction false} RemoveEachIs<F>(w: Work<F>, fns: seq<F>)
    ensures var v := RemoveEach(w, fns);
      && v.past == Others(w.past, fns) && v.todo == Others(w.todo, fns) && w.dropped <= v.dropped
      && (forall e :: e in w.todo && e.fn in fns ==> e in v.dropped)
      && v.queued == w.queued && v.next == w.next && v.called == w.called && v.scope == w.scope
    decreases fns
  {
    if fns == [] {
      OthersOfNone(w.past, fns);
      OthersOfNone(w.todo, fns);
    } else {
      var u := RemoveOne(w, fns[0]);
      RemoveEachIs(u, fns[1..]);
      WithoutOthers(w.past, fns);
      WithoutOthers(w.todo, fns);
      OnlyIs(w.todo, fns[0]);
      assert fns == [fns[0]] + fns[1..];
      hide Others, Without, Only, RemoveEach;
      assert forall e :: e in w.todo && e.fn in fns ==> e in u.dropped || (e in u.todo && e.fn in fns[1..]);
    }
  }

  lemma {:induction false} OnlyIs<F>(es: seq<Entry<F>>, fn: F)
    ensures forall e :: e in Only(es, fn) <==> e in es && e.fn == fn
    ensures forall e :: e in Without(es, fn) <==> e in es && e.fn != fn
  {
    if es != [] {
      OnlyIs(es[1..], fn);
      assert forall e :: e in es <==> e == es[0] || e in es[1..];
    }
  }

  /** What a call made by a running function does. `remove` takes every entry of its functions out, those due
      among them, and leaves the others due in their order; `add` makes new entries due, behind all others;
      `fire` asks for one more firing, on a list that queues them. */
  lemma PerformIs<F>(w: Work<F>, op: Op<F>, once: bool)
    ensures var v := Perform(w, op, once);
      && v.called == w.called
      && (op.Remove? ==>
            && v.past == Others(w.past, op.fns) && v.todo == Others(w.todo, op.fns)
            && w.dropped <= v.dropped && (forall e :: e in w.todo && e.fn in op.fns ==> e in v.dropped)
            && v.queued == w.queued && v.scope == w.scope && v.next == w.next)
      && (op.Add? ==>
            && v.past == w.past && w.todo <= v.todo && AreNew(v.todo[|w.todo|..], op.fns, w.next)
            && v.scope == w.scope + v.todo[|w.todo|..] && v.next == w.next + |op.fns|
            && v.dropped == w.dropped && v.queued == w.queued)
      && (op.Fire? ==> v == if once then w else w.(queued := w.queued + [op.args]))
  {
    match op {
      case Add(fns) =>
        var es := Stamp(fns, w.next);
        assert (w.todo + es)[|w.todo|..] == es;
        hide Stamp;
      case Remove(fns) =>
        RemoveEachIs(w, fns);
        hide Others, RemoveEach;
      case Fire(_) =>
    }
  }

  /** A call leaves the list as it is: what is called is the first entry due. */
  lemma CallIs<F>(w: Work<F>)
    requires w.todo != []
    ensures var v := CallFirst(w);
      && v.called == w.called + [w.todo[0]] && v.past + v.todo == w.past + w.todo && v.todo == w.todo[1..]
      && v.dropped == w.dropped && v.scope == w.scope && v.queued == w.queued && v.next == w.next
  {
    assert w.todo == [w.todo[0]] + w.todo[1..];
  }

  // ---------------------------------------------------------------- one firing

  /** The firing when its `k`-th function, counted from 0, has made the first `m` of its calls. */
  function AtCall<F(==)>(w: Work<F>, script: seq<seq<Op<F>>>, once: bool, k: nat, m: nat): Work<F>
    requires k < |script| && m <= |script[k]| && Pass(w, script[..k], once).0.todo != []
  {
    PerformAll(CallFirst(Pass(w, script[..k], once).0), script[k][..m], once)
  }

  lemma {:induction false} PerformAllSplit<F>(w: Work<F>, ops: seq<Op<F>>, once: bool, m: nat)
    requires m <= |ops|
    ensures PerformAll(w, ops, once) == PerformAll(PerformAll(w, ops[..m], once), ops[m..], once)
    decreases m
  {
    if m == 0 {
      assert ops[..0] == [] && ops[0..] == ops;
    } else {
      assert ops[..m][0] == ops[0] && ops[..m][1..] == ops[1..][..m - 1] && ops[1..][m - 1..] == ops[m..];
      PerformAllSplit(Perform(w, ops[0], once), ops[1..], once, m - 1);
    }
  }

  /** A firing goes on where a part of it ended. */
  lemma {:induction false} PassAt<F>(w: Work<F>, script: seq<seq<Op<F>>>, once: bool, k: nat)
    requires k < |script| && Pass(w, script[..k], once).0.todo != []
    ensures Pass(w, script, once) ==
      Pass(PerformAll(CallFirst(Pass(w, script[..k], once).0), script[k], once), script[k + 1..], once)
    decreases k
  {
    if k == 0 {
      assert script[..0] == [];
    } else {
      assert w.todo != [];
      assert script[..k][0] == script[0] && script[..k][1..] == script[1..][..k - 1];
      assert script[1..][k - 1] == script[k] && script[1..][k..] == script[k + 1..];
      hide PerformAll, CallFirst;
      PassAt(PerformAll(CallFirst(w), script[0], once), script[1..], once, k - 1);
    }
  }

  /** From any call on, what was called, dropped and ever due only grows, and stays in order. */
  lemma PassFrom<F>(w: Work<F>, script: seq<seq<Op<F>>>, once: bool, k: nat, m: nat)
    requires WorkInv(w) && k < |script| && m < |script[k]| && Pass(w, script[..k], once).0.todo != []
    ensures var u, end := AtCall(w, script, once, k, m), Pass(w, script, once).0;
      var v := Perform(u, script[k][m], once);
      && WorkInv(u) && WorkInv(end) && v.scope <= end.scope && v.called <= end.called && v.dropped <= end.dropped
  {
    hide *;
    var u := AtCall(w, script, once, k, m);
    var p, ops := Pass(w, script[..k], once).0, script[k];
    AtCallIs(w, script, once, k, m);
    PassKeeps(w, script[..k], once);
    CallFirstKeeps(p);
    PerformAllKeeps(CallFirst(p), ops[..m], once);
    var v := Perform(u, ops[m], once);
    PerformKeeps(u, ops[m], once);
    PerformAllKeeps(v, ops[m + 1..], once);
    var next := PerformAll(v, ops[m + 1..], once);
    assert next == PerformAll(CallFirst(p), ops, once) by {
      PerformAllSplit(CallFirst(p), ops, once, m);
      assert ops[m..][0] == ops[m] && ops[m..][1..] == ops[m + 1..];
      PerformAllUnfolds(u, ops[m..], once);
    }
    PassAt(w, script, once, k);
    PassKeeps(next, script[k + 1..], once);
  }

  lemma AtCallIs<F>(w: Work<F>, script: seq<seq<Op<F>>>, once: bool, k: nat, m: nat)
    requires k < |script| && m <= |script[k]| && Pass(w, script[..k], once).0.todo != []
    ensures AtCall(w, script, once, k, m) == PerformAll(CallFirst(Pass(w, script[..k], once).0), script[k][..m], once)
  {
    hide PerformAll, CallFirst, Pass;
  }

  /** A removal counts: if a running function removes `fns`, an entry due at that moment whose function is among
      them is not called afterwards; it has lost its turn. */
  lemma RemovalCounts<F>(w: Work<F>, script: seq<seq<Op<F>>>, once: bool, k: nat, m: nat, e: Entry<F>)
    requires WorkInv(w) && k < |script| && m < |script[k]| && Pass(w, script[..k], once).0.todo != []
    requires script[k][m].Remove? && e in AtCall(w, script, once, k, m).todo && e.fn in script[k][m].fns
    ensures var end := Pass(w, script, once).0; e in end.dropped && e !in end.called && e !in end.todo
  {
    PassFrom(w, script, once, k, m);
    var u, end := AtCall(w, script, once, k, m), Pass(w, script, once).0;
    PerformIs(u, script[k][m], once);
    assert e in end.dropped;
    hide *;
    OnlyOnce(end, e);
  }

  lemma OnlyOnce<F>(w: Work<F>, e: Entry<F>)
    requires WorkInv(w)
    ensures multiset(w.called)[e] + multiset(w.dropped)[e] + multiset(w.todo)[e] <= 1
    ensures e in w.dropped ==> e !in w.called && e !in w.todo
    ensures e in w.scope ==> multiset(w.called)[e] + multiset(w.dropped)[e] + multiset(w.todo)[e] == 1
  {
    IncreasingUnique(w.scope, e);
    hide Increasing, Below, Before;
    assert e in w.dropped ==> multiset(w.dropped)[e] > 0;
    assert e in w.called ==> multiset(w.called)[e] > 0;
    assert e in w.todo ==> multiset(w.todo)[e] > 0;
  }

  /** An addition counts: the functions a running function adds are due from then on, so that each of the new
      entries is called once, loses its turn to a later removal, or is still due where the script ends. */
  lemma AdditionCounts<F>(w: Work<F>, script: seq<seq<Op<F>>>, once: bool, k: nat, m: nat, i: nat)
    requires WorkInv(w) && k < |script| && m < |script[k]| && Pass(w, script[..k], once).0.todo != []
    requires script[k][m].Add? && i < |script[k][m].fns|
    ensures var e := Entry(script[k][m].fns[i], AtCall(w, script, once, k, m).next + i);
      var end := Pass(w, script, once).0;
      e in end.scope && multiset(end.called)[e] + multiset(end.dropped)[e] + multiset(end.todo)[e] == 1
  {
    PassFrom(w, script, once, k, m);
    var u, end := AtCall(w, script, once, k, m), Pass(w, script, once).0;
    PerformIs(u, script[k][m], once);
    var v := Perform(u, script[k][m], once);
    var e := Entry(script[k][m].fns[i], u.next + i);
    assert v.todo[|u.todo|..][i] == e;
    assert v.scope[|u.scope| + i] == e;
    assert e in end.scope;
    hide *;
    OnlyOnce(end, e);
  }

  // ---------------------------------------------------------------- the firings asked for

  /** The arguments of the firings that some calls ask for, in order. */
  function Asked<F>(ops: seq<Op<F>>): seq<int> {
    if ops == [] then [] else (if ops[0].Fire? then [ops[0].args] else []) + Asked(ops[1..])
  }

  function AskedAll<F>(script: seq<seq<Op<F>>>): seq<int> {
    if script == [] then [] else Asked(script[0]) + AskedAll(script[1..])
  }

  function ArgsOf<F>(firings: seq<Firing<F>>): seq<int> {
    if firings == [] then [] else [firings[0].args] + ArgsOf(firings[1..])
  }

  lemma {:induction false} PerformAllAsks<F>(w: Work<F>, ops: seq<Op<F>>, once: bool)
    ensures PerformAll(w, ops, once).queued == w.queued + if once then [] else Asked(ops)
    decreases ops
  {
    if ops == [] {
      assert w.queued + [] == w.queued;
    } else {
      var v := Perform(w, ops[0], once);
      PerformIs(w, ops[0], once);
      PerformAllAsks(v, ops[1..], once);
      hide Perform;
      if !once {
        Associative(w.queued, if ops[0].Fire? then [ops[0].args] else [], Asked(ops[1..]));
        assert w.queued + [] == w.queued;
      }
    }
  }

  ghost predicate Suffix<T>(a: seq<T>, b: seq<T>) {
    |a| <= |b| && a == b[|b| - |a|..]
  }

  lemma SuffixOfSuffix<T>(a: seq<T>, b: seq<T>, c: seq<T>)
    requires Suffix(a, b) && Suffix(b, c)
    ensures Suffix(a, c) && c[..|c| - |a|] == c[..|c| - |b|] + b[..|b| - |a|]
  {
  }

  lemma {:induction false} PassAsks<F>(w: Work<F>, script: seq<seq<Op<F>>>, once: bool)
    ensures var (v, rest) := Pass(w, script, once);
      Suffix(rest, script) && v.queued == w.queued + if once then [] else AskedAll(script[..|script| - |rest|])
    decreases |script|
  {
    hide *;
    PassUnfolds(w, script, once);
    if w.todo == [] || script == [] {
      NothingAsked(script);
      assert w.queued + [] == w.queued;
    } else {
      var called := CallFirst(w);
      var next := PerformAll(called, script[0], once);
      CallIs(w);
      PerformAllAsks(called, script[0], once);
      PassAsks(next, script[1..], once);
      var rest := Pass(next, script[1..], once).1;
      AskedFirst(script, rest);
      if !once {
        Associative(w.queued, Asked(script[0]), AskedAll(script[1..][..|script| - 1 - |rest|]));
      } else {
        assert w.queued + [] + [] == w.queued + [];
      }
    }
  }

  lemma PassUnfolds<F>(w: Work<F>, script: seq<seq<Op<F>>>, once: bool)
    ensures Pass(w, script, once) == if w.todo == [] || script == [] then (w, script)
      else Pass(PerformAll(CallFirst(w), script[0], once), script[1..], once)
  {
    hide PerformAll, CallFirst;
  }

  lemma NothingAsked<F>(script: seq<seq<Op<F>>>)
    ensures AskedAll(script[..|script| - |script|]) == [] && Suffix(script, script)
  {
  }

  lemma AskedFirst<F>(script: seq<seq<Op<F>>>, rest: seq<seq<Op<F>>>)
    requires script != [] && Suffix(rest, script[1..])
    ensures Suffix(rest, script) && |rest| < |script|
    ensures AskedAll(script[..|script| - |rest|]) == Asked(script[0]) + AskedAll(script[1..][..|script| - 1 - |rest|])
  {
    var n := |script| - |rest|;
    assert script[..n][0] == script[0] && script[..n][1..] == script[1..][..n - 1];
    hide Asked;
  }

  lemma {:induction false} AskedConcat<F>(a: seq<seq<Op<F>>>, b: seq<seq<Op<F>>>)
    ensures AskedAll(a + b) == AskedAll(a) + AskedAll(b)
  {
    if a == [] {
      assert a + b == b;
    } else {
      assert (a + b)[1..] == a[1..] + b && (a + b)[0] == a[0];
      AskedConcat(a[1..], b);
      Associative(Asked(a[0]), AskedAll(a[1..]), AskedAll(b));
    }
  }

  lemma {:induction false} FireAllRest<F>(list: seq<Entry<F>>, start: nat, queued: seq<int>, next: nat, args: int,
      script: seq<seq<Op<F>>>, once: bool)
    requires start <= |list|
    ensures Suffix(FireAll(list, start, queued, next, args, script, once).rest, script)
    decreases |script|, |queued|
  {
    var w0 := Begin(list[..start], list[start..], queued, next);
    var (w, rest) := Pass(w0, script, once);
    FireAllUnfolds(list, start, queued, next, args, script, once);
    PassAsks(w0, script, once);
    hide *;
    if !(w.todo != [] || once || w.queued == []) {
      FireAllRest(w.past, 0, w.queued[1..], w.next, w.queued[0], rest, once);
      SuffixOfSuffix(FireAll(w.past, 0, w.queued[1..], w.next, w.queued[0], rest, once).rest, rest, script);
    }
  }

  /** A list that queues its firings makes, one after the other, the firing asked for first, those queued, and
      those that the functions called ask for, in that order and with their arguments; any other makes one. */
  lemma {:induction false} FiringsAre<F>(list: seq<Entry<F>>, start: nat, queued: seq<int>, next: nat, args: int,
      script: seq<seq<Op<F>>>, once: bool)
    requires start <= |list|
    ensures var o := FireAll(list, start, queued, next, args, script, once);
      && o.firings[0].args == args && o.firings[0].due == list[start..] && Suffix(o.rest, script)
      && (once ==> |o.firings| == 1)
      && (o.finished && !once ==> ArgsOf(o.firings) == [args] + queued + AskedAll(script[..|script| - |o.rest|]))
    decreases |script|, |queued|
  {
    hide *;
    var w0 := Begin(list[..start], list[start..], queued, next);
    var (w, rest) := Pass(w0, script, once);
    var firing := Firing(args, list[start..], w);
    BeginIs(list[..start], list[start..], queued, next);
    FireAllUnfolds(list, start, queued, next, args, script, once);
    FireAllRest(list, start, queued, next, args, script, once);
    PassAsks(w0, script, once);
    SuffixIs(rest, script);
    var o := FireAll(list, start, queued, next, args, script, once);
    var asked := AskedAll(script[..|script| - |rest|]);
    if w.todo != [] || once || w.queued == [] {
      assert o.firings == [firing];
      OneFiring(firing);
      if !once && w.todo == [] {
        assert queued + asked == [];
        assert [args] + queued + asked == [args];
      }
    } else {
      FiringsAre(w.past, 0, w.queued[1..], w.next, w.queued[0], rest, once);
      var p := FireAll(w.past, 0, w.queued[1..], w.next, w.queued[0], rest, once);
      assert o.firings == [firing] + p.firings;
      FiringFirst(firing, p.firings);
      SuffixOfSuffix(p.rest, rest, script);
      AskedConcat(script[..|script| - |rest|], rest[..|rest| - |p.rest|]);
      QueuedNext(args, queued, w.queued, asked, AskedAll(rest[..|rest| - |p.rest|]));
    }
  }

  /** A queued firing begins when the one before it is over, and what is due in it is all that this one has left. */
  ghost predicate Follows<F>(f: Firing<F>, g: Firing<F>) {
    f.work.todo == [] && g.due == f.work.past
  }

  lemma {:induction false} FiringsFollow<F>(list: seq<Entry<F>>, start: nat, queued: seq<int>, next: nat, args: int,
      script: seq<seq<Op<F>>>, once: bool)
    requires start <= |list|
    ensures var o := FireAll(list, start, queued, next, args, script, once);
      && o.firings[0].due == list[start..]
      && forall i :: 0 <= i < |o.firings| - 1 ==> Follows(o.firings[i], o.firings[i + 1])
    decreases |script|, |queued|
  {
    var w0 := Begin(list[..start], list[start..], queued, next);
    var (w, rest) := Pass(w0, script, once);
    FireAllUnfolds(list, start, queued, next, args, script, once);
    var o := FireAll(list, start, queued, next, args, script, once);
    hide *;
    if !(w.todo != [] || once || w.queued == []) {
      FiringsFollow(w.past, 0, w.queued[1..], w.next, w.queued[0], rest, once);
      var p := FireAll(w.past, 0, w.queued[1..], w.next, w.queued[0], rest, once);
      var first := Firing(args, list[start..], w);
      assert w.past[0..] == w.past;
      assert Follows(first, p.firings[0]) by { FollowsIs(first, p.firings[0]); }
      forall i | 0 <= i < |o.firings| - 1 ensures Follows(o.firings[i], o.firings[i + 1]) {
        assert o.firings[i + 1] == p.firings[i];
        if i > 0 { assert Follows(p.firings[i - 1], p.firings[i]); }
      }
    }
  }

  lemma FollowsIs<F>(f: Firing<F>, g: Firing<F>)
    ensures Follows(f, g) <==> f.work.todo == [] && g.due == f.work.past
  {
  }

  lemma BeginIs<F>(past: seq<Entry<F>>, todo: seq<Entry<F>>, queued: seq<int>, next: nat)
    ensures Begin(past, todo, queued, next).queued == queued
  {
  }

  lemma SuffixIs<T>(a: seq<T>, b: seq<T>)
    ensures Suffix(a, b) <==> |a| <= |b| && a == b[|b| - |a|..]
  {
  }

  lemma OneFiring<F>(f: Firing<F>)
    ensures ArgsOf([f]) == [f.args]
  {
    assert [f][1..] == [];
  }

  lemma FiringFirst<F>(f: Firing<F>, firings: seq<Firing<F>>)
    ensures ArgsOf([f] + firings) == [f.args] + ArgsOf(firings)
  {
    assert ([f] + firings)[1..] == firings;
  }

  lemma QueuedNext(args: int, queued: seq<int>, now: seq<int>, a: seq<int>, b: seq<int>)
    requires now == queued + a && now != []
    ensures [args] + ([now[0]] + now[1..] + b) == [args] + queued + (a + b)
  {
    assert now == [now[0]] + now[1..];
  }

  // ---------------------------------------------------------------- the calls of a run

  lemma {:induction false} WithArgsIs<F>(args: int, es: seq<Entry<F>>)
    ensures |WithArgs(args, es)| == |es|
    ensures forall j :: 0 <= j < |es| ==> WithArgs(args, es)[j] == (args, es[j])
  {
    if es != [] {
      WithArgsIs(args, es[1..]);
    }
  }

  /** Each firing calls its entries, in order, with its own arguments, and behind the calls of the firings before
      it; there are no other calls. */
  lemma CallsAre<F>(firings: seq<Firing<F>>, i: nat)
    requires i < |firings|
    ensures var before, called := CallsOf(firings[..i]), firings[i].work.called;
      && |before| + |called| <= |CallsOf(firings)| && before <= CallsOf(firings)
      && (i == |firings| - 1 ==> |before| + |called| == |CallsOf(firings)|)
      && forall j :: 0 <= j < |called| ==> CallsOf(firings)[|before| + j] == (firings[i].args, called[j])
  {
    var before, f, behind := firings[..i], firings[i], firings[i + 1..];
    assert firings == before + ([f] + behind);
    CallsConcat(before, [f] + behind);
    assert ([f] + behind)[1..] == behind;
    WithArgsIs(f.args, f.work.called);
    assert CallsOf([f] + behind) == WithArgs(f.args, f.work.called) + CallsOf(behind);
    assert behind == [] ==> CallsOf(behind) == [];
    hide CallsOf, WithArgs;
  }

  // ---------------------------------------------------------------- a program

  /** A call from outside a firing. `add` puts new entries behind the others and, on a list that remembers
      arguments, fires exactly these with the arguments; `remove` takes every entry of its functions out; `fire`
      fires all entries with its arguments, unless the list is `once` and has been fired; and nothing at all
      happens on a list that is disabled. */
  lemma PlayIs<F>(keepsMemory: bool, l: List<F>, op: Op<F>, script: seq<seq<Op<F>>>)
    requires l.entries.Some?
    ensures var p, es := Play(keepsMemory, l, op, script), l.entries.value;
      && (op.Remove? ==> p == Played(l.(entries := Some(Others(es, op.fns))), [], script, true))
      && (op.Add? && l.memory.None? ==>
            && p.firings == [] && p.finished && p.rest == script && p.list.entries.Some? && es <= p.list.entries.value
            && AreNew(p.list.entries.value[|es|..], op.fns, l.next)
            && p.list == l.(entries := p.list.entries, next := l.next + |op.fns|))
      && (op.Add? && l.memory.Some? ==>
            p.firings != [] && p.firings[0].args == l.memory.value && AreNew(p.firings[0].due, op.fns, l.next))
      && (op.Fire? && l.fired && l.queued.None? ==> p == Played(l, [], script, true))
      && (op.Fire? && !(l.fired && l.queued.None?) ==>
            p.firings != [] && p.firings[0].args == op.args && p.firings[0].due == es)
  {
    var es := l.entries.value;
    match op {
      case Remove(fns) =>
        WithoutAllIs(es, fns);
        hide WithoutAll, Others;
      case Add(fns) =>
        var added := Stamp(fns, l.next);
        assert (es + added)[|es|..] == added;
        var more := l.(entries := Some(es + added), next := l.next + |fns|);
        if l.memory.Some? {
          FiringsAre(es + added, |es|, Queue(l), l.next + |fns|, l.memory.value, script, l.queued.None?);
        }
        hide Stamp, FireAll, Left;
      case Fire(args) =>
        FiringsAre(es, 0, Queue(l), l.next, args, script, l.queued.None?);
        assert es[0..] == es;
        hide FireAll, Left;
    }
  }

  lemma DisabledIs<F>(keepsMemory: bool, l: List<F>, op: Op<F>, script: seq<seq<Op<F>>>)
    requires l.entries.None?
    ensures Play(keepsMemory, l, op, script) == Played(l, [], script, true)
  {
  }

  /** What a firing leaves behind. A list that queues its firings keeps the entries it still has and may be fired
      again; a `once` list is empty if it remembers arguments, and disabled for ever if it does not. In either
      case the arguments remembered are those of the last firing. */
  lemma FiredIs<F>(keepsMemory: bool, l: List<F>, args: int, script: seq<seq<Op<F>>>)
    requires l.entries.Some? && !(l.fired && l.queued.None?)
    ensures var p := Play(keepsMemory, l, Op<F>.Fire(args), script);
      p.finished ==>
        var last := p.firings[|p.firings| - 1];
        && p.firings != [] && p.list.fired && p.list.next == last.work.next
        && p.list.memory == (if keepsMemory then Some(last.args) else None)
        && (l.queued.Some? ==> p.list.entries == Some(last.work.past) && p.list.queued == Some([]))
        && (l.queued.None? && keepsMemory ==> p.list.entries == Some([]) && p.list.queued == None)
        && (l.queued.None? && !keepsMemory ==> p.list.entries == None)
  {
    FireFromIs(keepsMemory, l, 0, args, script);
    hide FireFrom;
  }

  /** A `once` list makes one firing in its life, however often it is asked for; on one that remembers arguments
      only functions added later are called, with these arguments. */
  lemma OnceIsOnce<F>(keepsMemory: bool, l: List<F>, args: int, script: seq<seq<Op<F>>>, op: Op<F>,
      more: seq<seq<Op<F>>>)
    requires l.entries.Some? && !l.fired && l.queued.None?
    ensures var p := Play(keepsMemory, l, Op<F>.Fire(args), script);
      p.finished ==>
        var q := Play(keepsMemory, p.list, op, more);
        && |p.firings| == 1
        && (q.firings != [] ==>
              keepsMemory && op.Add? && q.firings[0].args == args && AreNew(q.firings[0].due, op.fns, p.list.next))
  {
    var p := Play(keepsMemory, l, Op<F>.Fire(args), script);
    FiredIs(keepsMemory, l, args, script);
    FiringsAre(l.entries.value, 0, Queue(l), l.next, args, script, true);
    FireFromIs(keepsMemory, l, 0, args, script);
    if p.finished {
      if p.list.entries.Some? {
        PlayIs(keepsMemory, p.list, op, more);
      }
    }
    hide Play;
  }

  ghost predicate Proper<F>(l: List<F>) {
    l.entries.Some? ==> Increasing(l.entries.value) && Below(l.entries.value, l.next)
  }

  /** The firing is a pass through a part of the script, from a list in order. */
  ghost predicate IsPass<F>(f: Firing<F>, w: Work<F>, script: seq<seq<Op<F>>>, once: bool, i: nat) {
    i <= |script| && WorkInv(w) && w.todo == f.due && w.called == [] && f.work == Pass(w, script[i..], once).0
  }

  /** In every firing of a run a removal counts: see `RemovalCounts`. */
  ghost predicate Honours<F(!new)>(f: Firing<F>, script: seq<seq<Op<F>>>, once: bool) {
    exists w, i: nat :: IsPass(f, w, script, once, i) && HonoursFrom(f, w, script[i..], once)
  }

  ghost predicate HonoursFrom<F(!new)>(f: Firing<F>, w: Work<F>, script: seq<seq<Op<F>>>, once: bool) {
    forall k, m, e | 0 <= k < |script| && 0 <= m < |script[k]| && Pass(w, script[..k], once).0.todo != [] ::
      script[k][m].Remove? && e in AtCall(w, script, once, k, m).todo && e.fn in script[k][m].fns ==>
        e in f.work.dropped && e !in f.work.called && e !in f.work.todo
  }

  lemma BeginInv<F>(list: seq<Entry<F>>, start: nat, queued: seq<int>, next: nat)
    requires start <= |list| && Increasing(list) && Below(list, next)
    ensures WorkInv(Begin(list[..start], list[start..], queued, next))
  {
    assert list == list[..start] + list[start..];
    Unglue(list[..start], list[start..]);
  }

  lemma PassHonours<F(!new)>(f: Firing<F>, w: Work<F>, script: seq<seq<Op<F>>>, once: bool, i: nat)
    requires IsPass(f, w, script, once, i)
    ensures Honours(f, script, once)
  {
    hide Pass, WorkInv, HonoursFrom;
    PassHonoursFrom(f, w, script[i..], once);
  }

  lemma PassHonoursFrom<F(!new)>(f: Firing<F>, w: Work<F>, script: seq<seq<Op<F>>>, once: bool)
    requires WorkInv(w) && f.work == Pass(w, script, once).0
    ensures HonoursFrom(f, w, script, once)
  {
    hide Pass, AtCall, WorkInv;
    forall k, m, e | 0 <= k < |script| && 0 <= m < |script[k]| && Pass(w, script[..k], once).0.todo != []
        && script[k][m].Remove? && e in AtCall(w, script, once, k, m).todo && e.fn in script[k][m].fns
      ensures e in f.work.dropped && e !in f.work.called && e !in f.work.todo
    {
      RemovalCounts(w, script, once, k, m, e);
    }
  }

  lemma {:induction false} FireAllHonours<F(!new)>(list: seq<Entry<F>>, start: nat, queued: seq<int>, next: nat,
      args: int, script: seq<seq<Op<F>>>, once: bool, all: seq<seq<Op<F>>>)
    requires start <= |list| && Increasing(list) && Below(list, next) && Suffix(script, all)
    ensures forall f :: f in FireAll(list, start, queued, next, args, script, once).firings ==> Honours(f, all, once)
    decreases |script|, |queued|
  {
    hide *;
    var w0 := Begin(list[..start], list[start..], queued, next);
    var (w, rest) := Pass(w0, script, once);
    var firing := Firing(args, list[start..], w);
    FireAllUnfolds(list, start, queued, next, args, script, once);
    FirstHonours(list, start, queued, next, args, script, once, all);
    if !(w.todo != [] || once || w.queued == []) {
      FireAllHonours(w.past, 0, w.queued[1..], w.next, w.queued[0], rest, once, all);
      var p := FireAll(w.past, 0, w.queued[1..], w.next, w.queued[0], rest, once);
      forall f | f in [firing] + p.firings ensures Honours(f, all, once) {
        if f != firing { assert f in p.firings; }
      }
    }
  }

  lemma FirstHonours<F(!new)>(list: seq<Entry<F>>, start: nat, queued: seq<int>, next: nat, args: int,
      script: seq<seq<Op<F>>>, once: bool, all: seq<seq<Op<F>>>)
    requires start <= |list| && Increasing(list) && Below(list, next) && Suffix(script, all)
    ensures var (w, rest) := Pass(Begin(list[..start], list[start..], queued, next), script, once);
      && Honours(Firing(args, list[start..], w), all, once) && Suffix(rest, all)
      && (w.todo == [] ==> Increasing(w.past) && Below(w.past, w.next))
  {
    var w0 := Begin(list[..start], list[start..], queued, next);
    var (w, rest) := Pass(w0, script, once);
    var firing := Firing(args, list[start..], w);
    PassKeepsOrder(list, start, queued, next, script, once);
    PassAsks(w0, script, once);
    BeginInv(list, start, queued, next);
    assert IsPass(firing, w0, all, once, |all| - |script|) by { hide Pass, WorkInv, Increasing, Below; }
    hide *;
    PassHonours(firing, w0, all, once, |all| - |script|);
    SuffixOfSuffix(rest, script, all);
  }

  /** The list that the last firing leaves is in order. */
  lemma {:induction false} FireAllKeepsOrder<F>(list: seq<Entry<F>>, start: nat, queued: seq<int>, next: nat,
      args: int, script: seq<seq<Op<F>>>, once: bool)
    requires start <= |list| && Increasing(list) && Below(list, next)
    ensures var o := FireAll(list, start, queued, next, args, script, once);
      var last := o.firings[|o.firings| - 1].work;
      o.finished ==> Increasing(last.past) && Below(last.past, last.next)
    decreases |script|, |queued|
  {
    var w0 := Begin(list[..start], list[start..], queued, next);
    var (w, rest) := Pass(w0, script, once);
    FireAllUnfolds(list, start, queued, next, args, script, once);
    PassKeepsOrder(list, start, queued, next, script, once);
    hide *;
    if !(w.todo != [] || once || w.queued == []) {
      FireAllKeepsOrder(w.past, 0, w.queued[1..], w.next, w.queued[0], rest, once);
    }
  }

  lemma PlayHonours<F(!new)>(keepsMemory: bool, l: List<F>, op: Op<F>, script: seq<seq<Op<F>>>, all: seq<seq<Op<F>>>)
    requires Proper(l) && Suffix(script, all)
    ensures var p := Play(keepsMemory, l, op, script);
      && (forall f :: f in p.firings ==> Honours(f, all, l.queued.None?)) && Suffix(p.rest, script)
      && (p.finished ==> Proper(p.list) && p.list.queued.None? == l.queued.None?)
  {
    if l.entries.Some? {
      var es := l.entries.value;
      match op {
        case Add(fns) =>
          AddPlays(keepsMemory, l, fns, script);
          PushKeepsOrder(es, fns, l.next);
          var more := l.(entries := Some(es + Stamp(fns, l.next)), next := l.next + |fns|);
          hide Play, Stamp, Increasing, Below, Honours;
          if l.memory.Some? {
            FireFromHonours(keepsMemory, more, |es|, l.memory.value, script, all);
          }
        case Remove(fns) =>
          WithoutAllKeepsOrder(es, fns, l.next);
          hide Increasing, Below, WithoutAll;
        case Fire(args) =>
          FireFromHonours(keepsMemory, l, 0, args, script, all);
          hide FireFrom, Increasing, Below, Honours;
      }
    }
  }

  lemma {:induction false} WithoutAllKeepsOrder<F>(es: seq<Entry<F>>, fns: seq<F>, next: nat)
    requires Increasing(es) && Below(es, next)
    ensures Increasing(WithoutAll(es, fns)) && Below(WithoutAll(es, fns), next)
    decreases |fns|
  {
    if fns != [] {
      WithoutIncreasing(es, fns[0]);
      WithoutWithin(es, fns[0]);
      WithoutAllKeepsOrder(Without(es, fns[0]), fns[1..], next);
    }
  }

  lemma FireFromHonours<F(!new)>(keepsMemory: bool, l: List<F>, start: nat, args: int, script: seq<seq<Op<F>>>,
      all: seq<seq<Op<F>>>)
    requires l.entries.Some? && start <= |l.entries.value| && Proper(l) && Suffix(script, all)
    ensures var p := FireFrom(keepsMemory, l, start, args, script);
      && (forall f :: f in p.firings ==> Honours(f, all, l.queued.None?)) && Suffix(p.rest, script)
      && (p.finished ==> Proper(p.list) && p.list.queued.None? == l.queued.None?)
  {
    var es := l.entries.value;
    FireFromIs(keepsMemory, l, start, args, script);
    FireAllHonours(es, start, Queue(l), l.next, args, script, l.queued.None?, all);
    FireAllKeepsOrder(es, start, Queue(l), l.next, args, script, l.queued.None?);
    FireAllRest(es, start, Queue(l), l.next, args, script, l.queued.None?);
    hide *;
    var p := FireFrom(keepsMemory, l, start, args, script);
    if p.finished {
      LeftProper(keepsMemory, l.queued.Some?, p.firings[|p.firings| - 1]);
    }
  }

  lemma LeftProper<F>(keepsMemory: bool, queues: bool, last: Firing<F>)
    requires Increasing(last.work.past) && Below(last.work.past, last.work.next)
    ensures Proper(Left(keepsMemory, queues, last)) && Left(keepsMemory, queues, last).queued.Some? == queues
  {
    hide Increasing, Below;
    EmptyProper<F>(last.work.next);
  }

  lemma EmptyProper<F>(next: nat)
    ensures var none: seq<Entry<F>> := []; Increasing(none) && Below(none, next)
  {
  }

  /** Over a whole program, with functions that add, remove and fire while they are called: in every firing a
      function that is removed before its turn is not called. */
  lemma {:induction false} RunHonours<F(!new)>(keepsMemory: bool, l: List<F>, program: seq<Op<F>>,
      script: seq<seq<Op<F>>>, all: seq<seq<Op<F>>>)
    requires Proper(l) && Suffix(script, all)
    ensures forall f :: f in RunAll(keepsMemory, l, program, script).firings ==> Honours(f, all, l.queued.None?)
    decreases |program|
  {
    if program == [] {
      RunEnds(keepsMemory, l, script);
    } else {
      hide *;
      RunUnfolds(keepsMemory, l, program, script);
      var p := Play(keepsMemory, l, program[0], script);
      PlayHonours(keepsMemory, l, program[0], script, all);
      if p.finished {
        SuffixOfSuffix(p.rest, script, all);
        RunHonours(keepsMemory, p.list, program[1..], p.rest, all);
      }
    }
  }
}
