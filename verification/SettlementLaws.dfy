/** Which handlers a settlement calls, said in terms of the places of the requests, and what a run of requests adds
    to the history. */
module SettlementLaws {
  import opened Collections
  import opened Deferred

  /** How many handlers have been registered for a side. */
  function Count(history: seq<Request>, side: Side): nat {
    if history == [] then 0
    else (if history[0].Register? && history[0].side == side then 1 else 0) + Count(history[1..], side)
  }

  lemma {:induction false} CountMore(history: seq<Request>, r: Request, side: Side)
    ensures Count(history + [r], side) == Count(history, side) + if r.Register? && r.side == side then 1 else 0
  {
    if history == [] {
      assert [] + [r] == [r] && [r][1..] == [];
    } else {
      assert (history + [r])[1..] == history[1..] + [r] && (history + [r])[0] == history[0];
      CountMore(history[1..], r, side);
    }
  }

  lemma {:induction false} RegisteredAt(history: seq<Request>, side: Side)
    ensures |Registered(history, side)| == Count(history, side)
    ensures forall p :: 0 <= p < |history| && history[p].Register? && history[p].side == side ==>
      Count(history[..p], side) < Count(history, side)
        && Registered(history, side)[Count(history[..p], side)] == history[p].id
  {
    if history != [] {
      var n := |history| - 1;
      var less, r := history[..n], history[n];
      assert history == less + [r];
      RegisteredAt(less, side);
      CountMore(less, r, side);
      Appended(less, r);
      forall p | 0 <= p < n ensures history[..p] == less[..p] && history[p] == less[p] {
      }
      hide Registered, Count;
      assert history[..n] == less;
    }
  }

  /** The settlement of the history is its `f`-th request. */
  ghost predicate SettledAt(history: seq<Request>, f: nat) {
    f < |history| && history[f].Settle? && forall j :: 0 <= j < f ==> history[j].Register?
  }

  /** Every handler registered for the settled side, before the settlement or after it, is due once, at the place
      that is the number of those registered before it, with the arguments of the settlement; and nothing else. */
  lemma CallsDue(history: seq<Request>, f: nat)
    requires SettledAt(history, f)
    ensures |Expected(history)| == Count(history, history[f].side)
    ensures forall p :: 0 <= p < |history| && history[p].Register? && history[p].side == history[f].side ==>
      var k := Count(history[..p], history[f].side);
      k < |Expected(history)| && Expected(history)[k] == Call(history[f].side, history[p].id, history[f].args)
  {
    FirstSettlementCounts(history);
    RegisteredAt(history, history[f].side);
    hide SettledBy, Registered, Count;
  }

  lemma NothingDueYet(history: seq<Request>)
    requires forall r :: r in history ==> r.Register?
    ensures Expected(history) == []
  {
    FirstSettlementCounts(history);
  }

  // ---------------------------------------------------------------- runs

  lemma ExpectedGrows(history: seq<Request>, more: seq<Request>)
    ensures |Expected(history)| <= |Expected(history + more)|
  {
    if SettledBy(history).Some? {
      SettledForEver(history, more);
    }
  }

  lemma FlattenFront(script: seq<seq<Request>>)
    requires script != []
    ensures Flatten(script) == script[0] + Flatten(script[1..])
  {
    FlattenParts(script, 1, |script| - 1);
    FlattenNext(script, 0);
    assert script[..1 + (|script| - 1)] == script && script[1..][..|script| - 1] == script[1..];
    assert Flatten(script[..0]) == [];
    hide Flatten;
    assert [] + script[0] == script[0];
  }

  /** The next script and `m` more. */
  lemma UsedMore(history: seq<Request>, script: seq<seq<Request>>, m: nat)
    requires m < |script|
    ensures (history + script[0]) + Flatten(script[1..][..m]) == history + Flatten(script[..m + 1])
  {
    assert script[..m + 1][1..] == script[1..][..m];
    FlattenFront(script[..m + 1]);
    hide Flatten;
    Associative(history, script[0], Flatten(script[1..][..m]));
  }

  lemma UsedNone(history: seq<Request>, script: seq<seq<Request>>)
    ensures script[0..] == script && history + Flatten(script[..0]) == history
  {
  }

  lemma AnsweredUnfolds(history: seq<Request>, made: nat, script: seq<seq<Request>>)
    ensures Answered(history, made, script) ==
      if made >= |Expected(history)| then Answer(history, script, true)
      else if script == [] then Answer(history, script, false)
      else Answered(history + script[0], made + 1, script[1..])
  {
    hide Expected;
  }

  /** After a request the handlers due are called one by one, each with the next script, whose requests follow at
      once. Nobody is called who is not due, and it ends only when all due have been called, or without a script. */
  lemma {:induction false} AnsweredIs(history: seq<Request>, made: nat, script: seq<seq<Request>>) returns (n: nat)
    requires made <= |Expected(history)|
    ensures var a := Answered(history, made, script);
      && n <= |script| && a.rest == script[n..] && a.history == history + Flatten(script[..n])
      && (forall m :: 0 <= m < n ==> made + m < |Expected(history + Flatten(script[..m]))|)
      && made + n <= |Expected(a.history)|
      && (if a.finished then made + n == |Expected(a.history)| else a.rest == [] && made + n < |Expected(a.history)|)
    decreases |script|
  {
    hide *;
    AnsweredUnfolds(history, made, script);
    UsedNone(history, script);
    if made == |Expected(history)| || script == [] {
      n := 0;
    } else {
      ExpectedGrows(history, script[0]);
      n := AnsweredIs(history + script[0], made + 1, script[1..]);
      assert script[1..][n..] == script[n + 1..];
      UsedMore(history, script, n);
      forall m | 0 <= m < n + 1 ensures made + m < |Expected(history + Flatten(script[..m]))| {
        if m > 0 {
          UsedMore(history, script, m - 1);
        }
      }
      n := n + 1;
    }
  }

  /** One request of the program. */
  lemma AnswerOne(history: seq<Request>, r: Request, script: seq<seq<Request>>)
    ensures AnswerAll(history, [r], script) == Answered(history + [r], |Expected(history)|, script)
  {
    assert [r][1..] == [];
    var a := Answered(history + [r], |Expected(history)|, script);
    hide Answered, Expected;
    assert AnswerAll(a.history, [], a.rest) == Answer(a.history, a.rest, true);
  }

  /** The requests of a program are made one after the other: the second part begins where the first has ended, and
      not at all if that has not ended. */
  lemma {:induction false} AnswerParts(history: seq<Request>, first: seq<Request>, second: seq<Request>,
      script: seq<seq<Request>>)
    ensures var a := AnswerAll(history, first, script);
      AnswerAll(history, first + second, script) == if a.finished then AnswerAll(a.history, second, a.rest) else a
    decreases |first|
  {
    if first == [] {
      assert first + second == second;
    } else {
      assert (first + second)[1..] == first[1..] + second && (first + second)[0] == first[0];
      var a := Answered(history + [first[0]], |Expected(history)|, script);
      if a.finished {
        AnswerParts(a.history, first[1..], second, a.rest);
      }
      hide Answered, Expected;
    }
  }

  /** In a finished run as many scripts are used as handlers become due. */
  lemma {:induction false} AnswerAllIs(history: seq<Request>, program: seq<Request>, script: seq<seq<Request>>)
      returns (n: nat)
    ensures var a := AnswerAll(history, program, script);
      && n <= |script| && a.rest == script[n..] && history <= a.history
      && (a.finished ==> |Expected(history)| + n == |Expected(a.history)|)
      && (a.finished ==>
            multiset(a.history) == multiset(history) + multiset(program) + multiset(Flatten(script[..n])))
      && (!a.finished ==> a.rest == [] && |Expected(history)| + n < |Expected(a.history)|)
    decreases |program|
  {
    hide *;
    AnswerAllUnfolds(history, program, script);
    UsedNone(history, script);
    if program == [] {
      n := 0;
      assert Flatten(script[..0]) == [] by { UsedNone([], script); }
    } else {
      var h := history + [program[0]];
      ExpectedGrows(history, [program[0]]);
      var a := Answered(h, |Expected(history)|, script);
      n := AnsweredIs(h, |Expected(history)|, script);
      assert program == [program[0]] + program[1..];
      if a.finished {
        var k := AnswerAllIs(a.history, program[1..], a.rest);
        FlattenParts(script, n, k);
        assert script[n..][k..] == script[n + k..];
        n := n + k;
      }
    }
  }

  lemma AnswerAllUnfolds(history: seq<Request>, program: seq<Request>, script: seq<seq<Request>>)
    ensures AnswerAll(history, program, script) ==
      if program == [] then Answer(history, script, true)
      else
        var a := Answered(history + [program[0]], |Expected(history)|, script);
        if !a.finished then a else AnswerAll(a.history, program[1..], a.rest)
  {
    hide Answered, Expected;
  }

  lemma {:induction false} FlattenParts(script: seq<seq<Request>>, n: nat, k: nat)
    requires n + k <= |script|
    ensures Flatten(script[..n + k]) == Flatten(script[..n]) + Flatten(script[n..][..k])
    decreases k
  {
    if k == 0 {
      assert script[n..][..0] == [];
    } else {
      FlattenParts(script, n, k - 1);
      FlattenNext(script, n + k - 1);
      FlattenNext(script[n..], k - 1);
      Associative(Flatten(script[..n]), Flatten(script[n..][..k - 1]), script[n + k - 1]);
    }
  }
}
