/** MathJax's `Message`: the active messages form a doubly linked list threaded through the array of
    all messages, most recently activated first. */
module MessageList {
  import opened Collections

  /** A link is missing, null, or an index into the array. */
  datatype Link = Undefined | Null | At(index: int)

  datatype Entry = Entry(next: Link, prev: Link)

  const INACTIVE := Entry(Undefined, Undefined)

  // ---------------------------------------------------------------- what a run leaves active

  datatype Op = Set(e: int) | Clear(e: int)

  function Remove(s: seq<int>, e: int): seq<int> {
    if s == [] then [] else if s[0] == e then Remove(s[1..], e) else [s[0]] + Remove(s[1..], e)
  }

  /** Setting an active message does not move it. */
  function Step(active: seq<int>, op: Op): seq<int> {
    match op
    case Set(e) => if e in active then active else [e] + active
    case Clear(e) => Remove(active, e)
  }

  function ActiveAfter(history: seq<Op>): seq<int> {
    if history == [] then [] else Step(ActiveAfter(history[..|history| - 1]), history[|history| - 1])
  }

  /** The operation since which `e` has been active without a break. */
  function ActiveSince(history: seq<Op>, e: int): Option<nat> {
    if history == [] then None
    else
      var n := |history| - 1;
      var before := ActiveSince(history[..n], e);
      if history[n] == Set(e) then (if before.Some? then before else Some(n))
      else if history[n] == Clear(e) then None
      else before
  }

  /** Every message is given out before it is used, when `n` have been so far. */
  predicate InRange(program: seq<Op>, n: nat)
    decreases |program|
  {
    program == [] || (
      && 0 <= program[0].e && (program[0].Set? ==> program[0].e <= n) && (program[0].Clear? ==> program[0].e < n)
      && InRange(program[1..], if program[0].Set? && program[0].e == n then n + 1 else n))
  }

  lemma {:induction false} RemoveIsExact(s: seq<int>, e: int)
    ensures forall x :: x in Remove(s, e) <==> x in s && x != e
    ensures e !in s ==> Remove(s, e) == s
  {
    if s != [] {
      RemoveIsExact(s[1..], e);
    }
  }

  function Rank(history: seq<Op>, e: int): int {
    var since := ActiveSince(history, e);
    if since.Some? then since.value else -1
  }

  ghost predicate RecentFirst(s: seq<int>, history: seq<Op>) {
    forall i, j :: 0 <= i < j < |s| ==> Rank(history, s[i]) > Rank(history, s[j])
  }

  lemma {:induction false} RemoveKeepsOrder(s: seq<int>, e: int, history: seq<Op>)
    requires RecentFirst(s, history)
    ensures RecentFirst(Remove(s, e), history)
  {
    hide Rank;
    if s != [] {
      var rest := Remove(s[1..], e);
      RemoveKeepsOrder(s[1..], e, history);
      RemoveIsExact(s[1..], e);
      forall x | x in rest ensures Rank(history, s[0]) > Rank(history, x) {
        var k :| 0 <= k < |s[1..]| && s[1..][k] == x;
        assert s[k + 1] == x;
      }
      forall i, j | 0 <= i < j < |[s[0]] + rest|
        ensures Rank(history, ([s[0]] + rest)[i]) > Rank(history, ([s[0]] + rest)[j])
      {
        assert rest[j - 1] in rest;
      }
    }
  }

  /** One more operation changes the rank of its own message only. */
  lemma RankStep(history: seq<Op>, op: Op, e: int)
    ensures op.e != e ==> Rank(history + [op], e) == Rank(history, e)
    ensures op.Clear? && op.e == e ==> Rank(history + [op], e) == -1
    ensures op.Set? && op.e == e ==>
      Rank(history + [op], e) == if Rank(history, e) < 0 then |history| else Rank(history, e)
    ensures -1 <= Rank(history, e)
  {
    assert (history + [op])[..|history|] == history;
  }

  /** After any run of `Set` and `Clear`, repeated ones included, exactly the messages set and not
      cleared since are active, each once, the one activated last first. */
  lemma {:induction false} MostRecentFirst(history: seq<Op>)
    ensures var active := ActiveAfter(history);
      && (forall e :: e in active <==> Rank(history, e) >= 0)
      && (forall e :: Rank(history, e) < |history|)
      && RecentFirst(active, history)
    decreases |history|
  {
    if history == [] {
      assert forall e :: ActiveSince(history, e) == None;
    } else {
      var h, op := history[..|history| - 1], history[|history| - 1];
      MostRecentFirst(h);
      assert history == h + [op] && ActiveAfter(history) == Step(ActiveAfter(h), op);
      hide Rank, ActiveAfter, Step;
      RecentStep(h, op, ActiveAfter(h));
    }
  }

  lemma RecentStep(h: seq<Op>, op: Op, active: seq<int>)
    requires forall e :: e in active <==> Rank(h, e) >= 0
    requires forall e :: Rank(h, e) < |h|
    requires RecentFirst(active, h)
    ensures forall e :: e in Step(active, op) <==> Rank(h + [op], e) >= 0
    ensures forall e :: Rank(h + [op], e) < |h + [op]|
    ensures RecentFirst(Step(active, op), h + [op])
  {
    hide Rank, Step, RecentFirst;
    forall e ensures (e in Step(active, op) <==> Rank(h + [op], e) >= 0) && Rank(h + [op], e) < |h + [op]| {
      MemberStep(h, op, active, e);
    }
    OrderStep(h, op, active);
  }

  lemma MemberStep(h: seq<Op>, op: Op, active: seq<int>, e: int)
    requires e in active <==> Rank(h, e) >= 0
    requires Rank(h, e) < |h|
    ensures e in Step(active, op) <==> Rank(h + [op], e) >= 0
    ensures Rank(h + [op], e) < |h + [op]|
  {
    hide Rank, Remove;
    RemoveIsExact(active, op.e);
    RankStep(h, op, e);
  }

  lemma OrderStep(h: seq<Op>, op: Op, active: seq<int>)
    requires forall e :: e in active <==> Rank(h, e) >= 0
    requires forall e :: Rank(h, e) < |h|
    requires RecentFirst(active, h)
    ensures RecentFirst(Step(active, op), h + [op])
  {
    hide Rank, Remove;
    RemoveIsExact(active, op.e);
    RemoveKeepsOrder(active, op.e, h);
    var now := Step(active, op);
    forall x | x in now ensures x != op.e || (op.Set? && op.e in active) ==> Rank(h + [op], x) == Rank(h, x) {
      RankStep(h, op, x);
    }
    RankStep(h, op, op.e);
    if op.Set? && op.e !in active {
      assert forall j {:trigger now[j]} :: 1 <= j < |now| ==> now[j] == active[j - 1] && now[j] in active;
    }
  }

  lemma ActiveStep(history: seq<Op>, op: Op)
    ensures ActiveAfter(history + [op]) == Step(ActiveAfter(history), op)
  {
    assert (history + [op])[..|history|] == history;
  }

  // ---------------------------------------------------------------- the array

  class Messages {
    var log: seq<Entry>
    var current: Option<int>
    ghost var active: seq<int>
    ghost var history: seq<Op>

    ghost predicate Valid()
      reads this
    {
      && active == ActiveAfter(history) && Distinct(active)
      && Linked(log, current, active)
    }

    constructor ()
      ensures Valid() && history == [] && |log| == 1
    {
      log, current, active, history := [INACTIVE], None, [], [];
    }

    /** `Set`: the index is a new one, or one given out before; a delay of 0 clears the message at
        once. */
    method SetMessage(n: Option<int>, clearNow: bool) returns (e: int)
      requires Valid() && (n.Some? ==> 0 <= n.value < |log|)
      modifies this
      ensures Valid() && e == n.GetOr(|old(log)|) && |log| == if n.Some? then |old(log)| else |old(log)| + 1
      ensures history == old(history) + [Set(e)] + if clearNow then [Clear(e)] else []
    {
      hide Linked, Distinct, ActiveAfter;
      ActiveStep(history, Set(n.GetOr(|log|)));
      e := n.GetOr(|log|);
      if n.None? {
        LinkedGrow(log, current, active);
        log := log + [INACTIVE];
      }
      LinkedInside(log, current, active, e);
      if log[e].next == Undefined {
        LinkedPush(log, current, active, e);
        DistinctPush(active, e);
        log := log[e := log[e].(next := if current.Some? then At(current.value) else Null)];
        if current.Some? {
          log := log[current.value := log[current.value].(prev := At(e))];
        }
        current := Some(e);
        active := [e] + active;
      }
      history := history + [Set(e)];
      if clearNow {
        ClearMessage(e);
      }
    }

    /** `Clear`: harmless on a message that is not active. */
    method ClearMessage(b: int)
      requires Valid() && 0 <= b < |log|
      modifies this
      ensures Valid() && |log| == |old(log)| && history == old(history) + [Clear(b)]
    {
      hide ActiveAfter;
      ActiveStep(history, Clear(b));
      LinkedInside(log, current, active, b);
      LinkedRemove(log, current, active, b);
      DistinctRemove(active, b);
      if log[b].prev.At? {
        log := log[log[b].prev.index := log[log[b].prev.index].(next := log[b].next)];
      }
      if log[b].next.At? {
        log := log[log[b].next.index := log[log[b].next.index].(prev := log[b].prev)];
      }
      if current == Some(b) {
        current := if log[b].next.At? then Some(log[b].next.index) else None;
      }
      log := log[b := INACTIVE];
      active := Remove(active, b);
      history := history + [Clear(b)];
    }

    /** A run of `Set` and `Clear`, on messages given out before or, for `Set`, on the next new one. What
        following `next` then visits are the messages that the run leaves active. */
    method RunProgram(program: seq<Op>) returns (visited: seq<int>)
      requires Valid() && InRange(program, |log|)
      modifies this
      ensures Valid() && history == old(history) + program && visited == ActiveAfter(history)
    {
      hide Linked, Distinct, ActiveAfter;
      var i := 0;
      assert program[0..] == program && old(history) + program[..0] == old(history);
      while i < |program|
        invariant i <= |program| && Valid() && InRange(program[i..], |log|)
        invariant history == old(history) + program[..i]
      {
        assert program[i..][0] == program[i] && program[i..][1..] == program[i + 1..];
        assert old(history) + program[..i] + [program[i]] == old(history) + program[..i + 1];
        match program[i] {
          case Set(e) =>
            var e' := SetMessage(if e == |log| then None else Some(e), false);
            assert old(history) + program[..i] + [Set(e)] + [] == old(history) + program[..i + 1];
          case Clear(e) => ClearMessage(e);
        }
        i := i + 1;
      }
      assert program[..i] == program;
      visited := Walk();
    }

    /** Following `next` from `current` visits exactly the active messages, once each, in order. */
    method Walk() returns (visited: seq<int>)
      requires Valid()
      ensures visited == active
    {
      visited := [];
      var at := if current.Some? then At(current.value) else Null;
      while at.At?
        invariant visited <= active
        invariant at == if |visited| < |active| then At(active[|visited|]) else Null
        decreases |active| - |visited|
      {
        visited := visited + [at.index];
        at := log[at.index].next;
      }
    }
  }

  ghost function LinkTo(active: seq<int>, k: int, end: Link): Link {
    if 0 <= k < |active| then At(active[k]) else end
  }

  /** `next` runs down the active messages and ends with null, `prev` is its inverse and missing at
      the head, and the others have no links. */
  ghost predicate Linked(log: seq<Entry>, current: Option<int>, active: seq<int>) {
    && current == (if active == [] then None else Some(active[0]))
    && (forall k :: 0 <= k < |active| ==> 0 <= active[k] < |log|)
    && (forall k {:trigger log[active[k]]} :: 0 <= k < |active| ==> log[active[k]].next == LinkTo(active, k + 1, Null))
    && (forall k {:trigger log[active[k]]} :: 0 <= k < |active| ==>
      log[active[k]].prev == LinkTo(active, k - 1, Undefined))
    && (forall i :: 0 <= i < |log| && i !in active ==> log[i] == INACTIVE)
  }

  lemma LinkedGrow(log: seq<Entry>, current: Option<int>, active: seq<int>)
    requires Linked(log, current, active)
    ensures Linked(log + [INACTIVE], current, active)
  {
  }

  lemma LinkedInside(log: seq<Entry>, current: Option<int>, active: seq<int>, e: int)
    requires Linked(log, current, active) && 0 <= e < |log|
    ensures log[e].next == Undefined <==> e !in active
    ensures log[e].next.At? ==> 0 <= log[e].next.index < |log|
    ensures log[e].prev.At? ==> 0 <= log[e].prev.index < |log|
    ensures current.Some? ==> 0 <= current.value < |log|
  {
    if e in active {
      var k :| 0 <= k < |active| && active[k] == e;
    }
  }

  lemma DistinctPush(active: seq<int>, e: int)
    requires Distinct(active) && e !in active
    ensures Distinct([e] + active)
  {
  }

  lemma LinkedPush(log: seq<Entry>, current: Option<int>, active: seq<int>, e: int)
    requires Linked(log, current, active) && Distinct(active) && 0 <= e < |log| && e !in active
    ensures var linked := log[e := log[e].(next := if current.Some? then At(current.value) else Null)];
      Linked(
        if current.Some? then linked[current.value := linked[current.value].(prev := At(e))] else linked,
        Some(e), [e] + active)
  {
    var linked := log[e := log[e].(next := if current.Some? then At(current.value) else Null)];
    var log' := if current.Some? then linked[current.value := linked[current.value].(prev := At(e))] else linked;
    var more := [e] + active;
    forall k | 0 <= k < |more|
      ensures 0 <= more[k] < |log'| && log'[more[k]].next == LinkTo(more, k + 1, Null)
        && log'[more[k]].prev == LinkTo(more, k - 1, Undefined)
    {
      PushedAt(log, current, active, e, k);
    }
    forall i | 0 <= i < |log'| && i !in more ensures log'[i] == INACTIVE {
      assert more[0] == e && forall k :: 0 <= k < |active| ==> more[k + 1] == active[k];
      assert i !in active && i != e;
    }
    hide Distinct;
  }

  lemma PushedAt(log: seq<Entry>, current: Option<int>, active: seq<int>, e: int, k: nat)
    requires Linked(log, current, active) && Distinct(active) && 0 <= e < |log| && e !in active && k <= |active|
    ensures var linked := log[e := log[e].(next := if current.Some? then At(current.value) else Null)];
      var log' := if current.Some? then linked[current.value := linked[current.value].(prev := At(e))] else linked;
      var more := [e] + active;
      && |log'| == |log| && 0 <= more[k] < |log'| && log'[more[k]].next == LinkTo(more, k + 1, Null)
      && log'[more[k]].prev == LinkTo(more, k - 1, Undefined)
  {
    var more := [e] + active;
    CurrentIs(log, current, active);
    if k > 0 {
      ActiveAt(log, current, active, k - 1);
      assert more[k] == active[k - 1] && active[k - 1] in active;
    }
    hide Linked, Distinct;
    assert k < |active| ==> more[k + 1] == active[k];
    assert k > 1 ==> more[k - 1] == active[k - 2];
  }

  lemma CurrentIs(log: seq<Entry>, current: Option<int>, active: seq<int>)
    requires Linked(log, current, active)
    ensures current == (if active == [] then None else Some(active[0]))
    ensures active != [] ==> 0 <= active[0] < |log|
    ensures forall i :: 0 <= i < |log| && i !in active ==> log[i] == INACTIVE
  {
  }

  lemma ActiveAt(log: seq<Entry>, current: Option<int>, active: seq<int>, k: nat)
    requires Linked(log, current, active) && Distinct(active) && k < |active|
    ensures 0 <= active[k] < |log| && (k > 0 ==> active[k] != active[0])
    ensures log[active[k]] == Entry(LinkTo(active, k + 1, Null), LinkTo(active, k - 1, Undefined))
  {
  }

  lemma {:induction false} RemoveAt(s: seq<int>, k: nat)
    requires k < |s| && Distinct(s)
    ensures Remove(s, s[k]) == s[..k] + s[k + 1..]
  {
    if k == 0 {
      assert s[0] !in s[1..];
      RemoveIsExact(s[1..], s[0]);
    } else {
      RemoveAt(s[1..], k - 1);
      assert s[..k] == [s[0]] + s[1..][..k - 1];
    }
  }

  lemma DistinctRemove(active: seq<int>, b: int)
    requires Distinct(active)
    ensures Distinct(Remove(active, b))
  {
    if b in active {
      var k :| 0 <= k < |active| && active[k] == b;
      RemoveAt(active, k);
    } else {
      RemoveIsExact(active, b);
    }
  }

  /** The array after `Clear`, with the links read at the moment the source reads them. */
  function Cleared(log: seq<Entry>, b: int): seq<Entry>
    requires 0 <= b < |log|
    requires log[b].prev.At? ==> 0 <= log[b].prev.index < |log| && log[b].prev.index != b
    requires log[b].next.At? ==> 0 <= log[b].next.index < |log|
  {
    var first := if log[b].prev.At? then log[log[b].prev.index := log[log[b].prev.index].(next := log[b].next)]
      else log;
    var second := if first[b].next.At?
      then first[first[b].next.index := first[first[b].next.index].(prev := first[b].prev)] else first;
    second[b := INACTIVE]
  }

  lemma LinkedRemove(log: seq<Entry>, current: Option<int>, active: seq<int>, b: int)
    requires Linked(log, current, active) && Distinct(active) && 0 <= b < |log|
    ensures log[b].prev.At? ==> 0 <= log[b].prev.index < |log| && log[b].prev.index != b
    ensures log[b].next.At? ==> 0 <= log[b].next.index < |log| && log[b].next.index != b
    ensures Linked(
      Cleared(log, b),
      if current == Some(b) then (if log[b].next.At? then Some(log[b].next.index) else None) else current,
      Remove(active, b))
  {
    if b in active {
      var k :| 0 <= k < |active| && active[k] == b;
      RemoveAt(active, k);
      RemoveIsExact(active, b);
      LinkedUnlink(log, current, active, k);
    } else {
      RemoveIsExact(active, b);
    }
  }

  /** The array after `Clear`, entry by entry. */
  lemma ClearedAt(log: seq<Entry>, b: int, i: int)
    requires 0 <= b < |log| && 0 <= i < |log|
    requires log[b].prev.At? ==> 0 <= log[b].prev.index < |log| && log[b].prev.index != b
    requires log[b].next.At? ==> 0 <= log[b].next.index < |log| && log[b].next.index != b
    ensures |Cleared(log, b)| == |log| && Cleared(log, b)[b] == INACTIVE
    ensures i != b ==> Cleared(log, b)[i] == Entry(if log[b].prev == At(i) then log[b].next else log[i].next,
                                                  if log[b].next == At(i) then log[b].prev else log[i].prev)
  {
  }

  lemma LinkedUnlink(log: seq<Entry>, current: Option<int>, active: seq<int>, k: nat)
    requires Linked(log, current, active) && Distinct(active) && k < |active|
    ensures var b := active[k];
      && (log[b].prev.At? ==> 0 <= log[b].prev.index < |log| && log[b].prev.index != b)
      && (log[b].next.At? ==> 0 <= log[b].next.index < |log| && log[b].next.index != b)
      && Linked(
           Cleared(log, b),
           if current == Some(b) then (if log[b].next.At? then Some(log[b].next.index) else None) else current,
           active[..k] + active[k + 1..])
  {
    var b, less := active[k], active[..k] + active[k + 1..];
    assert log[b].prev == LinkTo(active, k - 1, Undefined) && log[b].next == LinkTo(active, k + 1, Null);
    ClearedAt(log, b, b);
    hide Cleared;
    var log' := Cleared(log, b);
    forall j | 0 <= j < |less|
      ensures 0 <= less[j] < |log'| && log'[less[j]].next == LinkTo(less, j + 1, Null)
        && log'[less[j]].prev == LinkTo(less, j - 1, Undefined)
    {
      UnlinkedAt(log, active, k, j);
    }
    forall i | 0 <= i < |log'| ensures i !in less ==> log'[i] == INACTIVE {
      ClearedAt(log, b, i);
      if i in active && i != b {
        StillThere(active, k, i);
      }
    }
  }

  lemma StillThere(active: seq<int>, k: nat, i: int)
    requires k < |active| && i in active && i != active[k]
    ensures i in active[..k] + active[k + 1..]
  {
    var m :| 0 <= m < |active| && active[m] == i;
    assert (active[..k] + active[k + 1..])[if m < k then m else m - 1] == i;
  }

  /** How the neighbours of an entry change when the k-th goes. */
  lemma NeighboursWithout(active: seq<int>, k: nat, j: nat)
    requires Distinct(active) && k < |active| && j < |active| - 1
    ensures var less := active[..k] + active[k + 1..]; var i := if j < k then j else j + 1;
      && less[j] == active[i] && active[i] != active[k]
      && LinkTo(less, j + 1, Null) == LinkTo(active, if i + 1 == k then k + 1 else i + 1, Null)
      && LinkTo(less, j - 1, Undefined) == LinkTo(active, if i == k + 1 then k - 1 else i - 1, Undefined)
      && (LinkTo(active, k - 1, Undefined) == At(active[i]) <==> i + 1 == k)
      && (LinkTo(active, k + 1, Null) == At(active[i]) <==> i == k + 1)
  {
  }

  lemma UnlinkedAt(log: seq<Entry>, active: seq<int>, k: nat, j: nat)
    requires (forall m :: 0 <= m < |active| ==> 0 <= active[m] < |log|) && Distinct(active) && k < |active|
      && j < |active| - 1
    requires forall m {:trigger log[active[m]]} :: 0 <= m < |active| ==>
      log[active[m]].next == LinkTo(active, m + 1, Null)
    requires forall m {:trigger log[active[m]]} :: 0 <= m < |active| ==>
      log[active[m]].prev == LinkTo(active, m - 1, Undefined)
    ensures var b := active[k]; var less := active[..k] + active[k + 1..];
      && (log[b].prev.At? ==> 0 <= log[b].prev.index < |log| && log[b].prev.index != b)
      && (log[b].next.At? ==> 0 <= log[b].next.index < |log| && log[b].next.index != b)
      && 0 <= less[j] < |Cleared(log, b)|
      && Cleared(log, b)[less[j]] == Entry(LinkTo(less, j + 1, Null), LinkTo(less, j - 1, Undefined))
  {
    var b, less := active[k], active[..k] + active[k + 1..];
    var i := if j < k then j else j + 1;
    NeighboursWithout(active, k, j);
    assert log[b].prev == LinkTo(active, k - 1, Undefined) && log[b].next == LinkTo(active, k + 1, Null);
    assert log[active[i]].prev == LinkTo(active, i - 1, Undefined)
      && log[active[i]].next == LinkTo(active, i + 1, Null);
    hide Cleared, LinkTo, Distinct;
    ClearedAt(log, b, active[i]);
  }
}
