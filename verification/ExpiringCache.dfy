/** web-storage-cache: a storage whose items expire. Expired items are removed now and then, which no
    caller can tell. */
module ExpiringCache {
  import opened Collections

  /** What a stored text is after `JSON.parse`. Only an item was written by the cache; the other kinds
      are other scripts' data: an object that lacks `c`, `e` or `v`, a falsy value, a value for which
      the operator `in` throws, and a text that is no JSON. The value of an item is its JSON text, or
      null. */
  datatype Stored =
    | Item(e: int, v: Option<string>)
    | Partial(time: Option<int>)
    | Falsy
    | Primitive
    | Broken

  /** The `exp` option: absent, 0 or Infinity; a number of seconds; a date; not a date. */
  datatype Exp = Never | After(seconds: int) | At(time: int) | Bad

  /** 23:59:59 on 31 December 9999, in milliseconds. */
  const LAST_DAY := 253402300799000
  /** The largest time a Date can hold. */
  const MAX_TIME := 8640000000000000

  /** The time at which an item expires; None where the constructor of the item throws. */
  function Expiry(exp: Exp, now: int): Option<int> {
    match exp
    case Never => Some(LAST_DAY)
    case After(seconds) =>
      if seconds == 0 then Some(LAST_DAY)
      else if -MAX_TIME <= now + 1000 * seconds <= MAX_TIME then Some(now + 1000 * seconds) else None
    case At(time) => if -MAX_TIME <= time <= MAX_TIME then Some(time) else None
    case Bad => None
  }

  type Storage = map<string, Stored>

  /** One call. The times are the readings of the clock, in the order the code takes them: `check` for
      the test whether the item is live, `read` for the `get` inside `touch`, `now` for the new item.
      A value of None is `undefined`. */
  datatype Call =
    | Set(key: string, value: Option<Option<string>>, exp: Exp, now: int)
    | Get(key: string, now: int)
    | Delete(key: string)
    | Clear
    | Add(key: string, value: Option<Option<string>>, exp: Exp, check: int, now: int)
    | Replace(key: string, value: Option<Option<string>>, exp: Exp, check: int, now: int)
    | Touch(key: string, exp: Exp, check: int, read: int, now: int)
    | DeleteAllExpires(keys: seq<string>, times: seq<int>)

  datatype Result = Value(v: Option<string>) | Answer(b: bool) | Done | Throws

  // ---------------------------------------------------------------- the calls

  /** The item is deleted, where items are collected at all. */
  function Collected(s: Storage, key: string, collect: bool): Storage {
    if collect then s - {key} else s
  }

  function Put(s: Storage, key: string, value: Option<Option<string>>, exp: Exp, now: int): Storage {
    if value.None? then s - {key}
    else match Expiry(exp, now)
      case None => s
      case Some(e) => s[key := Item(e, value.value)]
  }

  function PutFails(value: Option<Option<string>>, exp: Exp, now: int): bool {
    value.Some? && Expiry(exp, now).None?
  }

  predicate Live(s: Storage, key: string, now: int) {
    key in s && s[key].Item? && now < s[key].e
  }

  predicate IsPrimitive(s: Storage, key: string) {
    key in s && s[key].Primitive?
  }

  predicate IsItem(s: Storage, key: string) {
    key in s && s[key].Item?
  }

  function Read(s: Storage, key: string, now: int): Option<string> {
    if Live(s, key, now) then s[key].v else None
  }

  /** `f !== null && f.e !== undefined && h >= f.e` */
  predicate Expired(s: Storage, key: string, now: int) {
    key in s && match s[key]
      case Item(e, _) => now >= e
      case Partial(Some(e)) => now >= e
      case _ => false
  }

  /** The keys that are found expired, each at its own time. */
  function ExpiredKeys(s: Storage, keys: seq<string>, times: seq<int>): seq<string> {
    if keys == [] || times == [] then []
    else
      var n := (if |keys| < |times| then |keys| else |times|) - 1;
      ExpiredKeys(s, keys[..n], times[..n]) + if Expired(s, keys[n], times[n]) then [keys[n]] else []
  }

  function Without(s: Storage, keys: seq<string>): Storage {
    map k | k in s && k !in keys :: s[k]
  }

  /** What a call does to the storage. With `collect` this is the code; without it, it is a storage in
      which expired items are never removed. */
  function Next(s: Storage, call: Call, collect: bool): Storage {
    match call
    case Set(key, value, exp, now) => Put(s, key, value, exp, now)
    case Get(key, now) => if IsItem(s, key) && !Live(s, key, now) then Collected(s, key, collect) else s
    case Delete(key) => s - {key}
    case Clear => map[]
    case Add(key, value, exp, check, now) => if Live(s, key, check) then s else Put(s, key, value, exp, now)
    case Replace(key, value, exp, check, now) =>
      if Live(s, key, check) then Put(s, key, value, exp, now)
      else if IsItem(s, key) then Collected(s, key, collect)
      else s
    case Touch(key, exp, check, read, now) =>
      if Live(s, key, check) then
        Put(if Live(s, key, read) then s else Collected(s, key, collect), key, Some(Read(s, key, read)), exp, now)
      else if IsItem(s, key) then Collected(s, key, collect)
      else s
    case DeleteAllExpires(keys, times) => if collect then Without(s, ExpiredKeys(s, keys, times)) else s
  }

  /** What a call returns. */
  function Outcome(s: Storage, call: Call): Result {
    match call
    case Set(key, value, exp, now) => if PutFails(value, exp, now) then Throws else Done
    case Get(key, now) => if IsPrimitive(s, key) then Throws else Value(Read(s, key, now))
    case Add(key, value, exp, check, now) =>
      if Live(s, key, check) then Answer(false) else if PutFails(value, exp, now) then Throws else Answer(true)
    case Replace(key, value, exp, check, now) =>
      if IsPrimitive(s, key) then Throws
      else if !Live(s, key, check) then Answer(false)
      else if PutFails(value, exp, now) then Throws
      else Answer(true)
    case Touch(key, exp, check, read, now) =>
      if IsPrimitive(s, key) then Throws
      else if !Live(s, key, check) then Answer(false)
      else if Expiry(exp, now).None? then Throws
      else Answer(true)
    case _ => Done
  }

  // ---------------------------------------------------------------- runs

  function Start(call: Call, t: int): int {
    match call
    case Set(_, _, _, now) => now
    case Get(_, now) => now
    case Add(_, _, _, check, _) => check
    case Replace(_, _, _, check, _) => check
    case Touch(_, _, check, _, _) => check
    case DeleteAllExpires(_, times) => if times == [] then t else times[0]
    case _ => t
  }

  function End(call: Call, t: int): int {
    match call
    case Set(_, _, _, now) => now
    case Get(_, now) => now
    case Add(_, _, _, _, now) => now
    case Replace(_, _, _, _, now) => now
    case Touch(_, _, _, _, now) => now
    case DeleteAllExpires(_, times) => if times == [] then t else times[|times| - 1]
    case _ => t
  }

  /** The clock does not go back during a call that begins after `t`. */
  ghost predicate InTime(call: Call, t: int) {
    && t <= Start(call, t) <= End(call, t)
    && match call
       case Touch(_, _, check, read, now) => check <= read <= now
       case DeleteAllExpires(_, times) => forall i, j :: 0 <= i < j < |times| ==> times[i] <= times[j]
       case _ => true
  }

  ghost predicate AllInTime(calls: seq<Call>, t: int) {
    calls == [] || (InTime(calls[0], t) && AllInTime(calls[1..], End(calls[0], t)))
  }

  function Run(s: Storage, calls: seq<Call>, collect: bool): Storage
    decreases |calls|
  {
    if calls == [] then s else Run(Next(s, calls[0], collect), calls[1..], collect)
  }

  function Results(s: Storage, calls: seq<Call>, collect: bool): (r: seq<Result>)
    ensures |r| == |calls|
    decreases |calls|
  {
    if calls == [] then [] else [Outcome(s, calls[0])] + Results(Next(s, calls[0], collect), calls[1..], collect)
  }

  /** Whenever the expired items are deleted, the keys gone through are keys of the storage, each with its
      reading of the clock. */
  predicate Numbered(s: Storage, calls: seq<Call>)
    decreases |calls|
  {
    calls == [] || (
      && (calls[0].DeleteAllExpires? ==>
            |calls[0].times| == |calls[0].keys| && forall k :: k in calls[0].keys ==> k in s)
      && Numbered(Next(s, calls[0], true), calls[1..]))
  }

  // ---------------------------------------------------------------- collection cannot be seen

  /** All that a call can see of a key from a time on. */
  datatype View = Nothing | Odd | Seen(e: int, v: Option<string>)

  function Look(s: Storage, key: string, now: int): View {
    if Live(s, key, now) then Seen(s[key].e, s[key].v) else if IsPrimitive(s, key) then Odd else Nothing
  }

  ghost predicate Agree(s: Storage, other: Storage, now: int) {
    forall key :: Look(s, key, now) == Look(other, key, now)
  }

  /** What looks the same looks the same later on. */
  lemma LookLater(s: Storage, other: Storage, key: string, t: int, now: int)
    requires t <= now && Look(s, key, t) == Look(other, key, t)
    ensures Look(s, key, now) == Look(other, key, now)
    ensures Live(s, key, now) == Live(other, key, now) && Read(s, key, now) == Read(other, key, now)
    ensures IsPrimitive(s, key) == IsPrimitive(other, key)
  {
  }

  lemma {:induction false} ExpiredAtTheEnd(s: Storage, keys: seq<string>, times: seq<int>, last: int)
    requires forall i :: 0 <= i < |times| ==> times[i] <= last
    ensures forall k :: k in ExpiredKeys(s, keys, times) ==> Expired(s, k, last)
  {
    if keys != [] && times != [] {
      var n := (if |keys| < |times| then |keys| else |times|) - 1;
      ExpiredAtTheEnd(s, keys[..n], times[..n], last);
    }
  }

  lemma CollectionAgrees(s: Storage, other: Storage, call: Call, t: int, key: string)
    requires Agree(s, other, t) && InTime(call, t) && call.DeleteAllExpires?
    ensures Look(Next(s, call, true), key, End(call, t)) == Look(Next(other, call, false), key, End(call, t))
  {
    assert Look(s, key, t) == Look(other, key, t);
    LookLater(s, other, key, t, End(call, t));
    var times := call.times;
    if times != [] {
      forall i | 0 <= i < |times| ensures times[i] <= times[|times| - 1] { }
      ExpiredAtTheEnd(s, call.keys, times, times[|times| - 1]);
    }
  }

  lemma TouchAgrees(s: Storage, other: Storage, call: Call, t: int, key: string)
    requires Agree(s, other, t) && InTime(call, t) && call.Touch?
    ensures Look(Next(s, call, true), key, End(call, t)) == Look(Next(other, call, false), key, End(call, t))
  {
    assert Look(s, key, t) == Look(other, key, t);
    LookLater(s, other, key, t, call.now);
    assert Look(s, call.key, t) == Look(other, call.key, t);
    LookLater(s, other, call.key, t, call.check);
    LookLater(s, other, call.key, t, call.read);
  }

  lemma OtherCallAgrees(s: Storage, other: Storage, call: Call, t: int, key: string)
    requires Agree(s, other, t) && InTime(call, t) && !call.Clear? && !call.Touch? && !call.DeleteAllExpires?
    ensures Look(Next(s, call, true), key, End(call, t)) == Look(Next(other, call, false), key, End(call, t))
  {
    assert Look(s, key, t) == Look(other, key, t);
    LookLater(s, other, key, t, End(call, t));
    assert Look(s, call.key, t) == Look(other, call.key, t);
    LookLater(s, other, call.key, t, Start(call, t));
  }

  lemma OutcomeAgrees(s: Storage, other: Storage, call: Call, t: int)
    requires Agree(s, other, t) && InTime(call, t)
    ensures Outcome(s, call) == Outcome(other, call)
  {
    if !call.Clear? && !call.DeleteAllExpires? {
      assert Look(s, call.key, t) == Look(other, call.key, t);
      LookLater(s, other, call.key, t, Start(call, t));
    }
  }

  /** One call on a storage that was collected and on one that never is: the results are the same, and
      what can be seen stays the same. */
  lemma CallAgrees(s: Storage, other: Storage, call: Call, t: int)
    requires Agree(s, other, t) && InTime(call, t)
    ensures Outcome(s, call) == Outcome(other, call)
    ensures Agree(Next(s, call, true), Next(other, call, false), End(call, t))
  {
    OutcomeAgrees(s, other, call, t);
    forall key ensures Look(Next(s, call, true), key, End(call, t))
      == Look(Next(other, call, false), key, End(call, t))
    {
      if call.DeleteAllExpires? {
        CollectionAgrees(s, other, call, t, key);
      } else if call.Touch? {
        TouchAgrees(s, other, call, t, key);
      } else if !call.Clear? {
        OtherCallAgrees(s, other, call, t, key);
      }
    }
  }

  /** Whole runs: removing expired items is never seen. */
  lemma {:induction false} RunAgrees(s: Storage, other: Storage, calls: seq<Call>, t: int)
    requires Agree(s, other, t) && AllInTime(calls, t)
    ensures Results(s, calls, true) == Results(other, calls, false)
    decreases |calls|
  {
    if calls != [] {
      CallAgrees(s, other, calls[0], t);
      hide Next, Outcome, Agree, InTime, End;
      RunAgrees(Next(s, calls[0], true), Next(other, calls[0], false), calls[1..], End(calls[0], t));
    }
  }

  lemma {:induction false} ResultsConcat(s: Storage, a: seq<Call>, b: seq<Call>, collect: bool)
    ensures Run(s, a + b, collect) == Run(Run(s, a, collect), b, collect)
    ensures Results(s, a + b, collect) == Results(s, a, collect) + Results(Run(s, a, collect), b, collect)
    decreases |a|
  {
    hide Next, Outcome;
    if a == [] {
      assert a + b == b;
    } else {
      ResultsConcat(Next(s, a[0], collect), a[1..], b, collect);
      assert (a + b)[1..] == a[1..] + b && (a + b)[0] == a[0];
    }
  }

  lemma {:induction false} InTimeEarlier(calls: seq<Call>, t: int, earlier: int)
    requires AllInTime(calls, t) && earlier <= t
    ensures AllInTime(calls, earlier)
    decreases |calls|
  {
    if calls != [] {
      InTimeEarlier(calls[1..], End(calls[0], t), End(calls[0], earlier));
    }
  }

  lemma {:induction false} InTimeWithout(a: seq<Call>, call: Call, b: seq<Call>, t: int)
    requires AllInTime(a + ([call] + b), t)
    ensures AllInTime(a + b, t)
    decreases |a|
  {
    if a == [] {
      assert a + ([call] + b) == [call] + b && ([call] + b)[1..] == b && a + b == b;
      InTimeEarlier(b, End(call, t), t);
    } else {
      assert (a + ([call] + b))[1..] == a[1..] + ([call] + b) && (a + b)[1..] == a[1..] + b;
      InTimeWithout(a[1..], call, b, End(a[0], t));
    }
  }

  /** Wherever `deleteAllExpires` is put into a run, the other calls return what they did without it. */
  lemma CollectionIsInvisible(s: Storage, a: seq<Call>, collection: Call, b: seq<Call>, t: int)
    requires collection.DeleteAllExpires? && AllInTime(a + ([collection] + b), t)
    ensures Results(s, a + b, true) ==
      Results(s, a + ([collection] + b), true)[..|a|] + Results(s, a + ([collection] + b), true)[|a| + 1..]
  {
    InTimeWithout(a, collection, b, t);
    assert Agree(s, s, t);
    RunAgrees(s, s, a + ([collection] + b), t);
    RunAgrees(s, s, a + b, t);
    ResultsConcat(s, a, [collection] + b, false);
    ResultsConcat(s, a, b, false);
    OneResult(Run(s, a, false), collection, b);
  }

  lemma OneResult(s: Storage, call: Call, rest: seq<Call>)
    ensures Results(s, [call] + rest, false) == [Outcome(s, call)] + Results(Next(s, call, false), rest, false)
    ensures Run(s, [call] + rest, false) == Run(Next(s, call, false), rest, false)
  {
    assert ([call] + rest)[1..] == rest;
  }

  // ---------------------------------------------------------------- what a get returns

  /** The item a call stores under a key, if it does: that of a `set`, of an `add` without a live item, of
      a `replace` or `touch` with one. */
  function Stores(s: Storage, call: Call, key: string): Option<Stored> {
    match call
    case Set(k, Some(v), exp, now) =>
      if k == key && Expiry(exp, now).Some? then Some(Item(Expiry(exp, now).value, v)) else None
    case Add(k, Some(v), exp, check, now) =>
      if k == key && !Live(s, key, check) && Expiry(exp, now).Some? then Some(Item(Expiry(exp, now).value, v)) else None
    case Replace(k, Some(v), exp, check, now) =>
      if k == key && Live(s, key, check) && Expiry(exp, now).Some? then Some(Item(Expiry(exp, now).value, v)) else None
    case Touch(k, exp, check, read, now) =>
      if k == key && Live(s, key, check) && Expiry(exp, now).Some?
        then Some(Item(Expiry(exp, now).value, Read(s, key, read))) else None
    case _ => None
  }

  /** The program deletes the item of a key, outright or by storing `undefined`. */
  predicate Deletes(s: Storage, call: Call, key: string) {
    match call
    case Delete(k) => k == key
    case Clear => true
    case Set(k, value, _, _) => k == key && value.None?
    case Add(k, value, _, check, _) => k == key && value.None? && !Live(s, key, check)
    case Replace(k, value, _, check, _) => k == key && value.None? && Live(s, key, check)
    case _ => false
  }

  /** No call of a run stores or deletes under the key. */
  predicate Untouched(s: Storage, calls: seq<Call>, key: string, collect: bool)
    decreases |calls|
  {
    calls == [] ||
    (Stores(s, calls[0], key).None? && !Deletes(s, calls[0], key)
      && Untouched(Next(s, calls[0], collect), calls[1..], key, collect))
  }

  lemma StoredIs(s: Storage, call: Call, key: string)
    requires Stores(s, call, key).Some?
    ensures key in Next(s, call, false) && Next(s, call, false)[key] == Stores(s, call, key).value
    ensures Stores(s, call, key).value.Item?
  {
  }

  lemma NotStored(s: Storage, call: Call, key: string)
    requires Stores(s, call, key).None? && !Deletes(s, call, key)
    ensures key in Next(s, call, false) <==> key in s
    ensures key in s ==> Next(s, call, false)[key] == s[key]
  {
  }

  lemma {:induction false} UntouchedStays(s: Storage, calls: seq<Call>, key: string)
    requires Untouched(s, calls, key, false)
    ensures key in Run(s, calls, false) <==> key in s
    ensures key in s ==> Run(s, calls, false)[key] == s[key]
    decreases |calls|
  {
    if calls != [] {
      hide Next, Stores, Deletes;
      NotStored(s, calls[0], key);
      UntouchedStays(Next(s, calls[0], false), calls[1..], key);
    }
  }

  /** Whether a call stores, and what, can be seen from what storages look like. */
  lemma StoresAgree(s: Storage, other: Storage, call: Call, key: string, t: int)
    requires Agree(s, other, t) && InTime(call, t)
    ensures Stores(s, call, key) == Stores(other, call, key) && Deletes(s, call, key) == Deletes(other, call, key)
  {
    assert Look(s, key, t) == Look(other, key, t);
    LookLater(s, other, key, t, Start(call, t));
    if call.Touch? { LookLater(s, other, key, t, call.read); }
  }

  lemma {:induction false} UntouchedAgrees(s: Storage, other: Storage, calls: seq<Call>, key: string, t: int)
    requires Agree(s, other, t) && AllInTime(calls, t)
    ensures Untouched(s, calls, key, true) == Untouched(other, calls, key, false)
    decreases |calls|
  {
    if calls != [] {
      StoresAgree(s, other, calls[0], key, t);
      CallAgrees(s, other, calls[0], t);
      hide Next, Stores, Deletes, Agree, InTime, End;
      UntouchedAgrees(Next(s, calls[0], true), Next(other, calls[0], false), calls[1..], key, End(calls[0], t));
    }
  }

  /** The storages agree all the way, and the rest of the run is in time. */
  lemma {:induction false} RunsAgree(s: Storage, other: Storage, a: seq<Call>, b: seq<Call>, t: int)
      returns (later: int)
    requires Agree(s, other, t) && AllInTime(a + b, t)
    ensures Agree(Run(s, a, true), Run(other, a, false), later) && AllInTime(b, later)
    decreases |a|
  {
    if a == [] {
      assert a + b == b;
      later := t;
    } else {
      assert (a + b)[1..] == a[1..] + b && (a + b)[0] == a[0];
      CallAgrees(s, other, a[0], t);
      hide Next, Agree, InTime, End;
      later := RunsAgree(Next(s, a[0], true), Next(other, a[0], false), a[1..], b, End(a[0], t));
    }
  }

  /** After the last call that stored under a key, be it `set`, `add`, `replace` or `touch`, with any other
      calls behind it, failing ones on the same key included, a `get` returns the value stored exactly as
      long as it has not expired, and null from then on. */
  lemma GetReturnsLastStored(s: Storage, a: seq<Call>, store: Call, b: seq<Call>, key: string, now: int, t: int)
    requires AllInTime(a + ([store] + (b + [Get(key, now)])), t)
    requires Stores(Run(s, a, true), store, key).Some?
    requires Untouched(Next(Run(s, a, true), store, true), b, key, true)
    ensures var stored := Stores(Run(s, a, true), store, key).value;
      stored.Item? && Results(s, a + ([store] + (b + [Get(key, now)])), true)[|a| + 1 + |b|] ==
        Value(if now < stored.e then stored.v else None)
  {
    var get := Get(key, now);
    var rest := [store] + (b + [get]);
    assert Agree(s, s, t);
    RunAgrees(s, s, a + rest, t);
    var later := RunsAgree(s, s, a, rest, t);
    var r, i := Run(s, a, true), Run(s, a, false);
    assert rest[0] == store && rest[1..] == b + [get];
    StoresAgree(r, i, store, key, later);
    CallAgrees(r, i, store, later);
    assert b + [] == b && [get] + [] == [get];
    InTimeWithout(b, get, [], End(store, later));
    UntouchedAgrees(Next(r, store, true), Next(i, store, false), b, key, End(store, later));
    LastStored(s, a, store, b, key, now);
  }

  /** The same on a storage that is never collected. */
  lemma LastStored(s: Storage, a: seq<Call>, store: Call, b: seq<Call>, key: string, now: int)
    requires Stores(Run(s, a, false), store, key).Some?
    requires Untouched(Next(Run(s, a, false), store, false), b, key, false)
    ensures var stored := Stores(Run(s, a, false), store, key).value;
      stored.Item? && Results(s, a + ([store] + (b + [Get(key, now)])), false)[|a| + 1 + |b|] ==
        Value(if now < stored.e then stored.v else None)
  {
    hide *;
    var s1 := Run(s, a, false);
    var s2 := Next(s1, store, false);
    StoredIs(s1, store, key);
    UntouchedStays(s2, b, key);
    OutcomeOfGet(Run(s2, b, false), key, now, Stores(s1, store, key).value);
    ResultAt(s, a, store, b, Get(key, now));
  }

  lemma OutcomeOfGet(s: Storage, key: string, now: int, item: Stored)
    requires key in s && s[key] == item && item.Item?
    ensures Outcome(s, Get(key, now)) == Value(if now < item.e then item.v else None)
  {
  }

  lemma ResultAt(s: Storage, a: seq<Call>, store: Call, b: seq<Call>, get: Call)
    ensures Results(s, a + ([store] + (b + [get])), false)[|a| + 1 + |b|] ==
      Outcome(Run(Next(Run(s, a, false), store, false), b, false), get)
  {
    hide *;
    var s1 := Run(s, a, false);
    var s2 := Next(s1, store, false);
    var s3 := Run(s2, b, false);
    ResultsConcat(s, a, [store] + (b + [get]), false);
    OneResult(s1, store, b + [get]);
    ResultsConcat(s2, b, [get], false);
    OneResult(s3, get, []);
    assert [get] + [] == [get];
  }

  /** At one instant exactly one of `add` and `replace` succeeds, if the value can be stored. */
  lemma AddXorReplace(s: Storage, key: string, value: Option<Option<string>>, exp: Exp, now: int)
    requires !PutFails(value, exp, now)
    ensures (Outcome(s, Add(key, value, exp, now, now)) == Answer(true))
      != (Outcome(s, Replace(key, value, exp, now, now)) == Answer(true))
    ensures Outcome(s, Add(key, value, exp, now, now)) == Answer(true) <==> !Live(s, key, now)
  {
  }

  /** `touch` reads the item again after it has found it live. It keeps the value exactly if the item
      has not expired in between; otherwise null is stored, with the new expiry. */
  lemma TouchKeepsValueIff(s: Storage, key: string, exp: Exp, check: int, read: int, now: int)
    requires Live(s, key, check) && check <= read <= now && Expiry(exp, now).Some?
    ensures var s' := Next(s, Touch(key, exp, check, read, now), true);
      && IsItem(s', key) && s'[key].e == Expiry(exp, now).value
      && s'[key].v == (if read < s[key].e then s[key].v else None)
      && (s[key].v.Some? ==> (s'[key].v == s[key].v <==> read < s[key].e))
  {
  }

  lemma TouchLosesValue()
    ensures var s: Storage := map["k" := Item(100, Some("7"))];
      && Outcome(s, Touch("k", Never, 99, 100, 101)) == Answer(true)
      && Next(s, Touch("k", Never, 99, 100, 101), true)["k"] == Item(LAST_DAY, None)
  {
  }

  // ---------------------------------------------------------------- the cache

  class Cache {
    var storage: Storage

    constructor (storage: Storage)
      ensures this.storage == storage
    {
      this.storage := storage;
    }

    method Set(key: string, value: Option<Option<string>>, exp: Exp, now: int) returns (r: Result)
      modifies this
      ensures storage == Next(old(storage), Call.Set(key, value, exp, now), true)
      ensures r == Outcome(old(storage), Call.Set(key, value, exp, now))
    {
      if value.None? {
        Delete(key);
        return Done;
      }
      var e := Expiry(exp, now);
      if e.None? {
        return Throws;
      }
      storage := storage[key := Item(e.value, value.value)];
      return Done;
    }

    method Get(key: string, now: int) returns (r: Result)
      modifies this
      ensures storage == Next(old(storage), Call.Get(key, now), true)
      ensures r == Outcome(old(storage), Call.Get(key, now))
    {
      if key in storage {
        match storage[key] {
          case Item(e, v) =>
            if now < e {
              return Value(v);
            }
            Delete(key);
          case Primitive =>
            return Throws;
          case _ =>
        }
      }
      return Value(None);
    }

    method Delete(key: string)
      modifies this
      ensures storage == Next(old(storage), Call.Delete(key), true)
    {
      storage := storage - {key};
    }

    /** `keys` is the order in which the storage numbers its keys. */
    method DeleteAllExpires(keys: seq<string>, times: seq<int>) returns (deleted: seq<string>)
      requires |times| == |keys| && forall k :: k in keys ==> k in storage
      modifies this
      ensures storage == Next(old(storage), Call.DeleteAllExpires(keys, times), true)
      ensures deleted == ExpiredKeys(old(storage), keys, times)
    {
      deleted := [];
      for d := 0 to |keys|
        invariant deleted == ExpiredKeys(storage, keys[..d], times[..d]) && storage == old(storage)
      {
        assert keys[..d + 1][..d] == keys[..d] && times[..d + 1][..d] == times[..d];
        var over := match storage[keys[d]]
          case Item(e, _) => times[d] >= e
          case Partial(Some(e)) => times[d] >= e
          case _ => false;
        if over {
          deleted := deleted + [keys[d]];
        }
      }
      assert keys[..|keys|] == keys && times[..|keys|] == times;
      assert Without(storage, []) == storage;
      for i := 0 to |deleted|
        invariant storage == Without(old(storage), deleted[..i])
      {
        Delete(deleted[i]);
      }
      assert deleted[..|deleted|] == deleted;
    }

    method Add(key: string, value: Option<Option<string>>, exp: Exp, check: int, now: int) returns (r: Result)
      modifies this
      ensures storage == Next(old(storage), Call.Add(key, value, exp, check, now), true)
      ensures r == Outcome(old(storage), Call.Add(key, value, exp, check, now))
    {
      if key in storage && storage[key].Item? && check < storage[key].e {
        return Answer(false);
      }
      r := Set(key, value, exp, now);
      if r == Done {
        r := Answer(true);
      }
    }

    method Replace(key: string, value: Option<Option<string>>, exp: Exp, check: int, now: int) returns (r: Result)
      modifies this
      ensures storage == Next(old(storage), Call.Replace(key, value, exp, check, now), true)
      ensures r == Outcome(old(storage), Call.Replace(key, value, exp, check, now))
    {
      if key in storage {
        match storage[key] {
          case Item(e, _) =>
            if check < e {
              r := Set(key, value, exp, now);
              if r == Done {
                r := Answer(true);
              }
              return;
            }
            Delete(key);
          case Primitive =>
            return Throws;
          case _ =>
        }
      }
      return Answer(false);
    }

    /** `clear` of the storage. */
    method Clear()
      modifies this
      ensures storage == Next(old(storage), Call.Clear, true)
    {
      storage := map[];
    }

    /** A run of calls: it has the results, and leaves the storage, of the specification. */
    method RunProgram(calls: seq<Call>) returns (results: seq<Result>)
      requires Numbered(storage, calls)
      modifies this
      ensures results == Results(old(storage), calls, true) && storage == Run(old(storage), calls, true)
    {
      hide Next, Outcome;
      results := [];
      var i := 0;
      assert calls[0..] == calls;
      while i < |calls|
        invariant i <= |calls| && Numbered(storage, calls[i..])
        invariant results + Results(storage, calls[i..], true) == Results(old(storage), calls, true)
        invariant Run(storage, calls[i..], true) == Run(old(storage), calls, true)
      {
        assert calls[i..][0] == calls[i] && calls[i..][1..] == calls[i + 1..];
        ghost var before := storage;
        var r := Perform(calls[i]);
        assert results + ([r] + Results(storage, calls[i + 1..], true))
          == results + [r] + Results(storage, calls[i + 1..], true);
        results := results + [r];
        i := i + 1;
      }
    }

    method Perform(call: Call) returns (r: Result)
      requires call.DeleteAllExpires? ==> |call.times| == |call.keys| && forall k :: k in call.keys ==> k in storage
      modifies this
      ensures storage == Next(old(storage), call, true) && r == Outcome(old(storage), call)
    {
      DoneIs();
      hide Next, Outcome;
      r := Done;
      match call {
        case Set(key, value, exp, now) => r := Set(key, value, exp, now);
        case Get(key, now) => r := Get(key, now);
        case Delete(key) => Delete(key);
        case Clear => Clear();
        case Add(key, value, exp, check, now) => r := Add(key, value, exp, check, now);
        case Replace(key, value, exp, check, now) => r := Replace(key, value, exp, check, now);
        case Touch(key, exp, check, read, now) => r := Touch(key, exp, check, read, now);
        case DeleteAllExpires(keys, times) => var _ := DeleteAllExpires(keys, times);
      }
    }

    static lemma DoneIs()
      ensures forall s, call: Call :: call.Delete? || call.Clear? || call.DeleteAllExpires? ==> Outcome(s, call) == Done
    {
    }

    method Touch(key: string, exp: Exp, check: int, read: int, now: int) returns (r: Result)
      modifies this
      ensures storage == Next(old(storage), Call.Touch(key, exp, check, read, now), true)
      ensures r == Outcome(old(storage), Call.Touch(key, exp, check, read, now))
    {
      if key in storage {
        match storage[key] {
          case Item(e, _) =>
            if check < e {
              var value := Get(key, read);
              r := Set(key, Some(value.v), exp, now);
              if r == Done {
                r := Answer(true);
              }
              return;
            }
            Delete(key);
          case Primitive =>
            return Throws;
          case _ =>
        }
      }
      return Answer(false);
    }
  }
}
