/** What the calls on an expiring storage mean to a caller: when an item expires, what is collected, and what is
    found after something was deleted. */
module StorageLaws {
  import opened Collections
  import opened ExpiringCache

  // ---------------------------------------------------------------- when an item expires

  /** `get` of the key at this time. */
  function Gets(s: Storage, key: string, time: int): Result {
    Outcome(s, Get(key, time))
  }

  /** A value stored for a number of seconds, other than 0, is returned for that many seconds, of 1000 milliseconds
      each, and is null from then on. */
  lemma SetForSeconds(s: Storage, key: string, v: Option<string>, seconds: int, now: int, time: int, collect: bool)
    requires seconds != 0 && -8640000000000000 <= now + 1000 * seconds <= 8640000000000000
    ensures Gets(Next(s, Set(key, Some(v), After(seconds), now), collect), key, time)
      == Value(if time - now < 1000 * seconds then v else None)
    ensures Outcome(s, Set(key, Some(v), After(seconds), now)) == Done
  {
  }

  /** A value stored until a date is returned before it and null from then on. */
  lemma SetUntil(s: Storage, key: string, v: Option<string>, date: int, now: int, time: int, collect: bool)
    requires -8640000000000000 <= date <= 8640000000000000
    ensures Gets(Next(s, Set(key, Some(v), At(date), now), collect), key, time)
      == Value(if time < date then v else None)
  {
  }

  /** Without a limit, or with one of 0 seconds, it is returned up to the last second of the year 9999. */
  lemma SetForEver(s: Storage, key: string, v: Option<string>, exp: Exp, now: int, time: int, collect: bool)
    requires exp == Never || exp == After(0)
    ensures Gets(Next(s, Set(key, Some(v), exp, now), collect), key, time)
      == Value(if time < 253402300799000 then v else None)
  {
  }

  /** A limit that is no date throws, and changes nothing. */
  lemma SetBadly(s: Storage, key: string, v: Option<string>, exp: Exp, now: int, collect: bool)
    requires exp == Bad || (exp.At? && !(-8640000000000000 <= exp.time <= 8640000000000000))
          || (exp.After? && exp.seconds != 0 && !(-8640000000000000 <= now + 1000 * exp.seconds <= 8640000000000000))
    ensures Outcome(s, Set(key, Some(v), exp, now)) == Throws && Next(s, Set(key, Some(v), exp, now), collect) == s
  {
  }

  /** Only the key that is set changes. */
  lemma SetElsewhere(s: Storage, key: string, value: Option<Option<string>>, exp: Exp, now: int, other: string,
      time: int, collect: bool)
    requires other != key
    ensures Gets(Next(s, Set(key, value, exp, now), collect), other, time) == Gets(s, other, time)
  {
  }

  // ---------------------------------------------------------------- what is found after a deletion

  /** After `delete`, after storing `undefined`, and after `clear`, nothing is found; only `clear` is about other
      keys. */
  lemma DeletedIsNull(s: Storage, key: string, exp: Exp, now: int, other: string, time: int, collect: bool)
    ensures Gets(Next(s, Delete(key), collect), key, time) == Value(None)
    ensures Gets(Next(s, Set(key, None, exp, now), collect), key, time) == Value(None)
    ensures Gets(Next(s, Clear, collect), other, time) == Value(None)
    ensures other != key ==> Gets(Next(s, Delete(key), collect), other, time) == Gets(s, other, time)
    ensures other != key ==> Gets(Next(s, Set(key, None, exp, now), collect), other, time) == Gets(s, other, time)
  {
  }

  /** What other scripts have stored is null to `get`, unless it is a value that has no members. */
  lemma OthersAreNull(s: Storage, key: string, time: int)
    ensures key !in s || s[key].Partial? || s[key].Falsy? || s[key].Broken? ==> Gets(s, key, time) == Value(None)
    ensures key in s && s[key].Primitive? ==> Gets(s, key, time) == Throws
  {
  }

  // ---------------------------------------------------------------- what is collected

  /** The key stands for an item, or another object with an `e`, whose expiry is at or before the time. */
  ghost predicate Due(s: Storage, key: string, time: int) {
    key in s && (
      || (s[key].Item? && s[key].e <= time)
      || (s[key].Partial? && s[key].time.Some? && s[key].time.value <= time))
  }

  lemma DueIs(s: Storage, key: string, time: int)
    ensures Expired(s, key, time) <==> Due(s, key, time)
  {
  }

  /** The keys that are due, each at its own reading of the clock, in their order. */
  ghost function AllDue(s: Storage, keys: seq<string>, times: seq<int>): seq<string>
    requires |keys| == |times|
  {
    if keys == [] then []
    else (if Due(s, keys[0], times[0]) then [keys[0]] else []) + AllDue(s, keys[1..], times[1..])
  }

  lemma {:induction false} AllDueMore(s: Storage, keys: seq<string>, times: seq<int>, key: string, time: int)
    requires |keys| == |times|
    ensures AllDue(s, keys + [key], times + [time]) == AllDue(s, keys, times) + if Due(s, key, time) then [key] else []
  {
    if keys == [] {
      assert [key][1..] == [] && keys + [key] == [key] && times + [time] == [time] && [time][1..] == [];
    } else {
      assert (keys + [key])[1..] == keys[1..] + [key] && (times + [time])[1..] == times[1..] + [time];
      AllDueMore(s, keys[1..], times[1..], key, time);
      Associative(if Due(s, keys[0], times[0]) then [keys[0]] else [], AllDue(s, keys[1..], times[1..]),
        if Due(s, key, time) then [key] else []);
    }
  }

  lemma {:induction false} ExpiredAre(s: Storage, keys: seq<string>, times: seq<int>)
    requires |keys| == |times|
    ensures ExpiredKeys(s, keys, times) == AllDue(s, keys, times)
    decreases |keys|
  {
    if keys != [] {
      var n := |keys| - 1;
      ExpiredAre(s, keys[..n], times[..n]);
      DueIs(s, keys[n], times[n]);
      assert keys == keys[..n] + [keys[n]] && times == times[..n] + [times[n]];
      hide Expired, Due;
      AllDueMore(s, keys[..n], times[..n], keys[n], times[n]);
    }
  }

  lemma {:induction false} AllDueAre(s: Storage, keys: seq<string>, times: seq<int>, key: string)
    requires |keys| == |times|
    ensures key in AllDue(s, keys, times) <==>
      exists i :: 0 <= i < |keys| && keys[i] == key && Due(s, keys[i], times[i])
  {
    hide Due;
    if keys != [] {
      var less, fewer := keys[1..], times[1..];
      AllDueAre(s, less, fewer, key);
      if i :| 0 <= i < |keys| && keys[i] == key && Due(s, keys[i], times[i]) {
        assert i > 0 ==> less[i - 1] == keys[i] && fewer[i - 1] == times[i];
      }
      if i :| 0 <= i < |less| && less[i] == key && Due(s, less[i], fewer[i]) {
        assert keys[i + 1] == less[i] && times[i + 1] == fewer[i];
      }
    }
  }

  lemma CollectedIs(s: Storage, keys: seq<string>, times: seq<int>)
    ensures var left := Next(s, DeleteAllExpires(keys, times), true);
      && (forall key :: key in left <==> key in s && key !in ExpiredKeys(s, keys, times))
      && (forall key :: key in left ==> left[key] == s[key])
  {
    hide ExpiredKeys;
  }

  /** With one reading of the clock for each key, `deleteAllExpires` returns the keys that are due, in their order,
      and they, and no others, are gone afterwards; every other key keeps what it had. */
  lemma CollectsWhatIsDue(s: Storage, keys: seq<string>, times: seq<int>)
    requires |keys| == |times|
    ensures ExpiredKeys(s, keys, times) == AllDue(s, keys, times)
    ensures var left := Next(s, DeleteAllExpires(keys, times), true);
      && (forall key :: key in left <==>
            key in s && !exists i :: 0 <= i < |keys| && keys[i] == key && Due(s, keys[i], times[i]))
      && (forall key :: key in left ==> left[key] == s[key])
    ensures forall i :: 0 <= i < |keys| && Due(s, keys[i], times[i]) ==> keys[i] in ExpiredKeys(s, keys, times)
  {
    hide *;
    ExpiredAre(s, keys, times);
    CollectedIs(s, keys, times);
    forall key ensures key in AllDue(s, keys, times) <==>
      exists i :: 0 <= i < |keys| && keys[i] == key && Due(s, keys[i], times[i])
    {
      AllDueAre(s, keys, times, key);
    }
  }

  /** For instance: an item that expired at 100 is gone at 200, and one that expires at 300 is not. */
  lemma CollectsOne()
    ensures var s: Storage := map["old" := Item(100, Some("7")), "young" := Item(300, None)];
      && ExpiredKeys(s, ["old", "young"], [200, 200]) == ["old"]
      && Next(s, DeleteAllExpires(["old", "young"], [200, 200]), true) == map["young" := Item(300, None)]
  {
    var s: Storage := map["old" := Item(100, Some("7")), "young" := Item(300, None)];
    var keys, times := ["old", "young"], [200, 200];
    assert keys[..1] == ["old"] && times[..1] == [200] && keys[..1][..0] == [] && times[..1][..0] == [];
    assert ExpiredKeys(s, keys[..1], times[..1]) == [] + ["old"];
    assert ExpiredKeys(s, keys, times) == ["old"];
    assert Without(s, ["old"]) == map["young" := Item(300, None)];
  }

  // ---------------------------------------------------------------- the calls that depend on what is there

  /** `add` stores exactly if there is no live item, and then as `set` does; `replace` exactly if there is one. */
  lemma AddAndReplace(s: Storage, key: string, value: Option<Option<string>>, exp: Exp, check: int, now: int)
    ensures var live := key in s && s[key].Item? && check < s[key].e;
      var set_ := Next(s, Set(key, value, exp, now), true);
      && Next(s, Add(key, value, exp, check, now), true) == (if live then s else set_)
      && (live ==> Next(s, Replace(key, value, exp, check, now), true) == set_)
      && (!live ==> Outcome(s, Replace(key, value, exp, check, now)) in {Answer(false), Throws})
      && (!live ==> forall k :: k != key && k in s ==>
            k in Next(s, Replace(key, value, exp, check, now), true)
            && Next(s, Replace(key, value, exp, check, now), true)[k] == s[k])
  {
  }

  /** Looking at an item that has expired removes it, and no other key is ever changed by looking: `get`, and
      `replace` and `touch` where they find nothing to replace. */
  lemma LookingCollects(s: Storage, key: string, exp: Exp, value: Option<Option<string>>, time: int, now: int)
    ensures var over := key in s && s[key].Item? && s[key].e <= time;
      && Next(s, Get(key, time), true) == (if over then s - {key} else s)
      && (over ==> Next(s, Replace(key, value, exp, time, now), true) == s - {key})
      && (over ==> Next(s, Touch(key, exp, time, time, now), true) == s - {key})
      && (over ==> Outcome(s, Replace(key, value, exp, time, now)) == Answer(false))
      && (over ==> Outcome(s, Touch(key, exp, time, time, now)) == Answer(false))
  {
  }
}
