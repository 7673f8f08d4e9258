/** Intrusive reference counting by `sp` handles over `RefBase` objects.

    Memory is explicit: an object is the pair of a `RefBase` and its `weakref_impl`, each of which
    is in memory until it is deleted, so that every access to either needs it still to be there. */
module RefCount {
  import opened Collections
  import opened HolderList

  const INITIAL_STRONG_VALUE := 0

  /** A `weakref_impl` with flags 0: the two counts, and its two debug lists of holders. */
  datatype Impl = Impl(strong: int, weak: int, strongIds: seq<int>, weakIds: seq<int>)

  /** The identities that hold an object: those whose `incStrong`, and those whose `createWeak`,
      has not been undone. */
  datatype Bag = Bag(strong: multiset<int>, weak: multiset<int>) {
    ghost function Size(): nat {
      |strong| + |weak|
    }

    function Plus(id: int): Bag {
      Bag(strong + multiset{id}, weak)
    }

    function Minus(id: int): Bag {
      Bag(strong - multiset{id}, weak)
    }

    function PlusWeak(id: int): Bag {
      Bag(strong, weak + multiset{id})
    }

    function MinusWeak(id: int): Bag {
      Bag(strong, weak - multiset{id})
    }
  }

  const NOBODY := Bag(multiset{}, multiset{})

  type Handles = map<int, Option<int>>

  /** The handles that point to `o`. */
  function Pointing(handles: Handles, o: int): set<int> {
    set h | h in handles && handles[h] == Some(o)
  }

  /** A weak reference that was given out: to which object, and under which identity. */
  datatype WeakRef = WeakRef(target: int, id: int)

  /** The identities of the weak references to `o`, one for each reference. */
  function WeakIds(weakRefs: seq<WeakRef>, o: int): multiset<int> {
    if weakRefs == [] then multiset{}
    else (if weakRefs[0].target == o then multiset{weakRefs[0].id} else multiset{}) + WeakIds(weakRefs[1..], o)
  }

  predicate WeaklyHeld(weakRefs: seq<WeakRef>, o: int) {
    exists w | w in weakRefs :: w.target == o
  }

  /** One reference is given back. */
  function Dropped(weakRefs: seq<WeakRef>, w: WeakRef): seq<WeakRef> {
    if weakRefs == [] then []
    else if weakRefs[0] == w then weakRefs[1..]
    else [weakRefs[0]] + Dropped(weakRefs[1..], w)
  }

  lemma {:induction false} WeakIdsOf(weakRefs: seq<WeakRef>, o: int)
    ensures WeakIds(weakRefs, o) == multiset{} <==> !WeaklyHeld(weakRefs, o)
    ensures forall w :: w in weakRefs && w.target == o ==> w.id in WeakIds(weakRefs, o)
  {
    if weakRefs != [] {
      WeakIdsOf(weakRefs[1..], o);
      assert forall w :: w in weakRefs <==> w == weakRefs[0] || w in weakRefs[1..];
      if weakRefs[0].target == o {
        assert weakRefs[0].id in WeakIds(weakRefs, o);
      }
    }
  }

  lemma MinusRight(a: multiset<int>, b: multiset<int>, x: int)
    requires x in b
    ensures a + b - multiset{x} == a + (b - multiset{x})
  {
  }

  lemma WeakIdsUnfold(w: WeakRef, rest: seq<WeakRef>, o: int)
    ensures WeakIds([w] + rest, o) == (if w.target == o then multiset{w.id} else multiset{}) + WeakIds(rest, o)
  {
    assert ([w] + rest)[1..] == rest;
  }

  lemma {:induction false} DroppedWithin(weakRefs: seq<WeakRef>, w: WeakRef)
    ensures forall v :: v in Dropped(weakRefs, w) ==> v in weakRefs
  {
    if weakRefs != [] && weakRefs[0] != w {
      DroppedWithin(weakRefs[1..], w);
    }
  }

  /** Giving back a reference takes its identity out once, and leaves the other objects alone. */
  lemma {:induction false} DroppedIs(weakRefs: seq<WeakRef>, w: WeakRef, o: int)
    requires w in weakRefs
    ensures WeakIds(Dropped(weakRefs, w), o) == WeakIds(weakRefs, o) - if w.target == o then multiset{w.id}
      else multiset{}
  {
    var first, rest := weakRefs[0], weakRefs[1..];
    assert weakRefs == [first] + rest;
    assert Dropped(weakRefs, w) == if first == w then rest else [first] + Dropped(rest, w);
    hide *;
    WeakIdsUnfold(first, rest, o);
    if first != w {
      DroppedIs(rest, w, o);
      WeakIdsUnfold(first, Dropped(rest, w), o);
      WeakIdsOf(rest, o);
      if w.target == o {
        MinusRight(if first.target == o then multiset{first.id} else multiset{}, WeakIds(rest, o), w.id);
      }
    }
  }

  // ---------------------------------------------------------------- counts and holders

  /** The counts, and the debug lists, of an object held so. */
  ghost predicate Counts(r: Impl, b: Bag) {
    && multiset(r.strongIds) == b.strong && r.strong == |r.strongIds|
    && multiset(r.weakIds) == b.strong + b.weak && r.weak == |r.weakIds|
  }

  function Weaker(r: Impl, id: int): Impl {
    r.(weakIds := [id] + r.weakIds, weak := r.weak + 1)
  }

  function Stronger(r: Impl, id: int): Impl {
    Weaker(r, id).(strongIds := [id] + r.strongIds, strong := r.strong + 1)
  }

  function WithoutWeak(r: Impl, id: int): Impl {
    r.(weakIds := RemoveFirst(r.weakIds, id), weak := r.weak - 1)
  }

  function WithoutStrong(r: Impl, id: int): Impl {
    r.(strongIds := RemoveFirst(r.strongIds, id), strong := r.strong - 1)
  }

  lemma CountsOf(r: Impl, b: Bag)
    requires Counts(r, b)
    ensures r.strong == |b.strong| && r.weak == b.Size()
  {
    assert |multiset(r.strongIds)| == |r.strongIds| && |multiset(r.weakIds)| == |r.weakIds|;
  }

  lemma CountsUp(r: Impl, b: Bag, id: int)
    requires Counts(r, b)
    ensures Counts(Stronger(r, id), b.Plus(id)) && Counts(Weaker(r, id), b.PlusWeak(id))
    ensures b.Plus(id).Size() == b.PlusWeak(id).Size() == b.Size() + 1
  {
    assert multiset([id] + r.strongIds) == multiset{id} + multiset(r.strongIds);
    assert multiset([id] + r.weakIds) == multiset{id} + multiset(r.weakIds);
  }

  lemma {:induction false} RemoveFirstLength(s: seq<int>, id: int)
    requires id in s
    ensures |RemoveFirst(s, id)| == |s| - 1
  {
    if s[0] != id {
      RemoveFirstLength(s[1..], id);
    }
  }

  lemma CountsDownWeak(r: Impl, b: Bag, id: int)
    requires Counts(r, b) && id in b.weak
    ensures Counts(WithoutWeak(r, id), b.MinusWeak(id)) && b.MinusWeak(id).Size() == b.Size() - 1
    ensures r.weak > r.strong >= 0
  {
    RemoveFirstIsExact(r.weakIds, id);
    RemoveFirstLength(r.weakIds, id);
    CountsOf(r, b);
    assert b.strong + b.weak - multiset{id} == b.strong + (b.weak - multiset{id});
    assert b.weak == b.weak - multiset{id} + multiset{id};
  }

  lemma CountsDown(r: Impl, b: Bag, id: int)
    requires Counts(r, b) && id in b.strong
    ensures Counts(WithoutWeak(WithoutStrong(r, id), id), b.Minus(id)) && b.Minus(id).Size() == b.Size() - 1
    ensures r.weak >= r.strong >= 1
  {
    RemoveFirstIsExact(r.weakIds, id);
    RemoveFirstIsExact(r.strongIds, id);
    RemoveFirstLength(r.weakIds, id);
    RemoveFirstLength(r.strongIds, id);
    CountsOf(r, b);
    assert b.strong + b.weak - multiset{id} == (b.strong - multiset{id}) + b.weak;
    assert b.strong == b.strong - multiset{id} + multiset{id};
  }

  // ---------------------------------------------------------------- the invariant, part by part

  /** The counts in memory are those of the holders. */
  ghost predicate Counted(refs: map<int, Impl>, holders: map<int, Bag>) {
    refs.Keys == holders.Keys && forall o :: o in refs ==> Counts(refs[o], holders[o])
  }

  /** An object that has ever been held has a holder as long as it exists. */
  ghost predicate Kept(holders: map<int, Bag>, held: set<int>) {
    forall o :: o in holders ==> (o in held <==> holders[o].Size() > 0)
  }

  /** Every object made is either there or has been freed, once, after having been held. */
  ghost predicate Ledger(objects: set<int>, made: nat, held: set<int>, freed: seq<int>) {
    && (forall o :: 0 <= o < made <==> o in objects || o in freed)
    && (forall i :: 0 <= i < |freed| ==> freed[i] !in objects && freed[i] in held)
    && (forall i, j :: 0 <= i < j < |freed| ==> freed[i] != freed[j])
    && (forall o :: o in held ==> 0 <= o < made)
  }

  /** Every handle points to an existing object, whose strong holders are the handles to it. */
  ghost predicate Tied(handles: Handles, objects: set<int>, holders: map<int, Bag>) {
    && (forall h :: h in handles && handles[h].Some? ==> handles[h].value in objects)
    && (forall o :: o in objects ==> o in holders && holders[o].strong == multiset(Pointing(handles, o)))
  }

  /** The weak references given out are to objects that have not been freed, and are the weak holders
      of these, neither more nor fewer. */
  ghost predicate Referred(weakRefs: seq<WeakRef>, holders: map<int, Bag>) {
    && (forall w :: w in weakRefs ==> w.target in holders)
    && (forall o :: o in holders ==> holders[o].weak == WeakIds(weakRefs, o))
  }

  lemma CountedPut(refs: map<int, Impl>, holders: map<int, Bag>, o: int, r: Impl, b: Bag)
    requires Counted(refs, holders) && Counts(r, b)
    ensures Counted(refs[o := r], holders[o := b])
  {
    hide Counts;
  }

  lemma FirstCounts(refs: map<int, Impl>, holders: map<int, Bag>, held: set<int>, o: int, r: Impl)
    requires Counted(refs, holders) && Kept(holders, held) && o !in held && r == Impl(INITIAL_STRONG_VALUE, 0, [], [])
    ensures refs[o := r].Keys == refs.Keys + {o}
    ensures Counted(refs[o := r], holders[o := NOBODY]) && Kept(holders[o := NOBODY], held)
  {
    assert Counts(r, NOBODY);
    assert NOBODY.Size() == 0;
    CountedPut(refs, holders, o, r, NOBODY);
    KeptPut(holders, held, o, NOBODY);
  }

  lemma KeptPut(holders: map<int, Bag>, held: set<int>, o: int, b: Bag)
    requires Kept(holders, held)
    ensures b.Size() > 0 ==> Kept(holders[o := b], held + {o})
    ensures b.Size() == 0 && o !in held ==> Kept(holders[o := b], held)
  {
    hide Bag.Size;
  }

  lemma Drop(refs: map<int, Impl>, holders: map<int, Bag>, held: set<int>, o: int)
    requires Counted(refs, holders) && Kept(holders, held)
    ensures Counted(refs - {o}, holders - {o}) && Kept(holders - {o}, held)
  {
    hide Counts, Bag.Size;
  }

  lemma LedgerHeld(objects: set<int>, made: nat, held: set<int>, freed: seq<int>, o: int)
    requires Ledger(objects, made, held, freed) && o in objects
    ensures Ledger(objects, made, held + {o}, freed)
  {
  }

  lemma LedgerFree(objects: set<int>, made: nat, held: set<int>, freed: seq<int>, o: int)
    requires Ledger(objects, made, held, freed) && o in objects && o in held
    ensures Ledger(objects - {o}, made, held, freed + [o])
  {
  }

  lemma LedgerNew(objects: set<int>, made: nat, held: set<int>, freed: seq<int>)
    requires Ledger(objects, made, held, freed)
    ensures made !in objects && made !in freed && made !in held
    ensures Ledger(objects + {made}, made + 1, held, freed)
  {
  }

  /** One more holder of an object keeps the books in order. */
  lemma HeldMore(objects: set<int>, refs: map<int, Impl>, holders: map<int, Bag>, made: nat, held: set<int>,
      freed: seq<int>, o: int, r: Impl, b: Bag)
    requires objects == refs.Keys && Counted(refs, holders) && Kept(holders, held) && Ledger(objects, made, held, freed)
    requires o in objects && Counts(r, b) && b.Size() > 0
    ensures objects == refs[o := r].Keys && Counted(refs[o := r], holders[o := b])
    ensures Kept(holders[o := b], held + {o}) && Ledger(objects, made, held + {o}, freed)
  {
    hide *;
    CountedPut(refs, holders, o, r, b);
    KeptPut(holders, held, o, b);
    LedgerHeld(objects, made, held, freed, o);
  }

  class Memory {
    var objects: set<int>           // the RefBase objects not yet deleted
    var refs: map<int, Impl>        // the weakref_impl objects not yet deleted
    var handles: Handles            // the sp objects of the program, with their m_ptr
    var made: nat                   // the objects made so far are 0..made
    var weakRefs: seq<WeakRef>      // the weak references given out and not given back, latest first
    ghost var holders: map<int, Bag>
    ghost var held: set<int>        // objects that have had a holder
    ghost var freed: seq<int>       // deleted objects, in order

    ghost predicate Sound()
      reads this`objects, this`refs, this`made, this`holders, this`held, this`freed
    {
      objects == refs.Keys && Counted(refs, holders) && Kept(holders, held) && Ledger(objects, made, held, freed)
    }

    ghost predicate Valid()
      reads this
    {
      Sound() && Tied(handles, objects, holders) && Referred(weakRefs, holders)
    }

    lemma SoundIs()
      ensures Sound() <==>
        objects == refs.Keys && Counted(refs, holders) && Kept(holders, held) && Ledger(objects, made, held, freed)
    {
    }

    lemma ValidIs()
      ensures Valid() <==> Sound() && Tied(handles, objects, holders) && Referred(weakRefs, holders)
      ensures Valid() ==> objects <= holders.Keys
    {
    }

    constructor ()
      ensures Valid() && Program() == Names(map[], [], {}, 0) && freed == []
    {
      objects, refs, handles, made := {}, map[], map[], 0;
      weakRefs, holders, held, freed := [], map[], {}, [];
    }

    /** What the program itself has done, as far as memory goes. */
    ghost function Program(): Names
      reads this`handles, this`weakRefs, this`held, this`made
    {
      Names(handles, weakRefs, held, made)
    }

    lemma ProgramIs()
      ensures Program() == Names(handles, weakRefs, held, made)
    {
    }

    /** Conservation: the counts of a live object are the numbers of handles that point to it and of
        weak references to it, and its debug lists name exactly these. */
    lemma Conservation(o: int)
      requires Valid() && o in objects
      ensures o in refs
      ensures refs[o].strong == |Pointing(handles, o)| && refs[o].weak == refs[o].strong + |WeakIds(weakRefs, o)|
      ensures multiset(refs[o].strongIds) == multiset(Pointing(handles, o)) && |refs[o].strongIds| == refs[o].strong
      ensures multiset(refs[o].weakIds) == multiset(Pointing(handles, o)) + WeakIds(weakRefs, o)
    {
      CountsOf(refs[o], holders[o]);
    }

    /** Memory is determined by what the program did: an object that was made is there exactly if nothing
        ever held it, or a handle points to it, or a weak reference to it is out. No handle and no
        weak reference dangles, object and counts go together, and nothing is freed twice. */
    lemma FreedExactlyWhenUnheld(o: int)
      requires Valid()
      ensures o in objects <==> 0 <= o < made && (o in held ==> Pointing(handles, o) != {} || WeaklyHeld(weakRefs, o))
      ensures o in freed <==> o in held && Pointing(handles, o) == {} && !WeaklyHeld(weakRefs, o)
      ensures o in objects <==> o in refs
      ensures forall h :: h in handles && handles[h] == Some(o) ==> o in objects
      ensures WeaklyHeld(weakRefs, o) ==> o in objects
      ensures forall i, j :: 0 <= i < j < |freed| ==> freed[i] != freed[j]
    {
      WeakIdsOf(weakRefs, o);
      if o in objects {
        HolderCount(o);
      } else {
        assert Pointing(handles, o) == {} by {
          assert forall h :: h !in Pointing(handles, o);
        }
      }
      if o in freed {
        var i :| 0 <= i < |freed| && freed[i] == o;
        assert freed[i] !in objects;
      }
    }

    lemma HolderCount(o: int)
      requires Valid() && o in objects
      ensures o in held <==> Pointing(handles, o) != {} || WeaklyHeld(weakRefs, o)
    {
      WeakIdsOf(weakRefs, o);
      var p := Pointing(handles, o);
      assert holders[o].strong == multiset(p) && holders[o].weak == WeakIds(weakRefs, o);
      hide Pointing, WeaklyHeld, WeakIds, Tied;
      assert |multiset(p)| == |p|;
    }

    // ---------------------------------------------------------------- RefBase and weakref_impl

    /** `delete` of the object: with a strong count of 0 the destructor deletes the counts too;
        otherwise, the flags being 0, it does not. */
    method DeleteObject(o: int)
      requires o in objects && o in refs
      modifies this`objects, this`refs
      ensures objects == old(objects) - {o}
      ensures refs == if old(refs[o].strong) == INITIAL_STRONG_VALUE then old(refs) - {o} else old(refs)
    {
      if refs[o].strong == INITIAL_STRONG_VALUE {
        refs := refs - {o};
      }
      objects := objects - {o};
    }

    method IncWeak(o: int, id: int)
      requires o in refs
      modifies this`refs
      ensures refs == old(refs)[o := Weaker(old(refs[o]), id)]
    {
      var r := refs[o];
      refs := refs[o := r.(weakIds := [id] + r.weakIds, weak := r.weak + 1)];
    }

    /** Requires what the comments of the source assert: not more decrements than increments. */
    method DecWeak(o: int, id: int)
      requires o in objects && o in refs && refs[o].weak > refs[o].strong >= 0
      modifies this`objects, this`refs
      ensures if old(refs[o]).weak == 1 then objects == old(objects) - {o} && refs == old(refs) - {o}
              else objects == old(objects) && refs == old(refs)[o := WithoutWeak(old(refs[o]), id)]
    {
      var r := refs[o];
      var c := r.weak;
      refs := refs[o := r.(weakIds := RemoveFirst(r.weakIds, id), weak := c - 1)];
      if c != 1 {
        return;
      }
      if refs[o].strong == INITIAL_STRONG_VALUE {
        DeleteObject(o);
        assert refs == old(refs) - {o};
      } else {
        assert false;  // `delete impl` alone is never reached
      }
    }

    method IncStrong(o: int, id: int)
      requires o in objects && o in refs
      modifies this`refs
      ensures refs == old(refs)[o := Stronger(old(refs[o]), id)]
    {
      IncWeak(o, id);
      var r := refs[o];
      refs := refs[o := r.(strongIds := [id] + r.strongIds, strong := r.strong + 1)];
    }

    method DecStrong(o: int, id: int)
      requires o in objects && o in refs && refs[o].weak >= refs[o].strong >= 1
      modifies this`objects, this`refs
      ensures if old(refs[o]).weak == 1 then objects == old(objects) - {o} && refs == old(refs) - {o}
              else objects == old(objects) && refs == old(refs)[o := WithoutWeak(WithoutStrong(old(refs[o]), id), id)]
    {
      var r := refs[o];
      var c := r.strong;
      refs := refs[o := r.(strongIds := RemoveFirst(r.strongIds, id), strong := c - 1)];
      if c == 0 {
        assert false;  // `delete this` is never reached: the object goes with its last weak count
      }
      DecWeak(o, id);
    }

    // ---------------------------------------------------------------- taking and giving back

    /** Whoever holds an object finds it in memory, with counts that say so. */
    lemma Holding(o: int)
      requires Sound() && o in holders
      ensures o in objects && o in refs && Counts(refs[o], holders[o]) && refs[o].weak == holders[o].Size()
      ensures holders[o].Size() > 0 <==> o in held
    {
      CountsOf(refs[o], holders[o]);
    }

    method Acquire(o: int, id: int)
      requires Sound() && o in holders
      modifies this`refs, this`holders, this`held
      ensures Sound() && holders == old(holders)[o := old(holders[o]).Plus(id)] && held == old(held) + {o}
      ensures o in old(refs) && refs == old(refs)[o := Stronger(old(refs[o]), id)]
    {
      hide *;
      SoundIs();
      Holding(o);
      CountsUp(refs[o], holders[o], id);
      HeldMore(objects, refs, holders, made, held, freed, o, Stronger(refs[o], id), holders[o].Plus(id));
      IncStrong(o, id);
      holders, held := holders[o := holders[o].Plus(id)], held + {o};
      SoundIs();
    }

    // A strong count is given back: the same decrement, of an object with other holders and of one
    // without. Which of the two it is, the weak count tells.

    method ReleaseShared(o: int, id: int)
      requires Sound() && o in holders && id in holders[o].strong && holders[o].Size() != 1
      modifies this`objects, this`refs, this`holders
      ensures Sound() && objects == old(objects) && holders == old(holders)[o := old(holders[o]).Minus(id)]
    {
      Holding(o);
      CountsDown(refs[o], holders[o], id);
      hide Counts, Counted, Kept, Ledger, Bag.Minus, WithoutStrong, WithoutWeak, Bag.Size;
      CountedPut(refs, holders, o, WithoutWeak(WithoutStrong(refs[o], id), id), holders[o].Minus(id));
      KeptPut(holders, held, o, holders[o].Minus(id));
      assert held + {o} == held;
      DecStrong(o, id);
      holders := holders[o := holders[o].Minus(id)];
    }

    method ReleaseLast(o: int, id: int)
      requires Sound() && o in holders && id in holders[o].strong && holders[o].Size() == 1
      modifies this`objects, this`refs, this`holders, this`freed
      ensures Sound() && objects == old(objects) - {o} && freed == old(freed) + [o] && holders == old(holders) - {o}
    {
      Holding(o);
      CountsDown(refs[o], holders[o], id);
      hide Counts, Counted, Kept, Ledger, Bag.Minus, WithoutStrong, WithoutWeak, Bag.Size;
      LedgerFree(objects, made, held, freed, o);
      Drop(refs, holders, held, o);
      DecStrong(o, id);
      holders, freed := holders - {o}, freed + [o];
    }

    /** A strong count is given back; the object goes if and only if it was the last holder. */
    method Release(o: int, id: int) returns (gone: bool)
      requires Sound() && o in holders && id in holders[o].strong
      modifies this`objects, this`refs, this`holders, this`freed
      ensures Sound() && gone == (old(holders[o]).Size() == 1)
      ensures gone ==> objects == old(objects) - {o} && freed == old(freed) + [o] && holders == old(holders) - {o}
      ensures !gone ==>
        objects == old(objects) && freed == old(freed) && holders == old(holders)[o := old(holders[o]).Minus(id)]
    {
      Holding(o);
      hide Sound, Counts, Bag.Size, Bag.Minus;
      gone := refs[o].weak == 1;
      if gone {
        ReleaseLast(o, id);
      } else {
        ReleaseShared(o, id);
      }
    }

    method AcquireWeak(o: int, id: int)
      requires Sound() && o in holders
      modifies this`refs, this`holders, this`held
      ensures Sound() && holders == old(holders)[o := old(holders[o]).PlusWeak(id)] && held == old(held) + {o}
    {
      hide *;
      SoundIs();
      Holding(o);
      CountsUp(refs[o], holders[o], id);
      HeldMore(objects, refs, holders, made, held, freed, o, Weaker(refs[o], id), holders[o].PlusWeak(id));
      IncWeak(o, id);
      holders, held := holders[o := holders[o].PlusWeak(id)], held + {o};
      SoundIs();
    }

    /** `createWeak`: one more weak reference to `o`, under an identity that may have some already. */
    method CreateWeak(o: int, id: int)
      requires Valid() && o in objects
      modifies this`refs, this`holders, this`held, this`weakRefs
      ensures Valid() && Program() == After(old(Program()), Weak(o, id))
      ensures holders == old(holders)[o := old(holders[o]).PlusWeak(id)]
    {
      ValidIs();
      ProgramIs();
      ghost var names := Program();
      TiedWeak(handles, objects, holders, o, holders[o].PlusWeak(id));
      ReferredAdd(weakRefs, holders, WeakRef(o, id));
      hide *;
      AcquireWeak(o, id);
      weakRefs := [WeakRef(o, id)] + weakRefs;
      ValidIs();
      ProgramIs();
      AfterWeak(names, o, id);
    }

    method ReleaseSharedWeak(o: int, id: int)
      requires Sound() && o in holders && id in holders[o].weak && holders[o].Size() != 1
      modifies this`objects, this`refs, this`holders
      ensures Sound() && objects == old(objects) && holders == old(holders)[o := old(holders[o]).MinusWeak(id)]
    {
      Holding(o);
      CountsDownWeak(refs[o], holders[o], id);
      hide Counts, Counted, Kept, Ledger, Bag.MinusWeak, WithoutWeak, Bag.Size;
      CountedPut(refs, holders, o, WithoutWeak(refs[o], id), holders[o].MinusWeak(id));
      KeptPut(holders, held, o, holders[o].MinusWeak(id));
      assert held + {o} == held;
      DecWeak(o, id);
      holders := holders[o := holders[o].MinusWeak(id)];
    }

    method ReleaseLastWeak(o: int, id: int)
      requires Sound() && o in holders && id in holders[o].weak && holders[o].Size() == 1
      modifies this`objects, this`refs, this`holders, this`freed
      ensures Sound() && objects == old(objects) - {o} && freed == old(freed) + [o] && holders == old(holders) - {o}
    {
      Holding(o);
      CountsDownWeak(refs[o], holders[o], id);
      hide Counts, Counted, Kept, Ledger, Bag.MinusWeak, WithoutWeak, Bag.Size;
      LedgerFree(objects, made, held, freed, o);
      Drop(refs, holders, held, o);
      DecWeak(o, id);
      holders, freed := holders - {o}, freed + [o];
    }

    lemma WeakHolding(w: WeakRef)
      requires Valid() && w in weakRefs
      ensures var o := w.target;
        && o in objects && o in refs && o in holders && w.id in holders[o].weak
        && (refs[o].weak == 1 <==> holders[o].Size() == 1)
        && (holders[o].Size() == 1 <==> Pointing(handles, o) == {} && !WeaklyHeld(Dropped(weakRefs, w), o))
    {
      var o := w.target;
      Holding(o);
      WeakIdsOf(weakRefs, o);
      DroppedIs(weakRefs, w, o);
      WeakIdsOf(Dropped(weakRefs, w), o);
      var p, rest := Pointing(handles, o), WeakIds(Dropped(weakRefs, w), o);
      assert holders[o].strong == multiset(p) && rest == holders[o].weak - multiset{w.id};
      hide Pointing, WeaklyHeld, WeakIds, Tied, Sound, Referred, Dropped;
      assert |multiset(p)| == |p|;
      assert holders[o].weak == rest + multiset{w.id};
    }

    /** `decWeak` by the holder of a weak reference: its object goes if and only if no handle points to
        it and no other weak reference to it is out. */
    method DropWeak(w: WeakRef) returns (gone: bool)
      requires Valid() && w in weakRefs
      modifies this`objects, this`refs, this`holders, this`freed, this`weakRefs
      ensures Valid() && Program() == After(old(Program()), Unweak(w))
      ensures gone == (Pointing(handles, w.target) == {} && !WeaklyHeld(weakRefs, w.target))
      ensures if gone then objects == old(objects) - {w.target} && freed == old(freed) + [w.target]
              else objects == old(objects) && freed == old(freed)
    {
      hide Sound, Tied, Bag.Size, Counts, Bag.MinusWeak, Referred, Pointing, WeaklyHeld, Dropped;
      var o := w.target;
      WeakHolding(w);
      Drops(w);
      gone := refs[o].weak == 1;
      if gone {
        ReleaseLastWeak(o, w.id);
      } else {
        ReleaseSharedWeak(o, w.id);
      }
      weakRefs := Dropped(weakRefs, w);
    }

    /** Handles and references stay tied to the holders, whichever way a reference is given back. */
    lemma Drops(w: WeakRef)
      requires Valid() && w in weakRefs
      ensures var o, less := w.target, Dropped(weakRefs, w);
        && o in holders
        && Tied(handles, objects, holders[o := holders[o].MinusWeak(w.id)])
        && Referred(less, holders[o := holders[o].MinusWeak(w.id)])
        && (holders[o].Size() == 1 ==> Tied(handles, objects - {o}, holders - {o}) && Referred(less, holders - {o}))
    {
      WeakHolding(w);
      ReferredDrop(weakRefs, holders, w);
      hide Sound, Referred, Pointing, WeaklyHeld, Dropped, Bag.Size;
      TiedWeak(handles, objects, holders, w.target, holders[w.target].MinusWeak(w.id));
      hide Tied;
      if holders[w.target].Size() == 1 {
        TiedGone(handles, objects, holders, w.target, w.id);
      }
    }

    // ---------------------------------------------------------------- what a program does

    method Allocate() returns (o: int)
      requires Sound()
      modifies this`objects, this`refs, this`made, this`holders
      ensures Sound() && o == old(made) && made == o + 1 && o !in freed && o !in old(objects)
      ensures objects == old(objects) + {o} && holders == old(holders)[o := NOBODY]
    {
      hide Counted, Kept, Ledger;
      o := made;
      var r := Impl(INITIAL_STRONG_VALUE, 0, [], []);
      var more, all := refs[o := r], objects + {o};
      ghost var known := holders[o := NOBODY];
      LedgerNew(objects, made, held, freed);
      FirstCounts(refs, holders, held, o, r);
      assert more.Keys == all && Counted(more, known) && Kept(known, held);
      objects, made, refs, holders := all, made + 1, more, known;
    }

    /** `new` of an object: nobody holds it yet, and only a last holder will free it. */
    method NewObject() returns (o: int)
      requires Valid()
      modifies this`objects, this`refs, this`made, this`holders
      ensures Valid() && o == old(made) && Program() == After(old(Program()), New)
      ensures objects == old(objects) + {o} && o !in old(objects)
      ensures Pointing(handles, o) == {} && o in holders && holders[o] == NOBODY
    {
      assert made !in objects by { LedgerNew(objects, made, held, freed); }
      TiedFresh(handles, objects, holders, made);
      assert made !in holders by { LedgerNew(objects, made, held, freed); }
      ReferredNew(weakRefs, holders, made);
      hide Sound, Tied, Pointing, Referred;
      o := Allocate();
    }

    /** `sp(T*)` and `sp(const sp&)`, given the pointer the new handle starts with. */
    method Construct(h: int, p: Option<int>)
      requires Valid() && h !in handles && (p.Some? ==> p.value in objects)
      modifies this`refs, this`handles, this`holders, this`held
      ensures Valid() && Program() == After(old(Program()), Make(h, p))
      ensures handles == old(handles)[h := p]
      ensures p.Some? ==>
        && p.value in old(refs) && p.value in refs
        && refs[p.value].strong == old(refs[p.value]).strong + 1 && refs[p.value].weak == old(refs[p.value]).weak + 1
        && refs[p.value].strongIds == [h] + old(refs[p.value]).strongIds
      ensures refs.Keys == old(refs).Keys && forall o :: o in refs && p != Some(o) ==> refs[o] == old(refs)[o]
    {
      TiedNew(handles, objects, holders, h, p);
      ReferredMoved(weakRefs, holders, h, p, None);
      hide Sound, Tied, Referred;
      handles := handles[h := p];
      Take(p, h);
    }

    method Take(p: Option<int>, h: int)
      requires Sound() && (p.Some? ==> p.value in holders)
      modifies this`refs, this`holders, this`held
      ensures Sound() && holders == Taken(old(holders), p, h) && held == old(held) + Pointee(p)
      ensures p.Some? ==> p.value in old(refs)
      ensures refs == if p.Some? then old(refs)[p.value := Stronger(old(refs[p.value]), h)] else old(refs)
    {
      if p.Some? {
        hide Sound;
        Acquire(p.value, h);
      }
    }

    method GiveBack(q: Option<int>, h: int) returns (gone: bool)
      requires Sound() && (q.Some? ==> q.value in holders && h in holders[q.value].strong)
      modifies this`objects, this`refs, this`holders, this`freed
      ensures Sound() && gone == (q.Some? && old(holders)[q.value].Size() == 1)
      ensures gone ==>
        objects == old(objects) - {q.value} && freed == old(freed) + [q.value] && holders == old(holders) - {q.value}
      ensures !gone ==> objects == old(objects) && freed == old(freed) && holders == GivenBack(old(holders), q, h)
    {
      gone := false;
      if q.Some? {
        hide Sound;
        gone := Release(q.value, h);
      }
    }

    /** What letting go of `q` did: `q` is gone if and only if no handle points to it any more and no
        weak reference to it is out, and nothing else is. */
    ghost predicate FreedOnly(q: Option<int>, oldObjects: set<int>, oldFreed: seq<int>)
      reads this
    {
      if q.Some? && Pointing(handles, q.value) == {} && !WeaklyHeld(weakRefs, q.value) then
        objects == oldObjects - {q.value} && freed == oldFreed + [q.value]
      else
        objects == oldObjects && freed == oldFreed
    }

    /** Both assignments: the new pointee is taken before the old one is let go, so that assigning a
        handle to itself, or the pointer it holds already, is safe. */
    method Assign(h: int, p: Option<int>)
      requires Valid() && h in handles && (p.Some? ==> p.value in objects)
      modifies this`objects, this`refs, this`handles, this`holders, this`freed, this`held
      ensures Valid() && Program() == After(old(Program()), Set(h, p)) && handles == old(handles)[h := p]
      ensures old(freed) <= freed && FreedOnly(old(handles)[h], old(objects), old(freed))
    {
      hide *;
      ghost var before, names := holders, Program();
      ProgramIs();
      ValidIs();
      Take(p, h);
      LetGo(h, p, before);
      ProgramIs();
      AfterSet(names, h, p);
    }

    /** The second half of an assignment, and all of `clear`: the old pointee is given back. */
    method LetGo(h: int, p: Option<int>, ghost before: map<int, Bag>)
      requires Sound() && h in handles && (p.Some? ==> p.value in objects)
      requires Tied(handles, objects, before) && holders == Taken(before, p, h) && Referred(weakRefs, before)
      modifies this`objects, this`refs, this`handles, this`holders, this`freed
      ensures Valid() && handles == old(handles)[h := p]
      ensures old(freed) <= freed && FreedOnly(old(handles)[h], old(objects), old(freed))
    {
      hide Sound, Tied, Pointing, Taken, GivenBack, Bag.Size, Referred, WeaklyHeld;
      var q := handles[h];
      Moved(handles, objects, before, weakRefs, h, p);
      var gone := GiveBack(q, h);
      handles := handles[h := p];
    }

    method Clear(h: int)
      requires Valid() && h in handles
      modifies this`objects, this`refs, this`handles, this`holders, this`freed
      ensures Valid() && Program() == After(old(Program()), Reset(h)) && handles == old(handles)[h := None]
      ensures old(freed) <= freed && FreedOnly(old(handles)[h], old(objects), old(freed))
    {
      hide Sound, FreedOnly;
      if handles[h].Some? {
        LetGo(h, None, holders);
      } else {
        assert handles[h := None] == handles;
        NothingFreed(None);
      }
    }

    lemma NothingFreed(q: Option<int>)
      requires q.None?
      ensures FreedOnly(q, objects, freed)
    {
    }

    /** `~sp`. */
    method Destroy(h: int)
      requires Valid() && h in handles
      modifies this`objects, this`refs, this`handles, this`holders, this`freed
      ensures Valid() && Program() == After(old(Program()), End(h)) && handles == old(handles) - {h}
      ensures old(freed) <= freed && FreedOnly(old(handles)[h], old(objects), old(freed))
    {
      hide Sound, Tied, Referred, Pointing, WeaklyHeld;
      Clear(h);
      TiedWithout(handles, objects, holders, h);
      WithoutReset(old(handles), h);
      handles := handles - {h};
    }

    // ---------------------------------------------------------------- whole runs

    /** What the language lets a program do next: handles are made once, used while they exist, and
        raw pointers are null or point to objects in memory. */
    predicate Legal(op: Op)
      reads this`objects, this`handles, this`weakRefs
    {
      match op
      case New => true
      case Make(h, p) => h !in handles && (p.Some? ==> p.value in objects)
      case Copy(h, from) => h !in handles && from in handles
      case Set(h, p) => h in handles && (p.Some? ==> p.value in objects)
      case SetFrom(h, from) => h in handles && from in handles
      case Reset(h) => h in handles
      case End(h) => h in handles
      case Weak(o, _) => o in objects
      case Unweak(w) => w in weakRefs
    }

    lemma HandlesPointToObjects()
      requires Valid()
      ensures forall h :: h in handles && handles[h].Some? ==> handles[h].value in objects
    {
      hide Sound, Referred;
    }

    /** One statement of a program; assigning a handle to itself is one. */
    method Do(op: Op)
      requires Valid() && Legal(op)
      modifies this
      ensures Valid() && old(freed) <= freed
      ensures Program() == After(old(Program()), op)
    {
      hide Sound, Tied, Referred, FreedOnly, Pointing, Valid, WeaklyHeld, Dropped;
      HandlesPointToObjects();
      match op {
        case New => var _ := NewObject();
        case Make(h, p) => Construct(h, p);
        case Copy(h, from) => Construct(h, handles[from]);
        case Set(h, p) => Assign(h, p);
        case SetFrom(h, from) => Assign(h, handles[from]);
        case Reset(h) => Clear(h);
        case End(h) => Destroy(h);
        case Weak(o, id) => CreateWeak(o, id);
        case Unweak(w) => var _ := DropWeak(w);
      }
    }

    /** A program, up to its first statement that is not legal. After every statement the invariant
        holds, and with it the conservation of counts; the handles, the weak references, the objects
        made and the objects ever held are those of the program, so that `FreedExactlyWhenUnheld`
        says of each object whether it is still in memory. */
    method Run(program: seq<Op>) returns (n: nat)
      requires Valid()
      modifies this
      ensures n <= |program| && Valid() && old(freed) <= freed
      ensures Program() == AfterAll(old(Program()), program[..n])
      ensures n < |program| ==> !Legal(program[n])
    {
      n := 0;
      while n < |program| && Legal(program[n])
        invariant n <= |program| && Valid() && old(freed) <= freed
        invariant Program() == AfterAll(old(Program()), program[..n])
      {
        hide Valid, Program, After;
        assert program[..n + 1][..n] == program[..n];
        Do(program[n]);
        n := n + 1;
      }
    }
  }

  datatype Op =
    | New
    | Make(h: int, p: Option<int>)
    | Copy(h: int, from: int)
    | Set(h: int, p: Option<int>)
    | SetFrom(h: int, from: int)
    | Reset(h: int)
    | End(h: int)
    | Weak(o: int, id: int)
    | Unweak(w: WeakRef)

  /** What a program names: its handles with their pointees, its weak references, the objects it has had
      some handle or weak reference to, and how many objects it has made. */
  datatype Names = Names(handles: Handles, weakRefs: seq<WeakRef>, held: set<int>, made: nat)

  function Pointee(p: Option<int>): set<int> {
    if p.Some? then {p.value} else {}
  }

  function Point(n: Names, h: int, p: Option<int>): Names {
    n.(handles := n.handles[h := p], held := n.held + Pointee(p))
  }

  /** What a program names after a statement. */
  function After(n: Names, op: Op): Names {
    match op
    case New => n.(made := n.made + 1)
    case Make(h, p) => Point(n, h, p)
    case Copy(h, from) => if from in n.handles then Point(n, h, n.handles[from]) else n
    case Set(h, p) => Point(n, h, p)
    case SetFrom(h, from) => if from in n.handles then Point(n, h, n.handles[from]) else n
    case Reset(h) => Point(n, h, None)
    case End(h) => n.(handles := n.handles - {h})
    case Weak(o, id) => n.(weakRefs := [WeakRef(o, id)] + n.weakRefs, held := n.held + {o})
    case Unweak(w) => n.(weakRefs := Dropped(n.weakRefs, w))
  }

  lemma AfterSet(n: Names, h: int, p: Option<int>)
    ensures After(n, Set(h, p)) == Names(n.handles[h := p], n.weakRefs, n.held + Pointee(p), n.made)
  {
  }

  lemma AfterWeak(n: Names, o: int, id: int)
    ensures After(n, Weak(o, id)) == Names(n.handles, [WeakRef(o, id)] + n.weakRefs, n.held + {o}, n.made)
  {
  }

  function AfterAll(n: Names, program: seq<Op>): Names
    decreases |program|
  {
    if program == [] then n
    else After(AfterAll(n, program[..|program| - 1]), program[|program| - 1])
  }

  // ---------------------------------------------------------------- handles and holders

  ghost function Taken(holders: map<int, Bag>, p: Option<int>, h: int): map<int, Bag> {
    if p.Some? && p.value in holders then holders[p.value := holders[p.value].Plus(h)] else holders
  }

  ghost function GivenBack(holders: map<int, Bag>, q: Option<int>, h: int): map<int, Bag> {
    if q.Some? && q.value in holders then holders[q.value := holders[q.value].Minus(h)] else holders
  }

  lemma ReferredAdd(weakRefs: seq<WeakRef>, holders: map<int, Bag>, w: WeakRef)
    requires Referred(weakRefs, holders) && w.target in holders
    ensures Referred([w] + weakRefs, holders[w.target := holders[w.target].PlusWeak(w.id)])
  {
    var more, o := [w] + weakRefs, w.target;
    assert more[0] == w && more[1..] == weakRefs;
    forall u | u in holders
      ensures WeakIds(more, u) == (if o == u then multiset{w.id} else multiset{}) + WeakIds(weakRefs, u)
    {
    }
    hide WeakIds;
    assert forall v :: v in more <==> v == w || v in weakRefs;
  }

  lemma ReferredNew(weakRefs: seq<WeakRef>, holders: map<int, Bag>, o: int)
    requires Referred(weakRefs, holders) && o !in holders
    ensures Referred(weakRefs, holders[o := NOBODY])
  {
    WeakIdsOf(weakRefs, o);
    hide WeakIds;
  }

  /** An object that no weak reference names can go. */
  lemma ReferredGone(weakRefs: seq<WeakRef>, holders: map<int, Bag>, o: int)
    requires Referred(weakRefs, holders) && !WeaklyHeld(weakRefs, o)
    ensures Referred(weakRefs, holders - {o})
  {
    hide WeakIds;
  }

  /** Strong holders come and go without touching the weak ones. */
  lemma ReferredMoved(weakRefs: seq<WeakRef>, holders: map<int, Bag>, h: int, p: Option<int>, q: Option<int>)
    requires Referred(weakRefs, holders)
    ensures Referred(weakRefs, Taken(holders, p, h)) && Referred(weakRefs, GivenBack(Taken(holders, p, h), q, h))
  {
    hide WeakIds;
  }

  lemma ReferredDrop(weakRefs: seq<WeakRef>, holders: map<int, Bag>, w: WeakRef)
    requires Referred(weakRefs, holders) && w in weakRefs
    ensures var o := w.target;
      && o in holders && Referred(Dropped(weakRefs, w), holders[o := holders[o].MinusWeak(w.id)])
      && (!WeaklyHeld(Dropped(weakRefs, w), o) ==> Referred(Dropped(weakRefs, w), holders - {o}))
  {
    var less, o := Dropped(weakRefs, w), w.target;
    var fewer := holders[o := holders[o].MinusWeak(w.id)];
    ReferredLess(weakRefs, holders, w);
    hide *;
    if !WeaklyHeld(less, o) {
      ReferredGone(less, fewer, o);
      assert fewer - {o} == holders - {o};
    }
  }

  lemma ReferredLess(weakRefs: seq<WeakRef>, holders: map<int, Bag>, w: WeakRef)
    requires Referred(weakRefs, holders) && w in weakRefs
    ensures w.target in holders
    ensures Referred(Dropped(weakRefs, w), holders[w.target := holders[w.target].MinusWeak(w.id)])
  {
    hide WeakIds, Dropped;
    var less, o := Dropped(weakRefs, w), w.target;
    DroppedWithin(weakRefs, w);
    forall u | u in holders
      ensures WeakIds(less, u) == WeakIds(weakRefs, u) - if o == u then multiset{w.id} else multiset{}
    {
      DroppedIs(weakRefs, w, u);
    }
  }

  lemma PointingSet(handles: Handles, h: int, p: Option<int>, o: int)
    ensures Pointing(handles[h := p], o) == Pointing(handles, o) - {h} + if p == Some(o) then {h} else {}
    ensures h in Pointing(handles, o) <==> h in handles && handles[h] == Some(o)
  {
  }

  lemma TiedNew(handles: Handles, objects: set<int>, holders: map<int, Bag>, h: int, p: Option<int>)
    requires Tied(handles, objects, holders) && h !in handles && (p.Some? ==> p.value in objects)
    ensures Tied(handles[h := p], objects, Taken(holders, p, h)) && (p.Some? ==> p.value in holders)
  {
    forall o | o in objects
      ensures o in Taken(holders, p, h) && Taken(holders, p, h)[o].strong == multiset(Pointing(handles[h := p], o))
    {
      PointingSet(handles, h, p, o);
      hide Pointing;
    }
  }

  lemma TiedFresh(handles: Handles, objects: set<int>, holders: map<int, Bag>, o: int)
    requires Tied(handles, objects, holders) && o !in objects
    ensures Pointing(handles, o) == {}
    ensures Tied(handles, objects + {o}, holders[o := NOBODY])
  {
    forall h | h in handles && handles[h].Some? ensures handles[h].value != o {
    }
    assert forall h :: h !in Pointing(handles, o);
  }

  lemma TiedWeak(handles: Handles, objects: set<int>, holders: map<int, Bag>, o: int, b: Bag)
    requires Tied(handles, objects, holders) && o in holders && b.strong == holders[o].strong
    ensures Tied(handles, objects, holders[o := b])
  {
    hide Pointing;
  }

  /** An object that loses its last, weak, holder has no handle. */
  lemma TiedGone(handles: Handles, objects: set<int>, holders: map<int, Bag>, o: int, id: int)
    requires Tied(handles, objects, holders) && o in objects && o in holders && holders[o].Size() == 1
      && id in holders[o].weak
    ensures Tied(handles, objects - {o}, holders - {o})
  {
    assert |multiset(Pointing(handles, o))| == |Pointing(handles, o)|;
    assert Pointing(handles, o) == {};
    forall h | h in handles && handles[h].Some? ensures handles[h].value in objects - {o} {
      assert handles[h].value == o ==> h in Pointing(handles, o);
    }
  }

  /** Taking the new pointee and then giving back the old one ties the moved handle, whether or not
      the two are the same. */
  lemma TiedMoved(handles: Handles, objects: set<int>, holders: map<int, Bag>, h: int, p: Option<int>)
    requires Tied(handles, objects, holders) && h in handles && (p.Some? ==> p.value in objects)
    ensures Tied(handles[h := p], objects, GivenBack(Taken(holders, p, h), handles[h], h))
  {
    var t := GivenBack(Taken(holders, p, h), handles[h], h);
    forall o | o in objects ensures o in t && t[o].strong == multiset(Pointing(handles[h := p], o)) {
      PointingSet(handles, h, p, o);
      hide Pointing;
    }
  }

  /** The old pointee has no holder but this one, before it is given back, exactly if no handle
      points to it afterwards and nobody holds it weakly. */
  lemma LastHandle(handles: Handles, objects: set<int>, holders: map<int, Bag>, h: int, p: Option<int>)
    requires Tied(handles, objects, holders) && h in handles && (p.Some? ==> p.value in objects)
    ensures var q := handles[h]; var s := Taken(holders, p, h);
      q.Some? ==> q.value in holders && q.value in s && h in s[q.value].strong &&
                  (s[q.value].Size() == 1 <==> Pointing(handles[h := p], q.value) == {} && |holders[q.value].weak| == 0)
  {
    var q, s := handles[h], Taken(holders, p, h);
    if q.Some? {
      PointingSet(handles, h, p, q.value);
      assert holders[q.value].strong == multiset(Pointing(handles, q.value));
      hide Pointing;
      var rest := Pointing(handles[h := p], q.value);
      assert s[q.value].strong == multiset(rest) + multiset{h};
      assert |multiset(rest)| == |rest|;
    }
  }

  /** What moving a handle comes to, in one piece. */
  lemma Moved(handles: Handles, objects: set<int>, holders: map<int, Bag>, weakRefs: seq<WeakRef>, h: int,
      p: Option<int>)
    requires Tied(handles, objects, holders) && Referred(weakRefs, holders) && h in handles
      && (p.Some? ==> p.value in objects)
    ensures var q := handles[h]; var s := Taken(holders, p, h); var after := handles[h := p];
      && Tied(after, objects, GivenBack(s, q, h)) && Referred(weakRefs, GivenBack(s, q, h))
      && (q.Some? ==> q.value in holders && q.value in s && h in s[q.value].strong)
      && (q.Some? ==> (s[q.value].Size() == 1 <==> Pointing(after, q.value) == {} && !WeaklyHeld(weakRefs, q.value)))
      && (q.Some? && s[q.value].Size() == 1 ==>
            Tied(after, objects - {q.value}, s - {q.value}) && Referred(weakRefs, s - {q.value}))
  {
    var q, s, after := handles[h], Taken(holders, p, h), handles[h := p];
    TiedMoved(handles, objects, holders, h, p);
    LastHandle(handles, objects, holders, h, p);
    ReferredMoved(weakRefs, holders, h, p, q);
    if q.Some? {
      WeakIdsOf(weakRefs, q.value);
      assert holders[q.value].weak == WeakIds(weakRefs, q.value);
      hide Tied, Referred, Taken, GivenBack, Bag.Size, WeakIds, WeaklyHeld;
      if Pointing(after, q.value) == {} {
        TiedGiven(after, objects, s, q.value, h);
      }
      if !WeaklyHeld(weakRefs, q.value) {
        ReferredGone(weakRefs, s, q.value);
      }
    }
  }

  /** An object no handle points to can go. */
  lemma TiedGiven(handles: Handles, objects: set<int>, holders: map<int, Bag>, q: int, h: int)
    requires Tied(handles, objects, GivenBack(holders, Some(q), h)) && Pointing(handles, q) == {}
    ensures Tied(handles, objects - {q}, holders - {q})
  {
    forall h | h in handles && handles[h].Some? ensures handles[h].value in objects - {q} {
      assert handles[h].value == q ==> h in Pointing(handles, q);
    }
  }

  lemma WithoutReset(handles: Handles, h: int)
    ensures handles[h := None] - {h} == handles - {h}
  {
  }

  lemma TiedWithout(handles: Handles, objects: set<int>, holders: map<int, Bag>, h: int)
    requires Tied(handles, objects, holders) && h in handles && handles[h].None?
    ensures Tied(handles - {h}, objects, holders)
    ensures forall o :: Pointing(handles - {h}, o) == Pointing(handles, o)
  {
    forall o ensures Pointing(handles - {h}, o) == Pointing(handles, o) {
    }
  }

  // ---------------------------------------------------------------- the debug lists as they are linked

  /** What happens to the counts of an object while it lives. */
  datatype Change = UpStrong(id: int) | DownStrong(id: int) | UpWeak(id: int) | DownWeak(id: int)

  function Changed(r: Impl, change: Change): Impl {
    match change
    case UpStrong(id) => Stronger(r, id)
    case DownStrong(id) => WithoutWeak(WithoutStrong(r, id), id)
    case UpWeak(id) => Weaker(r, id)
    case DownWeak(id) => WithoutWeak(r, id)
  }

  function ChangedAll(r: Impl, changes: seq<Change>): Impl
    decreases |changes|
  {
    if changes == [] then r else ChangedAll(Changed(r, changes[0]), changes[1..])
  }

  /** A `weakref_impl` with its two lists of holders, tracking switched on. */
  class LinkedImpl {
    const strongRefs: Holders
    const weakRefs: Holders
    var strong: int
    var weak: int

    /** The counts are those of `r`, and the links run down its two sequences of identities. */
    ghost predicate Shows(r: Impl)
      reads this, strongRefs, weakRefs, strongRefs.spine, weakRefs.spine
    {
      && strongRefs != weakRefs && Apart(strongRefs.spine, weakRefs.spine)
      && Lists(strongRefs, r.strongIds) && Lists(weakRefs, r.weakIds) && r.strong == strong && r.weak == weak
    }

    static ghost predicate Lists(h: Holders, ids: seq<int>)
      reads h, h.spine
    {
      h.Valid() && h.tracking && h.Ids() == ids
    }

    static ghost predicate Apart(a: seq<RefEntry>, b: seq<RefEntry>) {
      forall i, j :: 0 <= i < |a| && 0 <= j < |b| ==> a[i] != b[j]
    }

    static lemma ListsAre(h: Holders, ids: seq<int>)
      ensures Lists(h, ids) <==> h.Valid() && h.tracking && h.Ids() == ids
    {
      hide Holders.Valid, Holders.Ids;
    }

    /** The same, entry by entry. */
    static lemma EntriesAre(h: Holders, ids: seq<int>)
      ensures Lists(h, ids) <==>
        && h.tracking && h.head == Holders.At(h.spine, 0) && Distinct(h.spine) && |ids| == |h.spine|
        && forall i {:trigger h.spine[i]} :: 0 <= i < |h.spine| ==>
             h.spine[i].next == Holders.At(h.spine, i + 1) && h.spine[i].id == ids[i]
    {
      hide Distinct;
    }

    /** Removes from one list and leaves the other alone. */
    static method RemoveFrom(h: Holders, id: int, other: Holders, ghost ids: seq<int>, ghost others: seq<int>)
      requires h != other && Lists(h, ids) && Lists(other, others) && Apart(h.spine, other.spine)
      modifies h, h.spine
      ensures Lists(h, RemoveFirst(ids, id)) && Lists(other, others) && Apart(h.spine, other.spine)
      ensures Holders.Within(h.spine, old(h.spine))
    {
      hide *;
      ListsAre(h, ids);
      EntriesAre(other, others);
      OnlyIn(h.spine, other.spine);
      var _ := h.RemoveRef(id);
      ListsAre(h, RemoveFirst(ids, id));
      EntriesAre(other, others);
      StillApart(h.spine, other.spine, old(h.spine));
    }

    static lemma OnlyIn(a: seq<RefEntry>, b: seq<RefEntry>)
      requires Apart(a, b)
      ensures forall j {:trigger b[j]} :: 0 <= j < |b| ==> b[j] !in a
    {
    }

    static lemma StillApart(a: seq<RefEntry>, b: seq<RefEntry>, were: seq<RefEntry>)
      requires Apart(were, b) && Holders.Within(a, were)
      ensures Apart(a, b)
    {
    }

    constructor ()
      ensures Shows(Impl(INITIAL_STRONG_VALUE, 0, [], [])) && fresh(strongRefs) && fresh(weakRefs)
      ensures strongRefs.spine == [] && weakRefs.spine == []
    {
      strongRefs := new Holders(true);
      weakRefs := new Holders(true);
      strong, weak := INITIAL_STRONG_VALUE, 0;
      new;
      assert strongRefs.spine == [] && weakRefs.spine == [] by { assert |strongRefs.Ids()| == 0 == |weakRefs.Ids()|; }
    }

    /** `addStrongRef`, with the count. */
    method AddStrong(id: int, ghost r: Impl)
      requires Shows(r)
      modifies this`strong, strongRefs
      ensures Shows(r.(strongIds := [id] + r.strongIds, strong := r.strong + 1))
      ensures forall i :: 0 <= i < |strongRefs.spine| ==>
        strongRefs.spine[i] in old(strongRefs.spine) || fresh(strongRefs.spine[i])
    {
      strongRefs.AddRef(id, strong);
      strong := strong + 1;
    }

    /** `addWeakRef`, with the count. */
    method AddWeak(id: int, ghost r: Impl)
      requires Shows(r)
      modifies this`weak, weakRefs
      ensures Shows(Weaker(r, id))
      ensures forall i :: 0 <= i < |weakRefs.spine| ==>
        weakRefs.spine[i] in old(weakRefs.spine) || fresh(weakRefs.spine[i])
    {
      weakRefs.AddRef(id, weak);
      weak := weak + 1;
    }

    /** `removeStrongRef`, with the count. */
    method RemoveStrong(id: int, ghost r: Impl)
      requires Shows(r)
      modifies this`strong, strongRefs, strongRefs.spine
      ensures Shows(WithoutStrong(r, id))
      ensures forall i :: 0 <= i < |strongRefs.spine| ==>
        strongRefs.spine[i] in old(strongRefs.spine) || fresh(strongRefs.spine[i])
    {
      hide RemoveFirst, Lists;
      RemoveFrom(strongRefs, id, weakRefs, r.strongIds, r.weakIds);
      strong := strong - 1;
    }

    /** `removeWeakRef`, with the count. */
    method RemoveWeak(id: int, ghost r: Impl)
      requires Shows(r)
      modifies this`weak, weakRefs, weakRefs.spine
      ensures Shows(WithoutWeak(r, id))
      ensures forall i :: 0 <= i < |weakRefs.spine| ==>
        weakRefs.spine[i] in old(weakRefs.spine) || fresh(weakRefs.spine[i])
    {
      hide RemoveFirst, Lists;
      RemoveFrom(weakRefs, id, strongRefs, r.weakIds, r.strongIds);
      weak := weak - 1;
    }

    /** One `incStrong`, `decStrong`, `incWeak` or `decWeak`, in the order of the source. */
    method Change(change: Change, ghost r: Impl)
      requires Shows(r)
      modifies this, strongRefs, weakRefs, strongRefs.spine, weakRefs.spine
      ensures Shows(Changed(r, change))
      ensures forall i :: 0 <= i < |strongRefs.spine| ==>
        strongRefs.spine[i] in old(strongRefs.spine) || fresh(strongRefs.spine[i])
      ensures forall i :: 0 <= i < |weakRefs.spine| ==>
        weakRefs.spine[i] in old(weakRefs.spine) || fresh(weakRefs.spine[i])
    {
      hide Shows, RemoveFirst;
      match change {
        case UpStrong(id) =>
          AddWeak(id, r);
          AddStrong(id, Weaker(r, id));
        case DownStrong(id) =>
          RemoveStrong(id, r);
          RemoveWeak(id, WithoutStrong(r, id));
        case UpWeak(id) => AddWeak(id, r);
        case DownWeak(id) => RemoveWeak(id, r);
      }
    }

    /** Over every run the linked lists are the sequences that the counts of an object are modelled with. */
    method RunChanges(changes: seq<Change>, ghost r: Impl)
      requires Shows(r)
      modifies this, strongRefs, weakRefs, strongRefs.spine, weakRefs.spine
      ensures Shows(ChangedAll(r, changes))
    {
      hide Shows, Changed;
      var i := 0;
      ghost var now := r;
      assert changes[0..] == changes;
      while i < |changes|
        invariant i <= |changes| && Shows(now) && ChangedAll(now, changes[i..]) == ChangedAll(r, changes)
        invariant forall i :: 0 <= i < |strongRefs.spine| ==>
          strongRefs.spine[i] in old(strongRefs.spine) || fresh(strongRefs.spine[i])
        invariant forall i :: 0 <= i < |weakRefs.spine| ==>
          weakRefs.spine[i] in old(weakRefs.spine) || fresh(weakRefs.spine[i])
      {
        assert changes[i..][0] == changes[i] && changes[i..][1..] == changes[i + 1..];
        Change(changes[i], now);
        now := Changed(now, changes[i]);
        i := i + 1;
      }
    }
  }
}
