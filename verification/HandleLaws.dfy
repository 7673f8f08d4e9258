/** What a program's statements mean to its handles and weak references, said without the function that runs
    them: which pointer a handle holds is what its last construction, copy, assignment or clear gave it. */
module HandleLaws {
  import opened Collections
  import opened RefCount

  // ---------------------------------------------------------------- one statement

  /** The handle that a statement is about. */
  function Target(op: Op): Option<int> {
    match op
    case Make(h, _) => Some(h)
    case Copy(h, _) => Some(h)
    case Set(h, _) => Some(h)
    case SetFrom(h, _) => Some(h)
    case Reset(h) => Some(h)
    case End(h) => Some(h)
    case _ => None
  }

  ghost predicate Holds(n: Names, h: int, p: Option<int>) {
    h in n.handles && n.handles[h] == p
  }

  /** The statement leaves the handle alone. */
  ghost predicate Same(n: Names, m: Names, h: int) {
    (h in m.handles <==> h in n.handles) && (h in n.handles ==> m.handles[h] == n.handles[h])
  }

  /** The statement gives `h` its pointer, or takes it away. A copy and its origin agree. */
  ghost predicate Given(n: Names, op: Op, m: Names) {
    match op
    case Make(h, p) => Holds(m, h, p)
    case Set(h, p) => Holds(m, h, p)
    case Copy(h, from) => from in n.handles ==> Holds(m, h, n.handles[from])
    case SetFrom(h, from) => from in n.handles ==> Holds(m, h, n.handles[from]) && Holds(m, from, n.handles[from])
    case Reset(h) => Holds(m, h, None)
    case End(h) => h !in m.handles
    case _ => true
  }

  /** The statement makes something hold `o`. */
  ghost predicate Gives(n: Names, op: Op, o: int) {
    match op
    case Make(_, p) => p == Some(o)
    case Set(_, p) => p == Some(o)
    case Copy(_, from) => Holds(n, from, Some(o))
    case SetFrom(_, from) => Holds(n, from, Some(o))
    case Weak(target, _) => target == o
    case _ => false
  }

  /** One statement: it gives its own handle what it says, and no other handle moves; what has ever been held
      grows by what it gives; a weak reference more or less is out; and objects are made one by one. */
  lemma StatementIs(n: Names, op: Op)
    ensures var m := After(n, op);
      && Given(n, op, m) && (forall h :: Target(op) != Some(h) ==> Same(n, m, h))
      && (forall o :: o in m.held <==> o in n.held || Gives(n, op, o))
      && m.made == n.made + (if op.New? then 1 else 0)
      && (op.Weak? ==> multiset(m.weakRefs) == multiset(n.weakRefs) + multiset{WeakRef(op.o, op.id)})
      && (op.Unweak? ==> multiset(m.weakRefs) == multiset(n.weakRefs) - multiset{op.w})
      && (!op.Weak? && !op.Unweak? ==> m.weakRefs == n.weakRefs)
  {
    GivenIs(n, op);
    HeldIs(n, op);
    WeakRefsAre(n, op);
    hide *;
  }

  lemma GivenIs(n: Names, op: Op)
    ensures Given(n, op, After(n, op)) && forall h :: Target(op) != Some(h) ==> Same(n, After(n, op), h)
  {
    hide Dropped, Pointee;
  }

  lemma HeldIs(n: Names, op: Op)
    ensures forall o :: o in After(n, op).held <==> o in n.held || Gives(n, op, o)
    ensures After(n, op).made == n.made + if op.New? then 1 else 0
  {
    hide Dropped;
  }

  lemma WeakRefsAre(n: Names, op: Op)
    ensures var m := After(n, op).weakRefs;
      && (op.Weak? ==> multiset(m) == multiset(n.weakRefs) + multiset{WeakRef(op.o, op.id)})
      && (op.Unweak? ==> multiset(m) == multiset(n.weakRefs) - multiset{op.w})
      && (!op.Weak? && !op.Unweak? ==> m == n.weakRefs)
  {
    if op.Weak? {
      assert multiset([WeakRef(op.o, op.id)] + n.weakRefs) == multiset{WeakRef(op.o, op.id)} + multiset(n.weakRefs);
    }
    if op.Unweak? {
      DroppedIsOne(n.weakRefs, op.w);
    }
    hide Dropped, Point;
  }

  lemma {:induction false} DroppedIsOne(weakRefs: seq<WeakRef>, w: WeakRef)
    ensures multiset(Dropped(weakRefs, w)) == multiset(weakRefs) - multiset{w}
  {
    if weakRefs != [] {
      assert weakRefs == [weakRefs[0]] + weakRefs[1..];
      DroppedIsOne(weakRefs[1..], w);
    }
  }

  // ---------------------------------------------------------------- a program

  lemma AfterAllStep(n: Names, program: seq<Op>)
    requires program != []
    ensures var i := |program| - 1; AfterAll(n, program) == After(AfterAll(n, program[..i]), program[i])
  {
    hide After;
  }

  /** A handle that some statements from the `i`-th on are not about stays as it was before them. */
  lemma {:induction false} Untouched(n: Names, program: seq<Op>, i: nat, h: int)
    requires i <= |program| && forall j :: i <= j < |program| ==> Target(program[j]) != Some(h)
    ensures Same(AfterAll(n, program[..i]), AfterAll(n, program), h)
    decreases |program|
  {
    hide *;
    if i == |program| {
      assert program[..i] == program;
      SameAsItself(AfterAll(n, program), h);
    } else {
      var less := program[..|program| - 1];
      AfterAllStep(n, program);
      assert less[..i] == program[..i];
      Untouched(n, less, i, h);
      StatementIs(AfterAll(n, less), program[|program| - 1]);
      SameTwice(AfterAll(n, program[..i]), AfterAll(n, less), AfterAll(n, program), h);
    }
  }

  lemma SameAsItself(n: Names, h: int)
    ensures Same(n, n, h)
  {
  }

  lemma SameTwice(a: Names, b: Names, c: Names, h: int)
    requires Same(a, b, h) && Same(b, c, h)
    ensures Same(a, c, h)
  {
  }

  /** Over a whole program each handle holds the pointer that the last statement about it gave it: the one it was
      made from or assigned, the one its origin held when it was copied, or null; and it is gone after its end. */
  lemma LastGives(n: Names, program: seq<Op>, i: nat, h: int)
    requires i < |program| && Target(program[i]) == Some(h)
    requires forall j :: i < j < |program| ==> Target(program[j]) != Some(h)
    ensures var before, m, op := AfterAll(n, program[..i]), AfterAll(n, program), program[i];
      && (op.Make? || op.Set? ==> Holds(m, h, op.p)) && (op.Reset? ==> Holds(m, h, None))
      && (op.Copy? || op.SetFrom? ==> op.from in before.handles ==> Holds(m, h, before.handles[op.from]))
      && (op.End? ==> h !in m.handles)
  {
    var before := AfterAll(n, program[..i]);
    assert program[..i + 1][..i] == program[..i] && program[..i + 1][i] == program[i];
    AfterAllStep(n, program[..i + 1]);
    StatementIs(before, program[i]);
    Untouched(n, program, i + 1, h);
    hide AfterAll, After, Gives;
  }

  /** One that no statement is about stays as it was. */
  lemma NeverGiven(n: Names, program: seq<Op>, h: int)
    requires forall j :: 0 <= j < |program| ==> Target(program[j]) != Some(h)
    ensures Same(n, AfterAll(n, program), h)
  {
    assert program[..0] == [] && AfterAll(n, []) == n;
    hide AfterAll, Same;
    Untouched(n, program, 0, h);
  }

  /** Some statement of the program gave `o` to a handle or a weak reference. */
  ghost predicate GivenBy(n: Names, program: seq<Op>, o: int) {
    exists i :: 0 <= i < |program| && GivesAt(n, program, i, o)
  }

  ghost predicate GivesAt(n: Names, program: seq<Op>, i: nat, o: int)
    requires i < |program|
  {
    Gives(AfterAll(n, program[..i]), program[i], o)
  }

  lemma GivenByStep(n: Names, program: seq<Op>, o: int)
    requires program != []
    ensures var i := |program| - 1; GivenBy(n, program, o) <==> GivenBy(n, program[..i], o) || GivesAt(n, program, i, o)
  {
    var i := |program| - 1;
    var less := program[..i];
    forall k | 0 <= k < i ensures GivesAt(n, less, k, o) <==> GivesAt(n, program, k, o) {
      assert less[..k] == program[..k] && less[k] == program[k];
    }
    hide GivesAt;
  }

  /** What has ever been held is what some statement gave to a handle or a weak reference. */
  lemma {:induction false} HeldAre(n: Names, program: seq<Op>, o: int)
    ensures o in AfterAll(n, program).held <==> o in n.held || GivenBy(n, program, o)
    decreases |program|
  {
    if program != [] {
      var i := |program| - 1;
      assert GivesAt(n, program, i, o) <==> Gives(AfterAll(n, program[..i]), program[i], o);
      hide *;
      AfterAllStep(n, program);
      GivenByStep(n, program, o);
      HeldAre(n, program[..i], o);
      StatementIs(AfterAll(n, program[..i]), program[i]);
    }
  }

  function News(program: seq<Op>): nat {
    if program == [] then 0 else News(program[..|program| - 1]) + if program[|program| - 1].New? then 1 else 0
  }

  lemma {:induction false} MadeAre(n: Names, program: seq<Op>)
    ensures AfterAll(n, program).made == n.made + News(program)
    decreases |program|
  {
    if program != [] {
      AfterAllStep(n, program);
      MadeAre(n, program[..|program| - 1]);
      StatementIs(AfterAll(n, program[..|program| - 1]), program[|program| - 1]);
      hide AfterAll, After, Gives, Given;
    }
  }

  // ---------------------------------------------------------------- what a program may do

  /** The object has been made, and nothing has held it yet, or something holds it still. */
  ghost predicate Exists(n: Names, o: int) {
    && 0 <= o < n.made
    && (o in n.held ==>
          || (exists h :: h in n.handles && n.handles[h] == Some(o))
          || (exists w :: w in n.weakRefs && w.target == o))
  }

  ghost predicate PointsWell(n: Names, p: Option<int>) {
    p.Some? ==> Exists(n, p.value)
  }

  /** Handles are made once and used while they are there, and raw pointers are null or point to objects that
      exist. */
  ghost predicate Allowed(n: Names, op: Op) {
    match op
    case New => true
    case Make(h, p) => h !in n.handles && PointsWell(n, p)
    case Copy(h, from) => h !in n.handles && from in n.handles
    case Set(h, p) => h in n.handles && PointsWell(n, p)
    case SetFrom(h, from) => h in n.handles && from in n.handles
    case Reset(h) => h in n.handles
    case End(h) => h in n.handles
    case Weak(o, _) => Exists(n, o)
    case Unweak(w) => w in n.weakRefs
  }

  /** A run stops at the first statement that is not allowed, and at no other. */
  lemma LegalIff(memory: Memory, op: Op)
    requires memory.Valid()
    ensures memory.Legal(op) <==> Allowed(memory.Program(), op)
  {
    forall o ensures o in memory.objects <==> Exists(memory.Program(), o) {
      ObjectExists(memory, o);
    }
    hide Memory.Valid, Exists;
  }

  lemma ObjectExists(memory: Memory, o: int)
    requires memory.Valid()
    ensures o in memory.objects <==> Exists(memory.Program(), o)
  {
    memory.FreedExactlyWhenUnheld(o);
    memory.ProgramIs();
    hide Memory.Valid, Memory.Program;
    if h :| h in memory.handles && memory.handles[h] == Some(o) {
      assert h in Pointing(memory.handles, o);
    }
    var pointing := Pointing(memory.handles, o);
    if forall h :: !(h in memory.handles && memory.handles[h] == Some(o)) {
      assert forall h :: h !in pointing;
      assert pointing == {};
    }
  }
}
