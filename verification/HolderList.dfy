/** The debug list of holders kept by `weakref_impl`: a singly linked list of entries. */
module HolderList {
  import opened Collections

  /** `s` without its first `id`; the rest keeps its order. */
  function RemoveFirst(s: seq<int>, id: int): seq<int> {
    if s == [] then []
    else if s[0] == id then s[1..]
    else [s[0]] + RemoveFirst(s[1..], id)
  }

  function Rename(s: seq<int>, oldId: int, newId: int): seq<int> {
    if s == [] then [] else [if s[0] == oldId then newId else s[0]] + Rename(s[1..], oldId, newId)
  }

  /** Exactly one occurrence goes, the first one, and only if there is one. */
  lemma {:induction false} RemoveFirstIsExact(s: seq<int>, id: int)
    ensures multiset(RemoveFirst(s, id)) == multiset(s) - multiset{id}
    ensures id !in s ==> RemoveFirst(s, id) == s
  {
    if s != [] {
      assert s == [s[0]] + s[1..];
      RemoveFirstIsExact(s[1..], id);
    }
  }

  /** The occurrence that goes is the first, and nothing else moves. */
  lemma {:induction false} RemoveFirstAt(s: seq<int>, id: int, k: nat)
    requires k < |s| && s[k] == id && forall i :: 0 <= i < k ==> s[i] != id
    ensures RemoveFirst(s, id) == s[..k] + s[k + 1..]
  {
    if k > 0 {
      RemoveFirstAt(s[1..], id, k - 1);
      assert s[..k] == [s[0]] + s[1..][..k - 1];
    }
  }

  /** Renaming keeps the length and the order, and leaves no entry with the old identity. */
  lemma {:induction false} RenameIsPointwise(s: seq<int>, oldId: int, newId: int)
    ensures |Rename(s, oldId, newId)| == |s|
    ensures forall k :: 0 <= k < |s| ==> Rename(s, oldId, newId)[k] == if s[k] == oldId then newId else s[k]
    ensures oldId != newId ==> oldId !in Rename(s, oldId, newId)
  {
    if s != [] {
      RenameIsPointwise(s[1..], oldId, newId);
    }
  }

  class RefEntry {
    var next: RefEntry?
    var id: int
    const ref: int

    constructor (id: int, ref: int, next: RefEntry?)
      ensures this.id == id && this.ref == ref && this.next == next
    {
      this.id, this.ref, this.next := id, ref, next;
    }
  }

  class Holders {
    var head: RefEntry?
    var tracking: bool
    ghost var spine: seq<RefEntry>

    ghost predicate Valid()
      reads this`head, this`spine, spine`next
    {
      && Linked(head, spine)
      && Distinct(spine)
    }

    /** Following `next` from `from` visits exactly `nodes`. */
    static ghost predicate Linked(from: RefEntry?, nodes: seq<RefEntry>)
      reads nodes`next
    {
      && from == (if nodes == [] then null else nodes[0])
      && forall i {:trigger nodes[i].next} :: 0 <= i < |nodes| ==> nodes[i].next == At(nodes, i + 1)
    }

    static ghost function At(nodes: seq<RefEntry>, i: nat): RefEntry? {
      if i < |nodes| then nodes[i] else null
    }

    static ghost function IdsOf(nodes: seq<RefEntry>): (ids: seq<int>)
      reads nodes`id
      ensures |ids| == |nodes| && forall i :: 0 <= i < |nodes| ==> ids[i] == nodes[i].id
    {
      if nodes == [] then [] else [nodes[0].id] + IdsOf(nodes[1..])
    }

    /** The identities in the list, most recent first. */
    ghost function Ids(): seq<int>
      reads this`spine, spine`id
    {
      IdsOf(spine)
    }

    constructor (tracking: bool)
      ensures Valid() && Ids() == [] && this.tracking == tracking
    {
      head, spine, this.tracking := null, [], tracking;
    }

    method AddRef(id: int, ref: int)
      requires Valid()
      modifies this
      ensures Valid() && tracking == old(tracking)
      ensures Ids() == if tracking then [id] + old(Ids()) else old(Ids())
      ensures tracking ==> fresh(spine[0]) && spine == [spine[0]] + old(spine)
    {
      if tracking {
        var entry := new RefEntry(id, ref, head);
        head := entry;
        spine := [entry] + spine;
      }
    }

    /** The links lead through `nodes` past the k-th. */
    static ghost predicate Bypassed(from: RefEntry?, nodes: seq<RefEntry>, k: nat)
      reads nodes`next
    {
      && from == At(nodes, if k == 0 then 1 else 0)
      && forall i {:trigger nodes[i].next} :: 0 <= i < |nodes| ==>
        nodes[i].next == At(nodes, if i + 1 == k then k + 1 else i + 1)
    }

    /** Makes the link that leads to the k-th entry lead to the one after it. */
    method MoveLink(previous: RefEntry?, entry: RefEntry, ghost k: nat)
      requires Valid() && k < |spine| && entry == spine[k]
      requires previous == (if k == 0 then null else spine[k - 1])
      modifies this`head, spine`next
      ensures Bypassed(head, spine, k)
    {
      if k > 0 { OnlyThere(spine, k - 1); }
      hide Distinct;
      if previous == null {
        head := entry.next;
      } else {
        previous.next := entry.next;
      }
    }

    /** Takes the k-th entry out of the list. */
    method Unlink(previous: RefEntry?, entry: RefEntry, ghost k: nat)
      requires Valid() && k < |spine| && entry == spine[k]
      requires previous == (if k == 0 then null else spine[k - 1])
      modifies this`head, this`spine, spine`next
      ensures Valid() && spine == old(spine)[..k] + old(spine)[k + 1..]
      ensures Ids() == old(Ids())[..k] + old(Ids())[k + 1..]
      ensures Within(spine, old(spine))
    {
      hide IdsOf, Distinct, Linked, Bypassed;
      MoveLink(previous, entry, k);
      Skip(head, spine, k);
      SkipWithin(spine, k);
      spine := spine[..k] + spine[k + 1..];
    }

    /** No entry is new. */
    static ghost predicate Within(less: seq<RefEntry>, spine: seq<RefEntry>) {
      forall i :: 0 <= i < |less| ==> less[i] in spine
    }

    static lemma SkipWithin(spine: seq<RefEntry>, k: nat)
      requires k < |spine|
      ensures Within(spine[..k] + spine[k + 1..], spine) && Within(spine, spine)
    {
    }

    static lemma Skip(from: RefEntry?, nodes: seq<RefEntry>, k: nat)
      requires k < |nodes| && Bypassed(from, nodes, k) && Distinct(nodes)
      ensures var less := nodes[..k] + nodes[k + 1..];
        Linked(from, less) && Distinct(less) && IdsOf(less) == IdsOf(nodes)[..k] + IdsOf(nodes)[k + 1..]
    {
      hide *;
      SkipDistinct(nodes, k);
      SkipLinked(from, nodes, k);
      SkipIds(nodes, k);
    }

    static lemma OnlyThere(nodes: seq<RefEntry>, k: nat)
      requires k < |nodes| && Distinct(nodes)
      ensures forall i {:trigger nodes[i]} :: 0 <= i < |nodes| && i != k ==> nodes[i] != nodes[k]
    {
    }

    static lemma SkipDistinct(nodes: seq<RefEntry>, k: nat)
      requires k < |nodes| && Distinct(nodes)
      ensures Distinct(nodes[..k] + nodes[k + 1..])
    {
      var less := nodes[..k] + nodes[k + 1..];
      forall i, j | 0 <= i < j < |less| ensures less[i] != less[j] {
        assert less[i] == nodes[if i < k then i else i + 1];
        assert less[j] == nodes[if j < k then j else j + 1];
      }
    }

    static lemma SkipIds(nodes: seq<RefEntry>, k: nat)
      requires k < |nodes|
      ensures IdsOf(nodes[..k] + nodes[k + 1..]) == IdsOf(nodes)[..k] + IdsOf(nodes)[k + 1..]
    {
      hide *;
      var ids, less := IdsOf(nodes), nodes[..k] + nodes[k + 1..];
      SkipAt(nodes, k);
      SkipAt(ids, k);
      var lessIds, idsLess := IdsOf(less), ids[..k] + ids[k + 1..];
      assert |lessIds| == |idsLess|;
      assert forall i :: 0 <= i < |lessIds| ==> lessIds[i] == idsLess[i];
    }

    static lemma SkipAt<T>(s: seq<T>, k: nat)
      requires k < |s|
      ensures var less := s[..k] + s[k + 1..];
        |less| == |s| - 1 && forall i :: 0 <= i < |less| ==> less[i] == s[if i < k then i else i + 1]
    {
    }

    static lemma SkipLinked(from: RefEntry?, nodes: seq<RefEntry>, k: nat)
      requires k < |nodes| && Bypassed(from, nodes, k)
      ensures Linked(from, nodes[..k] + nodes[k + 1..])
    {
      var less := nodes[..k] + nodes[k + 1..];
      SkipAt(nodes, k);
      forall i | 0 <= i < |less| ensures less[i].next == At(less, i + 1) {
        assert less[i] == nodes[if i < k then i else i + 1];
      }
    }

    /** The source walks with the address of the link that leads to the current entry; `previous`
        is the entry that link is in, and null stands for the link in the list head. */
    method RemoveRef(id: int) returns (removed: bool)
      requires Valid()
      modifies this, spine
      ensures Valid() && tracking == old(tracking)
      ensures Ids() == if tracking then RemoveFirst(old(Ids()), id) else old(Ids())
      ensures removed <==> tracking && id in old(Ids())
      ensures Within(spine, old(spine))
    {
      removed := false;
      assert Within(spine, spine);
      if tracking {
        hide IdsOf, RemoveFirst, Within;
        var previous: RefEntry? := null;
        var entry := head;
        ghost var k := 0;
        while entry != null
          invariant k <= |spine| && entry == At(spine, k)
          invariant previous == (if k == 0 then null else spine[k - 1])
          invariant forall i :: 0 <= i < k ==> spine[i].id != id
          decreases |spine| - k
        {
          if entry.id == id {
            RemoveFirstAt(Ids(), id, k);
            Unlink(previous, entry, k);
            removed := true;
            return;
          }
          previous := entry;
          entry := entry.next;
          k := k + 1;
        }
        RemoveFirstIsExact(Ids(), id);
      }
    }

    /** The body of the loop of `renameRefsId`, for the k-th entry. */
    method RenameEntry(entry: RefEntry, oldId: int, newId: int, ghost k: nat)
      requires Valid() && k < |spine| && entry == spine[k]
      modifies entry`id
      ensures Valid() && Ids() == old(Ids())[k := if old(entry.id) == oldId then newId else old(entry.id)]
    {
      OnlyThere(spine, k);
      hide IdsOf, Distinct;
      if entry.id == oldId {
        entry.id := newId;
      }
      assert forall i {:trigger spine[i]} :: 0 <= i < |spine| && i != k ==> spine[i].id == old(spine[i].id);
    }

    method RenameRefsId(oldId: int, newId: int)
      requires Valid()
      modifies spine`id
      ensures Valid() && Ids() == if tracking then Rename(old(Ids()), oldId, newId) else old(Ids())
    {
      if tracking {
        ghost var ids := Ids();
        StartsAt();
        RenameStarts(ids, oldId, newId);
        hide *;
        var entry := head;
        ghost var k := 0;
        while entry != null
          invariant k <= |spine| && entry == At(spine, k) && Valid()
          invariant RenamedUpTo(ids, Ids(), oldId, newId, k)
          decreases |spine| - k
        {
          ghost var before := Ids();
          NextIs(k);
          RenameEntry(entry, oldId, newId, k);
          RenameNext(ids, before, oldId, newId, k);
          entry := entry.next;
          k := k + 1;
        }
        StartsAt();
        NextIs(k);
        RenameEnds(ids, Ids(), oldId, newId);
      }
    }

    /** The first `k` identities have been renamed. */
    static ghost predicate RenamedUpTo(ids: seq<int>, now: seq<int>, oldId: int, newId: int, k: nat) {
      |now| == |ids| && forall i :: 0 <= i < |ids| ==> now[i] == if i < k && ids[i] == oldId then newId else ids[i]
    }

    static lemma RenameStarts(ids: seq<int>, oldId: int, newId: int)
      ensures RenamedUpTo(ids, ids, oldId, newId, 0)
    {
    }

    static lemma RenameNext(ids: seq<int>, now: seq<int>, oldId: int, newId: int, k: nat)
      requires k < |now| && RenamedUpTo(ids, now, oldId, newId, k)
      ensures RenamedUpTo(ids, now[k := if now[k] == oldId then newId else now[k]], oldId, newId, k + 1)
    {
    }

    static lemma RenameEnds(ids: seq<int>, now: seq<int>, oldId: int, newId: int)
      requires RenamedUpTo(ids, now, oldId, newId, |now|)
      ensures now == Rename(ids, oldId, newId)
    {
      RenameIsPointwise(ids, oldId, newId);
    }

    lemma StartsAt()
      requires Valid()
      ensures head == At(spine, 0) && |Ids()| == |spine|
    {
      hide IdsOf, Distinct;
    }

    lemma NextIs(k: nat)
      requires Valid() && k <= |spine|
      ensures k < |spine| ==> At(spine, k) == spine[k] && spine[k].next == At(spine, k + 1) && Ids()[k] == spine[k].id
      ensures At(spine, k) == null <==> k == |spine|
    {
      hide IdsOf, Distinct;
    }
  }
}
