/** The comment forest of a blog page: `getTopics` and `getReplies` link the flat list of comments
    into trees, which are then visited in pre-order. */
module CommentForest {
  import opened Collections

  datatype Post = Post(id: int, parent: int)

  /** Identities are distinct, and none is 0, which means "no parent". Parents are arbitrary: they may be
      missing from the list or form cycles. */
  ghost predicate GoodIds(posts: seq<Post>) {
    && (forall i :: 0 <= i < |posts| ==> posts[i].id != 0)
    && (forall i, j :: 0 <= i < j < |posts| ==> posts[i].id != posts[j].id)
  }

  /** The posts whose parent is `id`, in list order. */
  function Children(posts: seq<Post>, id: int): seq<Post> {
    if posts == [] then []
    else (if posts[0].parent == id then [posts[0]] else []) + Children(posts[1..], id)
  }

  /** A chain of replies that starts with a topic. */
  ghost predicate IsPath(posts: seq<Post>, path: seq<Post>) {
    && (forall k :: 0 <= k < |path| ==> path[k] in posts)
    && (forall k {:trigger path[k].parent} :: 0 <= k < |path| ==> path[k].parent == IdBefore(path, k))
  }

  function IdBefore(path: seq<Post>, k: nat): int
    requires k <= |path|
  {
    if k == 0 then 0 else path[k - 1].id
  }

  function LastId(path: seq<Post>): int {
    IdBefore(path, |path|)
  }

  /** No chain of replies comes back to a comment it has passed. */
  ghost predicate NoLoops(posts: seq<Post>) {
    forall path :: IsPath(posts, path) ==> Distinct(path)
  }

  /** The parent chain of `c` reaches 0. */
  ghost predicate Rooted(posts: seq<Post>, c: Post) {
    exists path :: PathTo(posts, path, c)
  }

  ghost predicate PathTo(posts: seq<Post>, path: seq<Post>, c: Post) {
    IsPath(posts, path) && path != [] && path[|path| - 1] == c
  }

  // ---------------------------------------------------------------- paths

  lemma SameId(posts: seq<Post>, a: Post, b: Post)
    requires GoodIds(posts) && a in posts && b in posts && a.id == b.id
    ensures a == b && a.id != 0
  {
    var i :| 0 <= i < |posts| && posts[i] == a;
    var j :| 0 <= j < |posts| && posts[j] == b;
  }

  lemma PathLast(posts: seq<Post>, p: seq<Post>)
    requires GoodIds(posts) && IsPath(posts, p) && p != []
    ensures LastId(p) != 0
    ensures var m := |p| - 1;
      p[m] in posts && LastId(p) == p[m].id && IsPath(posts, p[..m]) && LastId(p[..m]) == p[m].parent
        && p == p[..m] + [p[m]]
  {
    PathPrefix(posts, p, |p| - 1);
    SameId(posts, p[|p| - 1], p[|p| - 1]);
  }

  /** A post has at most one chain to a topic. */
  lemma {:induction false} UniquePath(posts: seq<Post>, p: seq<Post>, q: seq<Post>)
    requires GoodIds(posts) && IsPath(posts, p) && IsPath(posts, q) && LastId(p) == LastId(q)
    ensures p == q
    decreases |p|
  {
    assert LastId([]) == 0;
    hide GoodIds, IsPath, LastId;
    if p != [] { PathLast(posts, p); }
    if q != [] { PathLast(posts, q); }
    if p != [] && q != [] {
      var m, n := |p| - 1, |q| - 1;
      SameId(posts, p[m], q[n]);
      UniquePath(posts, p[..m], q[..n]);
    }
  }

  lemma PathPrefix(posts: seq<Post>, p: seq<Post>, n: nat)
    requires IsPath(posts, p) && n <= |p|
    ensures IsPath(posts, p[..n]) && LastId(p[..n]) == IdBefore(p, n)
  {
    forall k | 0 <= k < n ensures p[..n][k].parent == IdBefore(p[..n], k) {
      assert p[k].parent == IdBefore(p, k);
    }
  }

  lemma PathExtend(posts: seq<Post>, p: seq<Post>, r: Post)
    requires IsPath(posts, p) && r in posts && r.parent == LastId(p)
    ensures IsPath(posts, p + [r]) && LastId(p + [r]) == r.id
  {
    forall k | 0 <= k < |p + [r]| ensures (p + [r])[k].parent == IdBefore(p + [r], k) {
      if k < |p| {
        assert p[k].parent == IdBefore(p, k);
      }
    }
  }

  lemma PathDiffers(posts: seq<Post>, p: seq<Post>, i: nat, j: nat)
    requires GoodIds(posts) && IsPath(posts, p) && i < j < |p|
    ensures p[i] != p[j]
  {
    hide IsPath, GoodIds, LastId;
    PathPrefix(posts, p, i + 1);
    PathPrefix(posts, p, j + 1);
    if p[i] == p[j] {
      UniquePath(posts, p[..i + 1], p[..j + 1]);
    }
  }

  /** With good identities no chain comes back, whatever the parents are. */
  lemma GoodIdsHaveNoLoops(posts: seq<Post>)
    requires GoodIds(posts)
    ensures NoLoops(posts)
  {
    hide IsPath, GoodIds;
    forall p, i, j | IsPath(posts, p) && 0 <= i < j < |p| ensures p[i] != p[j] {
      PathDiffers(posts, p, i, j);
    }
  }

  /** A chain that does not come back is no longer than the list. */
  lemma PathBound(posts: seq<Post>, p: seq<Post>)
    requires NoLoops(posts) && IsPath(posts, p)
    ensures |p| <= |posts|
  {
    assert Distinct(p);
    DistinctWithin(p, posts);
  }

  /** No chain of replies has more comments than `bound`. */
  ghost predicate Bounded(posts: seq<Post>, bound: nat) {
    forall p :: IsPath(posts, p) ==> |p| <= bound
  }

  /** Exactly when the recursion of `getReplies` ends: the chains of replies it goes down are bounded if
      and only if none of them comes back to a comment. */
  lemma RecursionEndsIff(posts: seq<Post>)
    ensures NoLoops(posts) <==> exists bound: nat :: Bounded(posts, bound)
  {
    hide IsPath;
    if NoLoops(posts) {
      forall p | IsPath(posts, p) ensures |p| <= |posts| {
        PathBound(posts, p);
      }
      assert Bounded(posts, |posts|);
    }
    if bound: nat :| Bounded(posts, bound) {
      forall p | IsPath(posts, p) ensures Distinct(p) {
        forall i, j | 0 <= i < j < |p| ensures p[i] != p[j] {
          if p[i] == p[j] {
            var longer := RoundAgain(posts, p, i, j, bound);
          }
        }
      }
    }
  }

  /** A chain that comes back can go round as often as one likes. */
  lemma {:induction false} RoundAgain(posts: seq<Post>, p: seq<Post>, i: nat, j: nat, bound: nat)
      returns (longer: seq<Post>)
    requires IsPath(posts, p) && i < j < |p| && p[i] == p[j]
    ensures IsPath(posts, longer) && |longer| > bound
    decreases bound - |p|
  {
    if |p| > bound {
      longer := p;
    } else {
      OnceAround(posts, p, i, j);
      longer := RoundAgain(posts, p[..j] + p[i..], i, j, bound);
    }
  }

  lemma OnceAround(posts: seq<Post>, p: seq<Post>, i: nat, j: nat)
    requires IsPath(posts, p) && i < j < |p| && p[i] == p[j]
    ensures IsPath(posts, p[..j] + p[i..])
  {
    var q := p[..j] + p[i..];
    forall k | 0 <= k < |q| ensures q[k] in posts && q[k].parent == IdBefore(q, k) {
      var m := if k < j then k else if k == j then j else i + (k - j);
      assert q[k] == p[m] && p[m].parent == IdBefore(p, m);
    }
  }

  /** Repeated identities, and an identity of 0, may or may not lead to a chain that comes back. */
  lemma LoopsOrNot()
    ensures !NoLoops([Post(5, 0), Post(5, 5)]) && !NoLoops([Post(0, 0)])
    ensures NoLoops([Post(5, 0), Post(5, 0)]) && NoLoops([Post(0, 7)])
  {
    var a, b := [Post(5, 0), Post(5, 5)], [Post(0, 0)];
    assert a[0] in a && a[1] in a && b[0] in b;
    var x, y := [a[0], a[1], a[1]], [b[0], b[0]];
    assert IsPath(a, x) && x[1] == x[2];
    assert IsPath(b, y) && y[0] == y[1];
    forall p: seq<Post> | IsPath([Post(5, 0), Post(5, 0)], p) ensures Distinct(p) {
      assert |p| > 1 ==> p[1].parent == IdBefore(p, 1);
    }
    forall p: seq<Post> | IsPath([Post(0, 7)], p) ensures Distinct(p) {
      assert p != [] ==> p[0].parent == IdBefore(p, 0);
    }
  }

  lemma {:induction false} DistinctWithin(p: seq<Post>, posts: seq<Post>)
    requires forall i, j :: 0 <= i < j < |p| ==> p[i] != p[j]
    requires forall k :: 0 <= k < |p| ==> p[k] in posts
    ensures |p| <= |posts|
    decreases |p|
  {
    if p != [] {
      var m := |p| - 1;
      var i :| 0 <= i < |posts| && posts[i] == p[m];
      var less := posts[..i] + posts[i + 1..];
      forall k | 0 <= k < m ensures p[..m][k] in less {
        var j :| 0 <= j < |posts| && posts[j] == p[k];
        assert less[if j < i then j else j - 1] == p[k];
      }
      DistinctWithin(p[..m], less);
    }
  }

  // ---------------------------------------------------------------- pre-order

  lemma {:induction false} ChildrenIn(posts: seq<Post>, id: int)
    ensures forall r :: r in Children(posts, id) <==> r in posts && r.parent == id
    ensures |Children(posts, id)| <= |posts|
  {
    if posts != [] {
      ChildrenIn(posts[1..], id);
      assert posts == [posts[0]] + posts[1..];
    }
  }

  /** The visit of the last post of a path and of everything below it. */
  function Preorder(posts: seq<Post>, path: seq<Post>): seq<Post>
    requires NoLoops(posts) && IsPath(posts, path) && path != []
    decreases |posts| - |path|, 1, 0
  {
    PathBound(posts, path);
    ChildrenIn(posts, LastId(path));
    [path[|path| - 1]] + PreorderAll(posts, path, Children(posts, LastId(path)))
  }

  /** The visits of some posts below the end of a path, one after the other. */
  function PreorderAll(posts: seq<Post>, path: seq<Post>, rs: seq<Post>): seq<Post>
    requires NoLoops(posts) && IsPath(posts, path)
    requires forall r :: r in rs ==> r in posts && r.parent == LastId(path)
    decreases |posts| - |path|, 0, |rs|
  {
    if rs == [] then []
    else
      PathExtend(posts, path, rs[0]);
      PathBound(posts, path + [rs[0]]);
      Preorder(posts, path + [rs[0]]) + PreorderAll(posts, path, rs[1..])
  }

  /** The whole forest as it is shown. */
  function Forest(posts: seq<Post>): seq<Post>
    requires NoLoops(posts)
  {
    ChildrenIn(posts, 0);
    PreorderAll(posts, [], Children(posts, 0))
  }

  // ---------------------------------------------------------------- the recursion as it runs on any list

  /** The visits of some comments when calls of `getReplies` are nested no deeper than `fuel`; None if that
      is not enough. */
  function ListWithin(posts: seq<Post>, rs: seq<Post>, fuel: nat): Option<seq<Post>>
    decreases fuel, |rs|
  {
    if rs == [] then Some([])
    else if fuel == 0 then None
    else
      match ListWithin(posts, Children(posts, rs[0].id), fuel - 1)
      case None => None
      case Some(below) =>
        match ListWithin(posts, rs[1..], fuel)
        case None => None
        case Some(others) => Some([rs[0]] + below + others)
  }

  /** `getTopics`, with what it calls. */
  function Listed(posts: seq<Post>, fuel: nat): Option<seq<Post>> {
    ListWithin(posts, Children(posts, 0), fuel)
  }

  /** A chain that is too long for the fuel. */
  lemma {:induction false} TooDeep(posts: seq<Post>, p: seq<Post>, rs: seq<Post>, q: seq<Post>, fuel: nat)
    requires IsPath(posts, q) && p <= q && |q| > |p| + fuel && q[|p|] in rs
    ensures ListWithin(posts, rs, fuel).None?
    decreases fuel, |rs|
  {
    if fuel > 0 {
      if q[|p|] == rs[0] {
        ChildrenIn(posts, rs[0].id);
        assert q[|p| + 1].parent == IdBefore(q, |p| + 1);
        TooDeep(posts, p + [rs[0]], Children(posts, rs[0].id), q, fuel - 1);
      } else {
        TooDeep(posts, p, rs[1..], q, fuel);
      }
    }
  }

  /** If the fuel is not enough there is such a chain. */
  lemma {:induction false} DeepChain(posts: seq<Post>, p: seq<Post>, rs: seq<Post>, fuel: nat) returns (q: seq<Post>)
    requires IsPath(posts, p) && ListWithin(posts, rs, fuel).None?
    requires forall r :: r in rs ==> r in posts && r.parent == LastId(p)
    ensures IsPath(posts, q) && |q| > |p| + fuel
    decreases fuel, |rs|
  {
    hide IsPath, LastId;
    PathExtend(posts, p, rs[0]);
    if fuel == 0 {
      q := p + [rs[0]];
    } else if ListWithin(posts, Children(posts, rs[0].id), fuel - 1).None? {
      ChildrenIn(posts, rs[0].id);
      q := DeepChain(posts, p + [rs[0]], Children(posts, rs[0].id), fuel - 1);
    } else {
      q := DeepChain(posts, p, rs[1..], fuel);
    }
  }

  /** The recursion returns with this much fuel exactly if no chain of replies is longer. */
  lemma ReturnsIff(posts: seq<Post>, fuel: nat)
    ensures Listed(posts, fuel).Some? <==> Bounded(posts, fuel)
  {
    ChildrenIn(posts, 0);
    if Listed(posts, fuel).None? {
      assert IsPath(posts, []) && LastId([]) == 0;
      var q := DeepChain(posts, [], Children(posts, 0), fuel);
    }
    if q: seq<Post> :| IsPath(posts, q) && |q| > fuel {
      assert q[0].parent == IdBefore(q, 0);
      TooDeep(posts, [], Children(posts, 0), q, fuel);
    }
  }

  /** Exactly when the recursion returns at all: if no chain of replies comes back to a comment. */
  lemma ReturnsAtAllIff(posts: seq<Post>)
    ensures (exists fuel: nat :: Listed(posts, fuel).Some?) <==> NoLoops(posts)
  {
    RecursionEndsIff(posts);
    hide NoLoops, Bounded, Listed;
    if fuel: nat :| Listed(posts, fuel).Some? {
      ReturnsIff(posts, fuel);
    }
    if bound: nat :| Bounded(posts, bound) {
      ReturnsIff(posts, bound);
    }
  }

  /** And what it returns then is the forest. */
  lemma ReturnsForest(posts: seq<Post>, fuel: nat)
    requires NoLoops(posts) && Listed(posts, fuel).Some?
    ensures Listed(posts, fuel).value == Forest(posts)
  {
    ChildrenIn(posts, 0);
    assert IsPath(posts, []) && LastId([]) == 0;
    hide NoLoops;
    ReturnsPreorder(posts, [], Children(posts, 0), fuel);
  }

  lemma {:induction false} ReturnsPreorder(posts: seq<Post>, p: seq<Post>, rs: seq<Post>, fuel: nat)
    requires NoLoops(posts) && IsPath(posts, p) && ListWithin(posts, rs, fuel).Some?
    requires forall r :: r in rs ==> r in posts && r.parent == LastId(p)
    ensures ListWithin(posts, rs, fuel).value == PreorderAll(posts, p, rs)
    decreases fuel, |rs|
  {
    hide NoLoops, IsPath;
    if rs != [] {
      var longer, rest := p + [rs[0]], Children(posts, rs[0].id);
      PathExtend(posts, p, rs[0]);
      ChildrenIn(posts, rs[0].id);
      ReturnsPreorder(posts, longer, rest, fuel - 1);
      ReturnsPreorder(posts, p, rs[1..], fuel);
      assert Preorder(posts, longer) == [rs[0]] + PreorderAll(posts, longer, rest);
    }
  }

  // ---------------------------------------------------------------- what the visit contains

  ghost predicate Extends(q: seq<Post>, p: seq<Post>) {
    p <= q
  }

  /** The children a visit goes on with. */
  lemma VisitReady(posts: seq<Post>, path: seq<Post>)
    requires NoLoops(posts) && IsPath(posts, path)
    ensures forall r :: r in Children(posts, LastId(path)) <==> r in posts && r.parent == LastId(path)
    ensures |path| <= |posts|
  {
    PathBound(posts, path);
    ChildrenIn(posts, LastId(path));
  }

  /** Whatever is visited below a path ends a path that extends it. */
  lemma {:induction false} VisitedIsBelow(posts: seq<Post>, path: seq<Post>, c: Post)
    requires NoLoops(posts) && IsPath(posts, path) && path != [] && c in Preorder(posts, path)
    ensures exists q :: PathTo(posts, q, c) && Extends(q, path)
    decreases |posts| - |path|, 1, 0
  {
    VisitReady(posts, path);
    if c == path[|path| - 1] {
      assert PathTo(posts, path, c) && Extends(path, path);
    } else {
      var q := VisitedIsBelowAll(posts, path, Children(posts, LastId(path)), c);
      assert Extends(q, path);
    }
  }

  lemma {:induction false} VisitedIsBelowAll(posts: seq<Post>, path: seq<Post>, rs: seq<Post>, c: Post)
      returns (q: seq<Post>)
    requires NoLoops(posts) && IsPath(posts, path)
    requires forall r :: r in rs ==> r in posts && r.parent == LastId(path)
    requires c in PreorderAll(posts, path, rs)
    ensures PathTo(posts, q, c) && |q| > |path| && q[..|path|] == path && q[|path|] in rs
    decreases |posts| - |path|, 0, |rs|
  {
    PathExtend(posts, path, rs[0]);
    PathBound(posts, path + [rs[0]]);
    if c in Preorder(posts, path + [rs[0]]) {
      VisitedIsBelow(posts, path + [rs[0]], c);
      q :| PathTo(posts, q, c) && Extends(q, path + [rs[0]]);
      assert q[..|path|] == (path + [rs[0]])[..|path|] && q[|path|] == (path + [rs[0]])[|path|];
    } else {
      q := VisitedIsBelowAll(posts, path, rs[1..], c);
    }
  }

  /** Whatever ends a path that extends another is visited below that other. */
  lemma {:induction false} BelowIsVisited(posts: seq<Post>, path: seq<Post>, q: seq<Post>)
    requires NoLoops(posts) && IsPath(posts, path) && path != [] && IsPath(posts, q) && path <= q
    ensures q[|q| - 1] in Preorder(posts, path)
    decreases |q| - |path|, 1, 0
  {
    VisitReady(posts, path);
    if |q| > |path| {
      PathPrefix(posts, q, |path|);
      assert q[..|path|] == path;
      assert q[|path|].parent == IdBefore(q, |path|);
      BelowIsVisitedAll(posts, path, Children(posts, LastId(path)), q);
    }
  }

  lemma {:induction false} BelowIsVisitedAll(posts: seq<Post>, path: seq<Post>, rs: seq<Post>, q: seq<Post>)
    requires NoLoops(posts) && IsPath(posts, path) && IsPath(posts, q) && path <= q && |path| < |q|
    requires forall r :: r in rs ==> r in posts && r.parent == LastId(path)
    requires q[|path|] in rs
    ensures q[|q| - 1] in PreorderAll(posts, path, rs)
    decreases |q| - |path|, 0, |rs|
  {
    PathExtend(posts, path, rs[0]);
    PathBound(posts, path + [rs[0]]);
    if q[|path|] == rs[0] {
      assert path + [rs[0]] <= q;
      BelowIsVisited(posts, path + [rs[0]], q);
    } else {
      BelowIsVisitedAll(posts, path, rs[1..], q);
    }
  }

  /** Replies keep the order of the list. */
  lemma {:induction false} ChildrenInListOrder(posts: seq<Post>, id: int, i: nat, j: nat) returns (u: nat, v: nat)
    requires i < j < |Children(posts, id)|
    ensures u < v < |posts| && posts[u] == Children(posts, id)[i] && posts[v] == Children(posts, id)[j]
  {
    if posts[0].parent != id {
      u, v := ChildrenInListOrder(posts[1..], id, i, j);
      u, v := u + 1, v + 1;
    } else if i > 0 {
      u, v := ChildrenInListOrder(posts[1..], id, i - 1, j - 1);
      u, v := u + 1, v + 1;
    } else {
      var rest := Children(posts[1..], id);
      ChildrenIn(posts[1..], id);
      assert rest[j - 1] in rest;
      v :| 0 <= v < |posts[1..]| && posts[1..][v] == rest[j - 1];
      u, v := 0, v + 1;
    }
  }

  lemma ChildrenDistinct(posts: seq<Post>, id: int)
    requires GoodIds(posts)
    ensures Distinct(Children(posts, id))
  {
    var rs := Children(posts, id);
    forall i, j | 0 <= i < j < |rs| ensures rs[i] != rs[j] {
      var u, v := ChildrenInListOrder(posts, id, i, j);
      assert posts[u].id != posts[v].id;
    }
  }

  lemma {:induction false} VisitedOnce(posts: seq<Post>, path: seq<Post>, c: Post)
    requires GoodIds(posts) && NoLoops(posts) && IsPath(posts, path) && path != []
    ensures multiset(Preorder(posts, path))[c] <= 1
    decreases |posts| - |path|, 1, 0
  {
    VisitReady(posts, path);
    var rs := Children(posts, LastId(path));
    ChildrenDistinct(posts, LastId(path));
    VisitedOnceAll(posts, path, rs, c);
    if c == path[|path| - 1] && c in PreorderAll(posts, path, rs) {
      var q := VisitedIsBelowAll(posts, path, rs, c);
      UniquePath(posts, path, q);
      assert false;
    }
  }

  lemma {:induction false} VisitedOnceAll(posts: seq<Post>, path: seq<Post>, rs: seq<Post>, c: Post)
    requires GoodIds(posts) && NoLoops(posts) && IsPath(posts, path) && Distinct(rs)
    requires forall r :: r in rs ==> r in posts && r.parent == LastId(path)
    ensures multiset(PreorderAll(posts, path, rs))[c] <= 1
    decreases |posts| - |path|, 0, |rs|
  {
    if rs != [] {
      PathExtend(posts, path, rs[0]);
      PathBound(posts, path + [rs[0]]);
      VisitedOnce(posts, path + [rs[0]], c);
      VisitedOnceAll(posts, path, rs[1..], c);
      if c in Preorder(posts, path + [rs[0]]) && c in PreorderAll(posts, path, rs[1..]) {
        VisitedIsBelow(posts, path + [rs[0]], c);
        var q :| PathTo(posts, q, c) && Extends(q, path + [rs[0]]);
        var q' := VisitedIsBelowAll(posts, path, rs[1..], c);
        assert q[|path|] == (path + [rs[0]])[|path|];
        UniquePath(posts, q, q');
        assert false;
      }
    }
  }

  /** A comment is shown if its parent chain reaches 0, and otherwise (an orphan, or part of a cycle) not. */
  lemma ForestShowsRooted(posts: seq<Post>, c: Post)
    requires NoLoops(posts)
    ensures c in Forest(posts) <==> Rooted(posts, c)
  {
    var topics := Children(posts, 0);
    ChildrenIn(posts, 0);
    if c in Forest(posts) {
      var q := VisitedIsBelowAll(posts, [], topics, c);
      assert PathTo(posts, q, c);
    }
    if Rooted(posts, c) {
      var q: seq<Post> :| PathTo(posts, q, c);
      assert q[0].parent == IdBefore(q, 0);
      BelowIsVisitedAll(posts, [], topics, q);
      assert c in Forest(posts);
    }
  }

  /** With good identities the forest is complete and has no duplicates: such a comment is shown once. */
  lemma ForestIsComplete(posts: seq<Post>, c: Post)
    requires GoodIds(posts)
    ensures NoLoops(posts)
    ensures multiset(Forest(posts))[c] == if Rooted(posts, c) then 1 else 0
  {
    GoodIdsHaveNoLoops(posts);
    ChildrenIn(posts, 0);
    ChildrenDistinct(posts, 0);
    VisitedOnceAll(posts, [], Children(posts, 0), c);
    ForestShowsRooted(posts, c);
  }

  // ---------------------------------------------------------------- how the visit is ordered

  lemma VisitUnfolds(posts: seq<Post>, path: seq<Post>)
    requires NoLoops(posts) && IsPath(posts, path) && path != []
    ensures forall r :: r in Children(posts, LastId(path)) ==> r in posts && r.parent == LastId(path)
    ensures |path| <= |posts|
    ensures Preorder(posts, path) == [path[|path| - 1]] + PreorderAll(posts, path, Children(posts, LastId(path)))
  {
    VisitReady(posts, path);
  }

  /** The next post on a longer path is among the children a visit goes on with. */
  lemma NextIsChild(posts: seq<Post>, path: seq<Post>, q: seq<Post>) returns (i: nat)
    requires NoLoops(posts) && IsPath(posts, path) && IsPath(posts, q) && path <= q && |path| < |q|
    ensures i < |Children(posts, LastId(path))| && Children(posts, LastId(path))[i] == q[|path|]
    ensures path + [q[|path|]] <= q
  {
    VisitReady(posts, path);
    PathPrefix(posts, q, |path|);
    assert q[..|path|] == path;
    assert q[|path|].parent == IdBefore(q, |path|);
    i :| 0 <= i < |Children(posts, LastId(path))| && Children(posts, LastId(path))[i] == q[|path|];
  }

  lemma Regroup<T>(top: T, before: seq<T>, a: seq<T>, m: seq<T>, b: seq<T>, after: seq<T>)
    ensures [top] + (before + (a + m + b) + after) == ([top] + before + a) + m + (b + after)
  {
  }

  /** Everything below a post is one block, which starts with the post and lies inside the block of
      each of its ancestors, behind the ancestor itself. */
  lemma {:induction false} BlockWithin(posts: seq<Post>, path: seq<Post>, q: seq<Post>)
      returns (a: seq<Post>, b: seq<Post>)
    requires NoLoops(posts) && IsPath(posts, path) && path != [] && IsPath(posts, q) && path <= q
    ensures Preorder(posts, path) == a + Preorder(posts, q) + b
    ensures Preorder(posts, q)[0] == q[|q| - 1]
    ensures |q| > |path| ==> a != [] && a[0] == path[|path| - 1]
    decreases |q| - |path|
  {
    hide NoLoops, IsPath, LastId, Preorder, PreorderAll, Children;
    VisitUnfolds(posts, path);
    if |q| == |path| {
      assert q == path;
      a, b := [], [];
      assert Preorder(posts, path) == [] + Preorder(posts, q) + [];
    } else {
      var rs := Children(posts, LastId(path));
      var i := NextIsChild(posts, path, q);
      var before, after := ChildBlock(posts, path, rs, i);
      a, b := BlockWithin(posts, path + [rs[i]], q);
      Regroup(path[|path| - 1], before, a, Preorder(posts, q), b, after);
      a, b := [path[|path| - 1]] + before + a, b + after;
    }
  }

  lemma VisitsUnfold(posts: seq<Post>, path: seq<Post>, rs: seq<Post>)
    requires NoLoops(posts) && IsPath(posts, path) && rs != []
    requires forall r :: r in rs ==> r in posts && r.parent == LastId(path)
    ensures IsPath(posts, path + [rs[0]])
    ensures PreorderAll(posts, path, rs) == Preorder(posts, path + [rs[0]]) + PreorderAll(posts, path, rs[1..])
  {
    PathExtend(posts, path, rs[0]);
    PathBound(posts, path + [rs[0]]);
  }

  lemma {:induction false} ChildBlock(posts: seq<Post>, path: seq<Post>, rs: seq<Post>, i: nat)
      returns (before: seq<Post>, after: seq<Post>)
    requires NoLoops(posts) && IsPath(posts, path) && i < |rs|
    requires forall r :: r in rs ==> r in posts && r.parent == LastId(path)
    ensures IsPath(posts, path + [rs[i]])
    ensures PreorderAll(posts, path, rs) == before + Preorder(posts, path + [rs[i]]) + after
    ensures after == PreorderAll(posts, path, rs[i + 1..])
    decreases |rs|
  {
    hide NoLoops, IsPath, LastId, Preorder, PreorderAll, Children;
    VisitsUnfold(posts, path, rs);
    var first := Preorder(posts, path + [rs[0]]);
    if i == 0 {
      before, after := [], PreorderAll(posts, path, rs[1..]);
      assert first + after == before + first + after;
    } else {
      before, after := ChildBlock(posts, path, rs[1..], i - 1);
      assert rs[1..][i..] == rs[i + 1..];
      Associative(first, before + Preorder(posts, path + [rs[i]]), after);
      Associative(first, before, Preorder(posts, path + [rs[i]]));
      before := first + before;
    }
  }

  /** Siblings, topics included, come in list order, each with its whole block. */
  lemma SiblingsInOrder(posts: seq<Post>, path: seq<Post>, i: nat, j: nat)
      returns (a: seq<Post>, b: seq<Post>, c: seq<Post>)
    requires NoLoops(posts) && IsPath(posts, path) && i < j < |Children(posts, LastId(path))|
    requires forall r :: r in Children(posts, LastId(path)) ==> r in posts && r.parent == LastId(path)
    ensures var rs := Children(posts, LastId(path));
      && IsPath(posts, path + [rs[i]]) && IsPath(posts, path + [rs[j]])
      && PreorderAll(posts, path, rs) == a + Preorder(posts, path + [rs[i]]) + b + Preorder(posts, path + [rs[j]]) + c
  {
    hide NoLoops, IsPath, LastId, Preorder, PreorderAll, Children;
    var rs := Children(posts, LastId(path));
    var before, after := ChildBlock(posts, path, rs, i);
    assert rs[i + 1..][j - i - 1] == rs[j];
    b, c := ChildBlock(posts, path, rs[i + 1..], j - i - 1);
    a := before;
    assert PreorderAll(posts, path, rs)
      == a + Preorder(posts, path + [rs[i]]) + (b + Preorder(posts, path + [rs[j]]) + c);
  }

  // ---------------------------------------------------------------- linking the comments

  /** A comment object. `Replies` is absent until `GetTopics` or `GetReplies` fills it in. */
  class Comment {
    const post: Post
    var Replies: Option<seq<Comment>>

    constructor (post: Post)
      ensures this.post == post && Replies == None
    {
      this.post := post;
      Replies := None;
    }
  }

  function Posts(list: seq<Comment>): seq<Post> {
    seq(|list|, i requires 0 <= i < |list| => list[i].post)
  }

  /** `c` is below the end of `path`. */
  ghost predicate Below(posts: seq<Post>, path: seq<Post>, c: Post) {
    exists q :: PathTo(posts, q, c) && path < q
  }

  /** `c` is one of the first `i` comments and replies to the end of `path`, or is below such a one. */
  ghost predicate Under(list: seq<Comment>, path: seq<Post>, i: nat, c: Comment)
    requires i <= |list|
  {
    exists m :: 0 <= m < i && list[m].post.parent == LastId(path)
      && (c == list[m] || Below(Posts(list), path + [list[m].post], c.post))
  }

  /** Among all comments, these are the ones below `path`. */
  lemma UnderAll(list: seq<Comment>, path: seq<Post>, c: Comment)
    requires IsPath(Posts(list), path) && c in list
    ensures Under(list, path, |list|, c) <==> Below(Posts(list), path, c.post)
  {
    hide IsPath, Below, LastId;
    if Under(list, path, |list|, c) {
      var m :| 0 <= m < |list| && list[m].post.parent == LastId(path)
        && (c == list[m] || Below(Posts(list), path + [list[m].post], c.post));
      ReplyIsBelow(list, path, m, c);
    }
    if Below(Posts(list), path, c.post) {
      var m := ReplyAbove(list, path, c);
    }
  }

  lemma ReplyIsBelow(list: seq<Comment>, path: seq<Post>, m: nat, c: Comment)
    requires IsPath(Posts(list), path) && m < |list| && list[m].post.parent == LastId(path)
    requires c == list[m] || Below(Posts(list), path + [list[m].post], c.post)
    ensures Below(Posts(list), path, c.post)
  {
    var posts, next := Posts(list), path + [list[m].post];
    assert posts[m] == list[m].post;
    PathExtend(posts, path, list[m].post);
    hide IsPath, LastId;
    if c == list[m] {
      assert PathTo(posts, next, c.post) && path < next;
    } else {
      var q :| PathTo(posts, q, c.post) && next < q;
      assert path < q by { assert q[..|next|] == next; }
    }
  }

  lemma ReplyAbove(list: seq<Comment>, path: seq<Post>, c: Comment) returns (m: nat)
    requires c in list && Below(Posts(list), path, c.post)
    ensures m < |list| && list[m].post.parent == LastId(path)
      && (c == list[m] || Below(Posts(list), path + [list[m].post], c.post))
  {
    var posts := Posts(list);
    var q: seq<Post> :| PathTo(posts, q, c.post) && path < q;
    assert q[|path|].parent == IdBefore(q, |path|) && q[..|path|] == path && q[|path|] in posts;
    hide IsPath;
    if |q| == |path| + 1 {
      m :| 0 <= m < |list| && list[m] == c;
    } else {
      m :| 0 <= m < |posts| && posts[m] == q[|path|];
      assert path + [list[m].post] < q;
    }
  }

  lemma BelowNothing(posts: seq<Post>, c: Post)
    ensures Below(posts, [], c) <==> Rooted(posts, c)
  {
    if Rooted(posts, c) {
      var q :| PathTo(posts, q, c);
      assert [] < q;
    }
  }

  /** What the `Replies` of the comments of a list hold. */
  function Fields(list: seq<Comment>): seq<Option<seq<Comment>>>
    reads list
  {
    seq(|list|, i requires 0 <= i < |list| reads list => list[i].Replies)
  }

  /** `field` holds exactly the replies to `post`, in list order. */
  ghost predicate Links(list: seq<Comment>, post: Post, field: Option<seq<Comment>>) {
    && field.Some?
    && (forall r :: r in field.value ==> r in list)
    && Posts(field.value) == Children(Posts(list), post.id)
  }

  /** Between the fields `was` and `now`, exactly the comments below `path` by one of the first `i`
      comments were linked. */
  ghost predicate Linked(list: seq<Comment>, path: seq<Post>, i: nat, was: seq<Option<seq<Comment>>>,
      now: seq<Option<seq<Comment>>>)
    requires i <= |list| == |was| == |now|
  {
    forall k :: 0 <= k < |list| ==>
      if Under(list, path, i, list[k]) then Links(list, list[k].post, now[k]) else now[k] == was[k]
  }

  /** The same for all comments below `path`. */
  ghost predicate LinkedBelow(list: seq<Comment>, path: seq<Post>, was: seq<Option<seq<Comment>>>,
      now: seq<Option<seq<Comment>>>)
    requires |list| == |was| == |now|
  {
    forall k :: 0 <= k < |list| ==>
      if Below(Posts(list), path, list[k].post) then Links(list, list[k].post, now[k]) else now[k] == was[k]
  }

  /** A field assigned; the list may hold a comment more than once. */
  function Assigned(list: seq<Comment>, fields: seq<Option<seq<Comment>>>, r: Comment,
      replies: seq<Comment>): seq<Option<seq<Comment>>>
    requires |fields| == |list|
  {
    seq(|list|, k requires 0 <= k < |list| => if list[k] == r then Some(replies) else fields[k])
  }

  lemma LinkOne(list: seq<Comment>, path: seq<Post>, i: nat, replies: seq<Comment>,
                was: seq<Option<seq<Comment>>>, before: seq<Option<seq<Comment>>>, after: seq<Option<seq<Comment>>>)
    requires i < |list| == |was| == |before| == |after|
    requires list[i].post.parent == LastId(path)
    requires Linked(list, path, i, was, before)
    requires LinkedBelow(list, path + [list[i].post], before, after)
    requires Links(list, list[i].post, Some(replies))
    ensures Linked(list, path, i + 1, was, Assigned(list, after, list[i], replies))
  {
    forall k | 0 <= k < |list|
      ensures Under(list, path, i + 1, list[k]) <==>
        Under(list, path, i, list[k]) || list[k] == list[i] || Below(Posts(list), path + [list[i].post], list[k].post)
    {
      UnderMore(list, path, i, list[k]);
    }
    hide Under, Below, Links, LastId, Posts;
  }

  lemma UnderMore(list: seq<Comment>, path: seq<Post>, i: nat, c: Comment)
    requires i < |list|
    ensures Under(list, path, i + 1, c) <==>
      || Under(list, path, i, c)
      || (list[i].post.parent == LastId(path) && (c == list[i] || Below(Posts(list), path + [list[i].post], c.post)))
  {
    hide Below, LastId, Posts;
  }

  lemma LinkNone(list: seq<Comment>, path: seq<Post>, i: nat, was: seq<Option<seq<Comment>>>,
      now: seq<Option<seq<Comment>>>)
    requires i < |list| == |was| == |now|
    requires list[i].post.parent != LastId(path)
    requires Linked(list, path, i, was, now)
    ensures Linked(list, path, i + 1, was, now)
  {
    forall k | 0 <= k < |list| ensures Under(list, path, i + 1, list[k]) == Under(list, path, i, list[k]) {
      UnderMore(list, path, i, list[k]);
    }
    hide Under, Links, LastId, Posts;
  }

  lemma LinkedIsBelow(list: seq<Comment>, path: seq<Post>, was: seq<Option<seq<Comment>>>,
      now: seq<Option<seq<Comment>>>)
    requires IsPath(Posts(list), path) && |list| == |was| == |now| && Linked(list, path, |list|, was, now)
    ensures LinkedBelow(list, path, was, now)
  {
    hide IsPath, Under, Below, Links, Posts;
    forall k | 0 <= k < |list| ensures Under(list, path, |list|, list[k]) == Below(Posts(list), path, list[k].post) {
      UnderAll(list, path, list[k]);
    }
  }

  lemma UnderNone(list: seq<Comment>, path: seq<Post>, was: seq<Option<seq<Comment>>>)
    requires |was| == |list|
    ensures Linked(list, path, 0, was, was)
  {
  }

  lemma PathOn(posts: seq<Post>, path: seq<Post>, r: Post)
    requires NoLoops(posts) && IsPath(posts, path) && r in posts && r.parent == LastId(path)
    ensures IsPath(posts, path + [r]) && LastId(path + [r]) == r.id && |path| < |posts|
  {
    PathExtend(posts, path, r);
    PathBound(posts, path + [r]);
  }

  lemma {:induction false} ChildrenPrefix(posts: seq<Post>, id: int, i: nat)
    requires i < |posts|
    ensures Children(posts[..i + 1], id) == Children(posts[..i], id) + if posts[i].parent == id then [posts[i]] else []
  {
    if i == 0 {
      assert posts[..1] == [posts[0]] + [];
      assert posts[..1][1..] == [];
    } else {
      ChildrenPrefix(posts[1..], id, i - 1);
      assert posts[..i + 1][1..] == posts[1..][..i] && posts[..i][1..] == posts[1..][..i - 1];
    }
  }

  /** `r.Replies = replies` */
  method SetReplies(list: seq<Comment>, r: Comment, replies: seq<Comment>)
    requires r in list
    modifies r
    ensures Fields(list) == Assigned(list, old(Fields(list)), r, replies)
  {
    r.Replies := Some(replies);
    assert Fields(list) == Assigned(list, old(Fields(list)), r, replies);
  }

  lemma PostsAppend(replies: seq<Comment>, r: Comment)
    ensures Posts(replies + [r]) == Posts(replies) + [r.post]
  {
  }

  lemma AllPosts(list: seq<Comment>)
    ensures Posts(list)[..|list|] == Posts(list)
    ensures forall id :: Children(Posts(list)[..0], id) == []
  {
    forall id ensures Children(Posts(list)[..0], id) == [] {
      ChildrenIn([], id);
    }
  }

  /** `getReplies(item, list)`, where `path` is the chain of replies that led to `item`: links all
      comments below `item`, touches no others, and returns the replies to `item`. */
  method GetReplies(item: Comment, list: seq<Comment>, ghost path: seq<Post>) returns (replies: seq<Comment>)
    requires NoLoops(Posts(list)) && IsPath(Posts(list), path) && path != [] && LastId(path) == item.post.id
    modifies list
    ensures Links(list, item.post, Some(replies))
    ensures LinkedBelow(list, path, old(Fields(list)), Fields(list))
    decreases |list| - |path|
  {
    ghost var posts, was := Posts(list), Fields(list);
    AllPosts(list);
    UnderNone(list, path, was);
    hide NoLoops, IsPath, LastId, Linked, LinkedBelow, Children, Fields;
    replies := [];
    for i := 0 to |list|
      invariant Posts(replies) == Children(posts[..i], item.post.id)
      invariant forall r :: r in replies ==> r in list
      invariant Linked(list, path, i, was, Fields(list))
    {
      var r := list[i];
      ChildrenPrefix(posts, item.post.id, i);
      ghost var before := Fields(list);
      if r.post.parent == item.post.id {
        PathOn(posts, path, r.post);
        var below := GetReplies(r, list, path + [r.post]);
        LinkOne(list, path, i, below, was, before, Fields(list));
        SetReplies(list, r, below);
        PostsAppend(replies, r);
        replies := replies + [r];
      } else {
        LinkNone(list, path, i, was, before);
      }
    }
    LinkedIsBelow(list, path, was, Fields(list));
  }

  /** `getTopics(list)`: links exactly the comments whose parent chain reaches 0, and returns the
      topics. */
  method GetTopics(list: seq<Comment>) returns (topics: seq<Comment>)
    requires NoLoops(Posts(list))
    modifies list
    ensures Posts(topics) == Children(Posts(list), 0) && forall t :: t in topics ==> t in list
    ensures forall c :: c in list && Rooted(Posts(list), c.post) ==> Links(list, c.post, c.Replies)
    ensures forall c :: c in list && !Rooted(Posts(list), c.post) ==> c.Replies == old(c.Replies)
  {
    ghost var posts, was := Posts(list), Fields(list);
    AllPosts(list);
    UnderNone(list, [], was);
    assert IsPath(posts, []) && LastId([]) == 0;
    hide NoLoops, IsPath, LastId, Linked, LinkedBelow, Children, Rooted;
    topics := [];
    for i := 0 to |list|
      invariant Posts(topics) == Children(posts[..i], 0)
      invariant forall t :: t in topics ==> t in list
      invariant Linked(list, [], i, was, Fields(list))
    {
      var t := list[i];
      ChildrenPrefix(posts, 0, i);
      ghost var before := Fields(list);
      if t.post.parent == 0 {
        PathOn(posts, [], t.post);
        assert [] + [t.post] == [t.post];
        var below := GetReplies(t, list, [t.post]);
        LinkOne(list, [], i, below, was, before, Fields(list));
        SetReplies(list, t, below);
        PostsAppend(topics, t);
        topics := topics + [t];
      } else {
        LinkNone(list, [], i, was, before);
      }
    }
    LinkedIsBelow(list, [], was, Fields(list));
    LinkedRooted(list, was, Fields(list));
    assert forall k :: 0 <= k < |list| ==> Fields(list)[k] == list[k].Replies && was[k] == old(list[k].Replies);
  }

  lemma LinkedRooted(list: seq<Comment>, was: seq<Option<seq<Comment>>>, now: seq<Option<seq<Comment>>>)
    requires |list| == |was| == |now| && LinkedBelow(list, [], was, now)
    ensures forall k :: 0 <= k < |list| ==>
      if Rooted(Posts(list), list[k].post) then Links(list, list[k].post, now[k]) else now[k] == was[k]
  {
    hide Rooted, Below, Links;
    forall k | 0 <= k < |list| ensures Rooted(Posts(list), list[k].post) == Below(Posts(list), [], list[k].post) {
      BelowNothing(Posts(list), list[k].post);
    }
  }

  // ---------------------------------------------------------------- showing the comments

  /** One shown comment: `deep` is its level of indentation. */
  datatype Item = Item(post: Post, deep: nat)

  function ItemPosts(shown: seq<Item>): seq<Post> {
    seq(|shown|, k requires 0 <= k < |shown| => shown[k].post)
  }

  ghost predicate AtDepth(posts: seq<Post>, item: Item) {
    exists q :: PathTo(posts, q, item.post) && |q| == item.deep + 1
  }

  ghost predicate AllLinked(list: seq<Comment>)
    reads list
  {
    forall c :: c in list && Rooted(Posts(list), c.post) ==> Links(list, c.post, c.Replies)
  }

  lemma {:induction false} VisitsAppend(posts: seq<Post>, path: seq<Post>, rs: seq<Post>, i: nat)
    requires NoLoops(posts) && IsPath(posts, path) && i < |rs|
    requires forall r :: r in rs ==> r in posts && r.parent == LastId(path)
    ensures IsPath(posts, path + [rs[i]])
    ensures PreorderAll(posts, path, rs[..i + 1]) == PreorderAll(posts, path, rs[..i]) + Preorder(posts, path + [rs[i]])
    decreases |rs|
  {
    assert PreorderAll(posts, path, []) == [];
    hide *;
    VisitsUnfold(posts, path, rs[..i + 1]);
    if i == 0 {
      assert rs[..1][1..] == [] && rs[..0] == [];
      var first := Preorder(posts, path + [rs[0]]);
      assert first + [] == [] + first;
    } else {
      VisitsAppend(posts, path, rs[1..], i - 1);
      VisitsUnfold(posts, path, rs[..i]);
      assert rs[..i + 1][1..] == rs[1..][..i] && rs[..i][1..] == rs[1..][..i - 1];
      Associative(Preorder(posts, path + [rs[0]]), PreorderAll(posts, path, rs[1..][..i - 1]),
        Preorder(posts, path + [rs[i]]));
    }
  }

  ghost predicate AllAtDepth(posts: seq<Post>, html: seq<Item>) {
    forall item :: item in html ==> AtDepth(posts, item)
  }

  /** The comments of `replies` can be shown below `path`. */
  ghost predicate Ready(list: seq<Comment>, path: seq<Post>, replies: seq<Comment>) {
    && (forall r :: r in replies ==> r in list)
    && (forall r :: r in Posts(replies) ==> r in Posts(list) && r.parent == LastId(path))
  }

  lemma RepliesReady(list: seq<Comment>, comment: Comment, deep: nat, path: seq<Post>)
    requires NoLoops(Posts(list)) && AllLinked(list)
    requires comment in list && PathTo(Posts(list), path, comment.post) && deep == |path| - 1
    ensures comment.Replies.Some? && Ready(list, path, comment.Replies.value) && IsPath(Posts(list), path)
    ensures Preorder(Posts(list), path) == [comment.post] + PreorderAll(Posts(list), path, Posts(comment.Replies.value))
    ensures ItemPosts([Item(comment.post, deep)])
      == [comment.post] + PreorderAll(Posts(list), path, Posts(comment.Replies.value)[..0])
    ensures AllAtDepth(Posts(list), [Item(comment.post, deep)])
  {
    assert Rooted(Posts(list), comment.post);
    assert Links(list, comment.post, comment.Replies);
    VisitReady(Posts(list), path);
    assert AtDepth(Posts(list), Item(comment.post, deep));
  }

  lemma ReplyReady(list: seq<Comment>, path: seq<Post>, replies: seq<Comment>, j: nat)
    requires NoLoops(Posts(list)) && IsPath(Posts(list), path) && Ready(list, path, replies) && j < |replies|
    ensures replies[j] in list && PathTo(Posts(list), path + [replies[j].post], replies[j].post)
    ensures |path| < |list|
  {
    assert Posts(replies)[j] == replies[j].post;
    PathOn(Posts(list), path, replies[j].post);
  }

  lemma HtmlStep(list: seq<Comment>, path: seq<Post>, replies: seq<Comment>, j: nat, top: seq<Post>, html: seq<Item>,
      below: seq<Item>)
    requires NoLoops(Posts(list)) && IsPath(Posts(list), path) && Ready(list, path, replies) && j < |replies|
    requires IsPath(Posts(list), path + [replies[j].post])
    requires ItemPosts(html) == top + PreorderAll(Posts(list), path, Posts(replies)[..j])
      && AllAtDepth(Posts(list), html)
    requires ItemPosts(below) == Preorder(Posts(list), path + [replies[j].post]) && AllAtDepth(Posts(list), below)
    ensures ItemPosts(html + below) == top + PreorderAll(Posts(list), path, Posts(replies)[..j + 1])
    ensures AllAtDepth(Posts(list), html + below)
  {
    hide NoLoops, IsPath, LastId, AtDepth, AllAtDepth, Preorder, PreorderAll, ItemPosts;
    ItemsConcat(Posts(list), html, below);
    VisitsAppend(Posts(list), path, Posts(replies), j);
    assert Posts(replies)[j] == replies[j].post;
    Associative(top, PreorderAll(Posts(list), path, Posts(replies)[..j]),
      Preorder(Posts(list), path + [replies[j].post]));
  }

  lemma ItemsConcat(posts: seq<Post>, html: seq<Item>, below: seq<Item>)
    ensures ItemPosts(html + below) == ItemPosts(html) + ItemPosts(below)
    ensures AllAtDepth(posts, html) && AllAtDepth(posts, below) ==> AllAtDepth(posts, html + below)
  {
    hide AtDepth;
    assert ItemPosts(html + below) == ItemPosts(html) + ItemPosts(below);
  }

  /** `getItemHtml(comment, …, deep)`: the comment, then each of its replies one level deeper. */
  method GetItemHtml(comment: Comment, list: seq<Comment>, deep: nat, ghost path: seq<Post>) returns (html: seq<Item>)
    requires NoLoops(Posts(list)) && AllLinked(list)
    requires comment in list && PathTo(Posts(list), path, comment.post) && deep == |path| - 1
    ensures ItemPosts(html) == Preorder(Posts(list), path) && AllAtDepth(Posts(list), html)
    decreases |list| - |path|
  {
    html := [Item(comment.post, deep)];
    RepliesReady(list, comment, deep, path);
    hide NoLoops, IsPath, LastId, AllLinked, AllAtDepth, Ready, Preorder, PreorderAll, ItemPosts;
    var replies := comment.Replies.value;
    for j := 0 to |replies|
      invariant ItemPosts(html) == [comment.post] + PreorderAll(Posts(list), path, Posts(replies)[..j])
      invariant AllAtDepth(Posts(list), html)
    {
      ReplyReady(list, path, replies, j);
      var below := GetItemHtml(replies[j], list, deep + 1, path + [replies[j].post]);
      HtmlStep(list, path, replies, j, [comment.post], html, below);
      html := html + below;
    }
    assert Posts(replies)[..|replies|] == Posts(replies);
  }

  lemma TopicsReady(list: seq<Comment>, topics: seq<Comment>)
    requires NoLoops(Posts(list))
    requires Posts(topics) == Children(Posts(list), 0) && forall t :: t in topics ==> t in list
    ensures IsPath(Posts(list), []) && PreorderAll(Posts(list), [], []) == []
    ensures Ready(list, [], topics)
    ensures Forest(Posts(list)) == PreorderAll(Posts(list), [], Posts(topics))
    ensures forall i {:trigger topics[i]} :: 0 <= i < |topics| ==> [] + [topics[i].post] == [topics[i].post]
    ensures ItemPosts([]) == [] + PreorderAll(Posts(list), [], Posts(topics)[..0]) && AllAtDepth(Posts(list), [])
  {
    ChildrenIn(Posts(list), 0);
  }

  /** The list as `loadList` shows it: every topic with all that is below it. */
  method ShowList(list: seq<Comment>) returns (html: seq<Item>)
    requires NoLoops(Posts(list))
    modifies list
    ensures ItemPosts(html) == Forest(Posts(list)) && AllAtDepth(Posts(list), html)
  {
    var topics := GetTopics(list);
    assert AllLinked(list) by { hide NoLoops, Links, Rooted; }
    TopicsReady(list, topics);
    hide NoLoops, IsPath, LastId, AllLinked, AllAtDepth, Ready, Preorder, PreorderAll, Links, Forest, ItemPosts,
      Children;
    html := [];
    for i := 0 to |topics|
      invariant ItemPosts(html) == [] + PreorderAll(Posts(list), [], Posts(topics)[..i])
      invariant AllAtDepth(Posts(list), html)
      invariant AllLinked(list)
    {
      ReplyReady(list, [], topics, i);
      var below := GetItemHtml(topics[i], list, 0, [topics[i].post]);
      HtmlStep(list, [], topics, i, [], html, below);
      html := html + below;
    }
    assert Posts(topics)[..|topics|] == Posts(topics);
  }
}
