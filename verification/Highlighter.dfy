/** The syntax highlighter of the blog pages: overlapping matches are dropped in place, and the code
    is emitted as plain and styled bits around the matches that are left. */
module Highlighter {
  import opened Collections

  datatype Match = Match(value: string, index: nat, css: string) {
    function End(): nat {
      index + |value|
    }
  }

  /** A SPAN: `css` is absent for plain text. */
  datatype Bit = Bit(text: string, css: Option<string>)

  // ---------------------------------------------------------------- order

  function SortCallback(b: Match, c: Match): int {
    if b.index < c.index then -1
    else if b.index > c.index then 1
    else if |b.value| < |c.value| then -1
    else if |b.value| > |c.value| then 1
    else 0
  }

  /** The comparator is one a sort may rely on: a total preorder, whose ties are equal spans. */
  lemma ComparatorIsConsistent(a: Match, b: Match, c: Match)
    ensures SortCallback(a, b) == -SortCallback(b, a)
    ensures SortCallback(a, b) <= 0 && SortCallback(b, c) <= 0 ==> SortCallback(a, c) <= 0
    ensures SortCallback(a, b) == 0 <==> a.index == b.index && a.End() == b.End()
  {
  }

  /** It sorts by the place where a match starts, and shorter ones first. */
  lemma ComparatorOrders(b: Match, c: Match)
    ensures SortCallback(b, c) < 0 <==> b.index < c.index || (b.index == c.index && b.End() < c.End())
  {
  }

  ghost predicate InOrder(ms: seq<Match>) {
    forall i, j :: 0 <= i < j < |ms| ==> SortCallback(ms[i], ms[j]) <= 0
  }

  /** `sorted` is what a sort with `SortCallback` may make of `found`. */
  ghost predicate SortOf(found: seq<Match>, sorted: seq<Match>) {
    multiset(sorted) == multiset(found) && InOrder(sorted)
  }

  lemma SortKeepsMatches(code: string, found: seq<Match>, sorted: seq<Match>)
    requires SortOf(found, sorted) && Occur(code, found)
    ensures InOrder(sorted) && Occur(code, sorted)
  {
    forall m | m in sorted ensures m in found {
      assert m in multiset(sorted);
    }
  }

  /** Every match is a piece of the code, as a regular expression finds it. */
  ghost predicate Occur(code: string, ms: seq<Match>) {
    forall m :: m in ms ==> m.End() <= |code| && code[m.index..m.End()] == m.value
  }

  // ---------------------------------------------------------------- which matches survive

  predicate StartsInside(b: Match, d: Match) {
    d.index < b.index < d.End()
  }

  /** A match survives unless it starts strictly inside an earlier survivor. */
  ghost predicate Survives(ms: seq<Match>, k: nat)
    requires k < |ms|
    decreases k
  {
    ms[k].value == "" || forall j :: 0 <= j < k && Survives(ms, j) ==> !StartsInside(ms[k], ms[j])
  }

  ghost predicate Shown(ms: seq<Match>, k: nat)
    requires k < |ms|
  {
    Survives(ms, k) && ms[k].value != ""
  }

  /** A match that is shown starts where an earlier one does. */
  ghost predicate StartTaken(ms: seq<Match>, n: nat)
    requires n < |ms|
  {
    exists j :: 0 <= j < n && Shown(ms, j) && ms[j].index == ms[n].index
  }

  /** Two matches that are shown start at the same place. */
  ghost predicate SharedStart(ms: seq<Match>, n: nat)
    requires n <= |ms|
  {
    exists j, k :: 0 <= j < k < n && Shown(ms, j) && Shown(ms, k) && ms[j].index == ms[k].index
  }

  /** Shown matches are disjoint unless they start together; a dropped one starts strictly inside
      one that is shown. */
  lemma ShownAreDisjoint(ms: seq<Match>, j: nat, k: nat)
    requires InOrder(ms) && j < k < |ms|
    ensures Shown(ms, j) && Shown(ms, k) ==> ms[j].index == ms[k].index || ms[j].End() <= ms[k].index
    ensures !Survives(ms, k) ==> exists i :: 0 <= i < k && Shown(ms, i) && StartsInside(ms[k], ms[i])
  {
    assert SortCallback(ms[j], ms[k]) <= 0;
    if !Survives(ms, k) {
      var i :| 0 <= i < k && Survives(ms, i) && StartsInside(ms[k], ms[i]);
      assert Shown(ms, i);
    }
  }

  /** Whether a match survives does not depend on how the sort arranges ties: nonempty matches with
      one start all survive or are all dropped. */
  lemma TiesShareTheirFate(ms: seq<Match>, j: nat, k: nat)
    requires InOrder(ms) && j < k < |ms| && ms[j].index == ms[k].index && ms[j].value != "" && ms[k].value != ""
    ensures Survives(ms, j) <==> Survives(ms, k)
  {
    forall i | j <= i < k ensures !StartsInside(ms[k], ms[i]) {
      if i != j { assert SortCallback(ms[j], ms[i]) <= 0; }
    }
    if !Survives(ms, k) {
      var i :| 0 <= i < k && Survives(ms, i) && StartsInside(ms[k], ms[i]);
      assert i < j && StartsInside(ms[j], ms[i]);
    }
    if !Survives(ms, j) {
      var i :| 0 <= i < j && Survives(ms, i) && StartsInside(ms[j], ms[i]);
      assert i < k && StartsInside(ms[k], ms[i]);
    }
  }

  // ---------------------------------------------------------------- what is emitted

  /** `s.substr(from, length)` of JavaScript, from a place that is not negative. */
  function Substr(s: string, from: nat, length: int): string {
    if from >= |s| || length <= 0 then "" else if from + length >= |s| then s[from..] else s[from..from + length]
  }

  function BitOf(text: string, css: Option<string>): seq<Bit> {
    if text == "" then [] else [Bit(text, css)]
  }

  /** Where the emission of the first `n` matches ends in the code. */
  ghost function Cursor(ms: seq<Match>, n: nat): nat
    requires n <= |ms|
  {
    if n == 0 then 0 else if Shown(ms, n - 1) then ms[n - 1].End() else Cursor(ms, n - 1)
  }

  /** What the first `n` matches emit. */
  ghost function Bits(code: string, ms: seq<Match>, n: nat): seq<Bit>
    requires n <= |ms|
  {
    if n == 0 then []
    else
      Bits(code, ms, n - 1) +
      if !Shown(ms, n - 1) then []
      else
        var q := Cursor(ms, n - 1);
        BitOf(Substr(code, q, ms[n - 1].index - q), None) + BitOf(ms[n - 1].value, Some(ms[n - 1].css))
  }

  function Text(bits: seq<Bit>): string {
    if bits == [] then "" else bits[0].text + Text(bits[1..])
  }

  function Styled(bits: seq<Bit>): seq<Bit> {
    if bits == [] then [] else (if bits[0].css.Some? then [bits[0]] else []) + Styled(bits[1..])
  }

  /** The matches shown among the first `n`, as bits. */
  ghost function ShownBits(ms: seq<Match>, n: nat): seq<Bit>
    requires n <= |ms|
  {
    if n == 0 then []
    else ShownBits(ms, n - 1) + if Shown(ms, n - 1) then [Bit(ms[n - 1].value, Some(ms[n - 1].css))] else []
  }

  /** Every match that is shown has its bit, with its text and its style, behind those of the matches before it, and
      there are no others. */
  lemma {:induction false} ShownBitsAre(ms: seq<Match>, n: nat)
    requires n <= |ms|
    ensures forall k :: 0 <= k < n && Shown(ms, k) ==>
      && |ShownBits(ms, k)| < |ShownBits(ms, n)|
      && ShownBits(ms, n)[|ShownBits(ms, k)|] == Bit(ms[k].value, Some(ms[k].css))
    ensures forall b :: b in ShownBits(ms, n) ==>
      exists k :: 0 <= k < n && Shown(ms, k) && b == Bit(ms[k].value, Some(ms[k].css))
  {
    hide Shown;
    if n != 0 {
      ShownBitsAre(ms, n - 1);
    }
  }

  lemma TextUnfolds(bits: seq<Bit>)
    requires bits != []
    ensures Text(bits) == bits[0].text + Text(bits[1..])
    ensures Styled(bits) == (if bits[0].css.Some? then [bits[0]] else []) + Styled(bits[1..])
  {
  }

  lemma {:induction false} TextConcat(a: seq<Bit>, b: seq<Bit>)
    ensures Text(a + b) == Text(a) + Text(b)
    ensures Styled(a + b) == Styled(a) + Styled(b)
  {
    assert Text([]) == "" && Styled([]) == [];
    hide Text, Styled;
    if a == [] {
      assert a + b == b;
    } else {
      TextConcat(a[1..], b);
      assert (a + b)[1..] == a[1..] + b;
      TextUnfolds(a);
      TextUnfolds(a + b);
      Associative(a[0].text, Text(a[1..]), Text(b));
      Associative(if a[0].css.Some? then [a[0]] else [], Styled(a[1..]), Styled(b));
    }
  }

  lemma BitText(text: string, css: Option<string>)
    ensures Text(BitOf(text, css)) == text
    ensures Styled(BitOf(text, css)) == if css.Some? then BitOf(text, css) else []
  {
    if text != "" {
      assert BitOf(text, css)[1..] == [];
    }
  }

  /** The cursor never moves back. */
  lemma {:induction false} CursorPassesAll(ms: seq<Match>, n: nat)
    requires InOrder(ms) && n <= |ms|
    ensures forall j :: 0 <= j < n && Shown(ms, j) ==> ms[j].End() <= Cursor(ms, n)
    ensures Cursor(ms, n) == 0 || exists j :: 0 <= j < n && Shown(ms, j) && ms[j].End() == Cursor(ms, n)
  {
    if n != 0 {
      CursorPassesAll(ms, n - 1);
      if Shown(ms, n - 1) {
        forall j | 0 <= j < n - 1 && Shown(ms, j) ensures ms[j].End() <= ms[n - 1].End() {
          ShownAreDisjoint(ms, j, n - 1);
          assert SortCallback(ms[j], ms[n - 1]) <= 0;
        }
      }
    }
  }

  lemma BitsStep(code: string, ms: seq<Match>, n: nat)
    requires n < |ms|
    ensures Survives(ms, n) && ms[n].value != "" ==>
      && Cursor(ms, n + 1) == ms[n].End()
      && Bits(code, ms, n + 1)
        == Bits(code, ms, n) + BitOf(Substr(code, Cursor(ms, n), ms[n].index - Cursor(ms, n)), None)
          + BitOf(ms[n].value, Some(ms[n].css))
    ensures !(Survives(ms, n) && ms[n].value != "") ==>
      Cursor(ms, n + 1) == Cursor(ms, n) && Bits(code, ms, n + 1) == Bits(code, ms, n)
  {
    hide Survives, Substr, BitOf;
  }

  lemma StepText(code: string, ms: seq<Match>, n: nat)
    requires 0 < n <= |ms|
    ensures Shown(ms, n - 1) ==>
      && Text(Bits(code, ms, n))
        == Text(Bits(code, ms, n - 1))
          + (Substr(code, Cursor(ms, n - 1), ms[n - 1].index - Cursor(ms, n - 1)) + ms[n - 1].value)
      && Styled(Bits(code, ms, n)) == Styled(Bits(code, ms, n - 1)) + [Bit(ms[n - 1].value, Some(ms[n - 1].css))]
    ensures !Shown(ms, n - 1) ==> Bits(code, ms, n) == Bits(code, ms, n - 1)
  {
    BitsStep(code, ms, n - 1);
    assert Shown(ms, n - 1) <==> Survives(ms, n - 1) && ms[n - 1].value != "";
    hide *;
    AppendedText(Bits(code, ms, n - 1), Substr(code, Cursor(ms, n - 1), ms[n - 1].index - Cursor(ms, n - 1)),
      ms[n - 1]);
  }

  lemma AppendedText(before: seq<Bit>, gap: string, m: Match)
    ensures var bits := before + BitOf(gap, None) + BitOf(m.value, Some(m.css));
      && Text(bits) == Text(before) + (gap + m.value)
      && (m.value != "" ==> Styled(bits) == Styled(before) + [Bit(m.value, Some(m.css))])
  {
    BitText(gap, None);
    BitText(m.value, Some(m.css));
    hide Text, Styled;
    TextConcat(before, BitOf(gap, None));
    TextConcat(before + BitOf(gap, None), BitOf(m.value, Some(m.css)));
    Associative(Text(before), gap, m.value);
  }

  /** The next match that is shown starts behind the cursor, unless it shares its start. */
  lemma NextStart(ms: seq<Match>, n: nat)
    requires InOrder(ms) && n < |ms| && Shown(ms, n)
    ensures ms[n].index < Cursor(ms, n) <==> StartTaken(ms, n)
  {
    CursorPassesAll(ms, n);
    if ms[n].index < Cursor(ms, n) {
      var j :| 0 <= j < n && Shown(ms, j) && ms[j].End() == Cursor(ms, n);
      ShownAreDisjoint(ms, j, n);
    }
  }

  lemma SharedStep(ms: seq<Match>, n: nat)
    requires n < |ms|
    ensures SharedStart(ms, n + 1) <==> SharedStart(ms, n) || (Shown(ms, n) && StartTaken(ms, n))
  {
    if SharedStart(ms, n + 1) {
      var j, k :| 0 <= j < k < n + 1 && Shown(ms, j) && Shown(ms, k) && ms[j].index == ms[k].index;
      if k < n { assert SharedStart(ms, n); }
    }
    if Shown(ms, n) && StartTaken(ms, n) {
      var j :| 0 <= j < n && Shown(ms, j) && ms[j].index == ms[n].index;
      assert SharedStart(ms, n + 1);
    }
  }

  /** One more match, which starts behind the cursor unless its start is taken. */
  lemma StepKeeps(code: string, q: nat, m: Match, text: string, shared: bool, taken: bool)
    requires q <= |code| && m.End() <= |code| && code[m.index..m.End()] == m.value && m.value != ""
    requires if shared then |text| > q else text == code[..q]
    requires taken <==> m.index < q
    ensures var longer := text + (Substr(code, q, m.index - q) + m.value);
      if shared || taken then |longer| > m.End() else longer == code[..m.End()]
  {
    if m.index >= q {
      assert Substr(code, q, m.index - q) == code[q..m.index];
    }
  }

  /** Up to the cursor, the emitted text is the code, or it is longer. */
  ghost predicate KeptSoFar(code: string, ms: seq<Match>, n: nat)
    requires n <= |ms|
  {
    && Cursor(ms, n) <= |code|
    && if SharedStart(ms, n) then |Text(Bits(code, ms, n))| > Cursor(ms, n)
      else Text(Bits(code, ms, n)) == code[..Cursor(ms, n)]
  }

  lemma {:induction false} EmittedText(code: string, ms: seq<Match>, n: nat)
    requires InOrder(ms) && Occur(code, ms) && n <= |ms|
    ensures KeptSoFar(code, ms, n)
  {
    if n == 0 {
      KeptAtStart(code, ms);
    } else {
      hide *;
      EmittedText(code, ms, n - 1);
      if Shown(ms, n - 1) {
        KeptStep(code, ms, n);
      } else {
        KeptSkip(code, ms, n);
      }
    }
  }

  lemma KeptAtStart(code: string, ms: seq<Match>)
    ensures KeptSoFar(code, ms, 0)
  {
    assert code[..0] == "";
  }

  lemma KeptSkip(code: string, ms: seq<Match>, n: nat)
    requires 0 < n <= |ms| && !Shown(ms, n - 1) && KeptSoFar(code, ms, n - 1)
    ensures KeptSoFar(code, ms, n)
  {
    assert Cursor(ms, n) == Cursor(ms, n - 1);
    hide Survives, Text, Bits, SharedStart, StartTaken, Cursor, Shown;
    SharedStep(ms, n - 1);
    StepText(code, ms, n);
  }

  lemma InCode(code: string, ms: seq<Match>, k: nat)
    requires Occur(code, ms) && k < |ms|
    ensures ms[k].End() <= |code| && code[ms[k].index..ms[k].End()] == ms[k].value
  {
    assert ms[k] in ms;
  }

  lemma KeptStep(code: string, ms: seq<Match>, n: nat)
    requires InOrder(ms) && Occur(code, ms) && 0 < n <= |ms| && Shown(ms, n - 1) && KeptSoFar(code, ms, n - 1)
    ensures KeptSoFar(code, ms, n)
  {
    hide *;
    KeptSoFarSays(code, ms, n - 1);
    KeptSoFarSays(code, ms, n);
    CursorStep(ms, n);
    StepText(code, ms, n);
    SharedStep(ms, n - 1);
    NextStart(ms, n - 1);
    InCode(code, ms, n - 1);
    StepKeeps(code, Cursor(ms, n - 1), ms[n - 1], Text(Bits(code, ms, n - 1)), SharedStart(ms, n - 1),
      StartTaken(ms, n - 1));
  }

  lemma KeptSoFarSays(code: string, ms: seq<Match>, n: nat)
    requires n <= |ms|
    ensures KeptSoFar(code, ms, n) <==>
      (Cursor(ms, n) <= |code| && if SharedStart(ms, n) then |Text(Bits(code, ms, n))| > Cursor(ms, n)
        else Text(Bits(code, ms, n)) == code[..Cursor(ms, n)])
  {
  }

  lemma CursorStep(ms: seq<Match>, n: nat)
    requires 0 < n <= |ms| && Shown(ms, n - 1)
    ensures ms[n - 1].value != "" && Cursor(ms, n) == ms[n - 1].End()
  {
  }

  lemma {:induction false} EmittedStyle(code: string, ms: seq<Match>, n: nat)
    requires n <= |ms|
    ensures Styled(Bits(code, ms, n)) == ShownBits(ms, n)
  {
    if n != 0 {
      EmittedStyle(code, ms, n - 1);
      StepText(code, ms, n);
    }
  }

  /** All that is emitted for a sorted list of matches. */
  ghost function Emitted(code: string, ms: seq<Match>): seq<Bit> {
    var q := Cursor(ms, |ms|);
    Bits(code, ms, |ms|) + BitOf(Substr(code, q, |code|), None)
  }

  lemma WithTheRest(code: string, q: nat, text: string, shared: bool)
    requires q <= |code|
    requires if shared then |text| > q else text == code[..q]
    ensures text + Substr(code, q, |code|) == code <==> !shared
    ensures |text + Substr(code, q, |code|)| >= |code|
  {
    assert code == code[..q] + code[q..];
  }

  /** Nothing is lost, and the text comes out as it was exactly if no two of the matches that are
      shown start together; otherwise the text they have in common is repeated. */
  lemma TextIsKeptIff(code: string, ms: seq<Match>)
    requires InOrder(ms) && Occur(code, ms)
    ensures Text(Emitted(code, ms)) == code <==> !SharedStart(ms, |ms|)
    ensures |Text(Emitted(code, ms))| >= |code|
    ensures Styled(Emitted(code, ms)) == ShownBits(ms, |ms|)
  {
    EmittedText(code, ms, |ms|);
    EmittedParts(code, ms);
    hide *;
    EmittedStyle(code, ms, |ms|);
    KeptSoFarSays(code, ms, |ms|);
    WithTheRest(code, Cursor(ms, |ms|), Text(Bits(code, ms, |ms|)), SharedStart(ms, |ms|));
  }

  lemma EmittedParts(code: string, ms: seq<Match>)
    ensures Text(Emitted(code, ms)) == Text(Bits(code, ms, |ms|)) + Substr(code, Cursor(ms, |ms|), |code|)
    ensures Styled(Emitted(code, ms)) == Styled(Bits(code, ms, |ms|))
  {
    hide Bits, Text, Styled, Substr, BitOf, Cursor;
    var rest := Substr(code, Cursor(ms, |ms|), |code|);
    BitText(rest, None);
    TextConcat(Bits(code, ms, |ms|), BitOf(rest, None));
  }

  /** If the matches found have distinct starts, no two that are shown share one. */
  lemma DistinctStartsKeepTheText(found: seq<Match>, sorted: seq<Match>)
    requires SortOf(found, sorted)
    requires forall j, k :: 0 <= j < k < |found| ==> found[j].index != found[k].index
    ensures !SharedStart(sorted, |sorted|)
  {
    if SharedStart(sorted, |sorted|) {
      var j, k :| 0 <= j < k < |sorted| && Shown(sorted, j) && Shown(sorted, k) && sorted[j].index == sorted[k].index;
      hide *;
      FoundTwice(found, sorted, j, k);
    }
  }

  lemma FoundTwice(found: seq<Match>, sorted: seq<Match>, j: nat, k: nat)
    requires SortOf(found, sorted) && j < k < |sorted| && sorted[j].index == sorted[k].index
    ensures exists u, v :: 0 <= u < v < |found| && found[u].index == found[v].index
  {
    TakeOut(sorted, j);
    assert sorted[k] in multiset(sorted) - multiset{sorted[j]} by {
      var others := sorted[..j] + sorted[j + 1..];
      assert others[k - 1] == sorted[k];
    }
    assert multiset(found) == multiset(sorted);
    var u, v := TwoPlaces(found, sorted[j], sorted[k]);
    if u < v { assert found[u].index == found[v].index; } else { assert found[v].index == found[u].index; }
  }

  lemma TakeOut<T>(s: seq<T>, i: nat)
    requires i < |s|
    ensures multiset(s[..i] + s[i + 1..]) == multiset(s) - multiset{s[i]}
  {
    assert s == s[..i] + [s[i]] + s[i + 1..];
  }

  lemma TwoPlaces<T>(s: seq<T>, x: T, y: T) returns (u: nat, v: nat)
    requires x in multiset(s) && y in multiset(s) - multiset{x}
    ensures u < |s| && v < |s| && u != v && s[u] == x && s[v] == y
  {
    u :| 0 <= u < |s| && s[u] == x;
    TakeOut(s, u);
    var others := s[..u] + s[u + 1..];
    assert y in multiset(others);
    var w :| 0 <= w < |others| && others[w] == y;
    v := if w < u then w else w + 1;
  }

  /** Two keyword lists that both match `int`: the word comes out twice. */
  lemma SharedStartRepeats()
    ensures var ms := [Match("int", 0, "type"), Match("int", 0, "keyword")];
      Occur("int", ms) && InOrder(ms) && SharedStart(ms, 2) && Text(Bits("int", ms, 2)) == "intint"
  {
    var ms := [Match("int", 0, "type"), Match("int", 0, "keyword")];
    assert Shown(ms, 0) && Shown(ms, 1);
    StepText("int", ms, 1);
    StepText("int", ms, 2);
  }

  /** The slots while the matches before `b` have been looked at: of those only the survivors are left. */
  ghost predicate DoneUpTo(ms: seq<Match>, b: nat, slots: seq<Option<Match>>) {
    && |slots| == |ms|
    && (forall k :: 0 <= k < |ms| ==> slots[k] == if k >= b || Survives(ms, k) then Some(ms[k]) else None)
  }

  /** The next match survives unless one that is left is in its way: one behind it in the order does
      not start before it. */
  lemma SurvivesIff(ms: seq<Match>, b: nat, slots: seq<Option<Match>>)
    requires InOrder(ms) && b < |ms| && DoneUpTo(ms, b, slots)
    ensures slots[b] == Some(ms[b])
    ensures Survives(ms, b) <==>
      ms[b].value == "" || forall c :: 0 <= c < |slots| && slots[c].Some? ==> !StartsInside(ms[b], slots[c].value)
  {
    forall c | b < c < |ms| ensures !StartsInside(ms[b], ms[c]) {
      assert SortCallback(ms[b], ms[c]) <= 0;
    }
    hide SortCallback;
  }

  lemma DoneIs(ms: seq<Match>, slots: seq<Option<Match>>)
    requires |slots| == |ms|
    ensures (forall k :: 0 <= k < |ms| ==> slots[k] == Some(ms[k])) ==> DoneUpTo(ms, 0, slots)
    ensures DoneUpTo(ms, |ms|, slots) ==> forall k :: 0 <= k < |ms| ==>
      slots[k] == if Survives(ms, k) then Some(ms[k]) else None
  {
    hide Survives;
  }

  lemma DoneNext(ms: seq<Match>, b: nat, slots: seq<Option<Match>>)
    requires b < |ms| && DoneUpTo(ms, b, slots)
    ensures DoneUpTo(ms, b + 1, if Survives(ms, b) then slots else slots[b := None])
  {
    hide Survives;
  }

  // ---------------------------------------------------------------- the highlighter

  class Highlighter {
    var code: string
    var matches: array<Option<Match>>
    var div: seq<Bit>

    constructor (code: string)
      ensures this.code == code && fresh(matches) && matches.Length == 0 && div == []
    {
      this.code := code;
      matches := new Option<Match>[0];
      div := [];
    }

    /** Is the match a nonempty one that starts strictly inside one of the list? */
    method IsInside(b: Option<Match>) returns (inside: bool)
      ensures inside == (b.Some? && b.value.value != "" &&
        exists c :: 0 <= c < matches.Length && matches[c].Some? && StartsInside(b.value, matches[c].value))
    {
      if b.None? || b.value.value == "" {
        return false;
      }
      for c := 0 to matches.Length
        invariant forall k :: 0 <= k < c && matches[k].Some? ==> !StartsInside(b.value, matches[k].value)
      {
        var d := matches[c];
        if d.Some? {
          if b.value.index > d.value.index && b.value.index < d.value.End() {
            return true;
          }
        }
      }
      return false;
    }

    method AddBit(text: string, css: Option<string>)
      modifies this`div
      ensures div == old(div) + BitOf(text, css)
    {
      if text != "" {
        div := div + [Bit(text, css)];
      }
    }

    /** The loop that sets matches to null: exactly the survivors are left. */
    method DropInside(ghost ms: seq<Match>)
      requires InOrder(ms) && |ms| == matches.Length && forall k :: 0 <= k < |ms| ==> matches[k] == Some(ms[k])
      modifies matches
      ensures forall k :: 0 <= k < |ms| ==> matches[k] == if Survives(ms, k) then Some(ms[k]) else None
    {
      hide *;
      DoneIs(ms, matches[..]);
      for b := 0 to matches.Length
        invariant DoneUpTo(ms, b, matches[..]) && |ms| == matches.Length
      {
        ghost var slots := matches[..];
        SurvivesIff(ms, b, slots);
        DoneNext(ms, b, slots);
        var inside := IsInside(matches[b]);
        assert inside <==> !Survives(ms, b);
        if inside {
          matches[b] := None;
          assert matches[..] == slots[b := None];
        }
      }
      DoneIs(ms, matches[..]);
      assert forall k :: 0 <= k < |ms| ==> matches[..][k] == matches[k];
    }

    /** The loop that emits what is left; it returns where the rest of the code begins. */
    method EmitMatches(ghost ms: seq<Match>) returns (q: nat)
      requires |ms| == matches.Length
      requires forall k :: 0 <= k < |ms| ==> matches[k] == if Survives(ms, k) then Some(ms[k]) else None
      modifies this`div
      ensures q == Cursor(ms, |ms|) && div == old(div) + Bits(code, ms, |ms|)
    {
      hide *;
      BitsStart(code, ms);
      q := 0;
      for b := 0 to matches.Length
        invariant q == Cursor(ms, b) && div == old(div) + Bits(code, ms, b)
      {
        var h := matches[b];
        BitsStep(code, ms, b);
        if !(h.None? || h.value.value == "") {
          AddBit(Substr(code, q, h.value.index - q), None);
          AddBit(h.value.value, Some(h.value.css));
          q := h.value.End();
        }
      }
    }

    /** `Highlight` from the point where the matches were found. `sorted` is what the sort makes of
        them: the same matches, in the order of `SortCallback`. */
    method Highlight(found: seq<Match>, sorted: seq<Match>)
      requires SortOf(found, sorted) && Occur(code, found)
      modifies this
      ensures code == old(code)
      ensures Text(div) == code <==> !SharedStart(sorted, |sorted|)
      ensures |Text(div)| >= |code|
      ensures Styled(div) == ShownBits(sorted, |sorted|)
    {
      hide *;
      div := [];
      if |sorted| == 0 {
        NothingFound(code, sorted);
        AddBit(code, None);
      } else {
        SortKeepsMatches(code, found, sorted);
        matches := new Option<Match>[|sorted|](i requires 0 <= i < |sorted| => Some(sorted[i]));
        DropInside(sorted);
        var q := EmitMatches(sorted);
        AddBit(Substr(code, q, |code|), None);
        EmittedIs(code, sorted);
      }
      SortKeepsMatches(code, found, sorted);
      TextIsKeptIff(code, sorted);
    }
  }

  lemma NothingFound(code: string, ms: seq<Match>)
    requires ms == []
    ensures Emitted(code, ms) == [] + BitOf(code, None)
  {
    assert Cursor(ms, 0) == 0 && Substr(code, 0, |code|) == code && Bits(code, ms, 0) == [];
  }

  lemma EmittedIs(code: string, ms: seq<Match>)
    ensures Emitted(code, ms) == [] + Bits(code, ms, |ms|) + BitOf(Substr(code, Cursor(ms, |ms|), |code|), None)
  {
    hide Bits, BitOf, Substr, Cursor;
    assert [] + Bits(code, ms, |ms|) == Bits(code, ms, |ms|);
  }

  lemma BitsStart(code: string, ms: seq<Match>)
    ensures Cursor(ms, 0) == 0 && Bits(code, ms, 0) == []
  {
  }
}
