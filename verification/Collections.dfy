/** Small facts about sequences shared by the models. */
module Collections {

  datatype Option<+T> = None | Some(value: T) {
    function GetOr(default: T): T {
      if Some? then value else default
    }
  }

  ghost predicate Distinct<T>(s: seq<T>) {
    forall i, j :: 0 <= i < j < |s| ==> s[i] != s[j]
  }

  lemma Associative<T>(a: seq<T>, b: seq<T>, c: seq<T>)
    ensures a + (b + c) == (a + b) + c
  {
  }

  /** White space, as `strip` of Python and `\s` of Java have it. */
  predicate IsSpace(c: char) {
    c == ' ' || 9 <= c as int <= 13
  }

  /** The sum of the weights `f` gives to the elements of `s`. */
  ghost function Sum<T>(s: seq<T>, f: T -> nat): nat {
    if s == [] then 0 else f(s[0]) + Sum(s[1..], f)
  }

  lemma {:induction false} SumConcat<T>(a: seq<T>, b: seq<T>, f: T -> nat)
    ensures Sum(a + b, f) == Sum(a, f) + Sum(b, f)
  {
    if a == [] {
      assert a + b == b;
    } else {
      assert (a + b)[1..] == a[1..] + b;
      SumConcat(a[1..], b, f);
    }
  }

  /** Replacing one element changes the sum by the difference of the two weights. */
  lemma SumUpdate<T>(s: seq<T>, i: nat, x: T, f: T -> nat)
    requires i < |s|
    ensures Sum(s[i := x], f) + f(s[i]) == Sum(s, f) + f(x)
  {
    assert s == s[..i] + [s[i]] + s[i + 1..];
    assert s[i := x] == s[..i] + [x] + s[i + 1..];
    SumConcat(s[..i] + [s[i]], s[i + 1..], f);
    SumConcat(s[..i], [s[i]], f);
    SumConcat(s[..i] + [x], s[i + 1..], f);
    SumConcat(s[..i], [x], f);
  }

  lemma SumAppend<T>(s: seq<T>, x: T, f: T -> nat)
    ensures Sum(s + [x], f) == Sum(s, f) + f(x)
  {
    SumConcat(s, [x], f);
  }

  /** A sum of pointwise smaller weights is smaller. */
  lemma {:induction false} SumMonotone<T>(s: seq<T>, f: T -> nat, g: T -> nat)
    requires forall x :: x in s ==> f(x) <= g(x)
    ensures Sum(s, f) <= Sum(s, g)
  {
    if s != [] {
      SumMonotone(s[1..], f, g);
    }
  }

  /** Any two distinct positions contribute both their weights to the sum. */
  lemma SumTwo<T>(s: seq<T>, i: nat, j: nat, f: T -> nat)
    requires i < j < |s|
    ensures f(s[i]) + f(s[j]) <= Sum(s, f)
  {
    assert s == s[..i] + [s[i]] + s[i + 1..j] + [s[j]] + s[j + 1..];
    SumConcat(s[..i] + [s[i]] + s[i + 1..j] + [s[j]], s[j + 1..], f);
    SumConcat(s[..i] + [s[i]] + s[i + 1..j], [s[j]], f);
    SumConcat(s[..i] + [s[i]], s[i + 1..j], f);
    SumConcat(s[..i], [s[i]], f);
  }

  /** A positive sum has an element of positive weight. */
  lemma {:induction false} SumWitness<T>(s: seq<T>, f: T -> nat) returns (i: nat)
    requires Sum(s, f) > 0
    ensures i < |s| && f(s[i]) > 0
  {
    if f(s[0]) > 0 {
      i := 0;
    } else {
      i := SumWitness(s[1..], f);
      i := i + 1;
    }
  }
}
