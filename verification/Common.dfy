/** What several of the models use. */
module Common {

  datatype Option<+T> = None | Some(value: T)

  predicate Distinct<T(==)>(s: seq<T>) {
    forall i, j :: 0 <= i < j < |s| ==> s[i] != s[j]
  }

  /** How often x stands in s. */
  function Times(s: seq<int>, x: int): nat {
    if s == [] then 0 else Times(s[..|s| - 1], x) + (if s[|s| - 1] == x then 1 else 0)
  }

  lemma {:induction false} TimesAppend(a: seq<int>, b: seq<int>, x: int)
    ensures Times(a + b, x) == Times(a, x) + Times(b, x)
  {
    if b == [] {
      assert a + b == a;
    } else {
      TimesAppend(a, b[..|b| - 1], x);
      assert (a + b)[..|a + b| - 1] == a + b[..|b| - 1];
    }
  }

  lemma {:induction false} TimesNone(s: seq<int>, x: int)
    requires x !in s
    ensures Times(s, x) == 0
  {
    if s != [] {
      TimesNone(s[..|s| - 1], x);
    }
  }

  lemma {:induction false} TimesSome(s: seq<int>, x: int)
    requires x in s
    ensures Times(s, x) > 0
  {
    if s[|s| - 1] != x {
      TimesSome(s[..|s| - 1], x);
    }
  }

  lemma TimesOne(s: seq<int>, last: int, x: int)
    ensures Times(s + [last], x) == Times(s, x) + (if x == last then 1 else 0)
  {
    assert (s + [last])[..|s|] == s;
  }
}
