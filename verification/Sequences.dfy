/** Option and the few facts about sequences that several modules share. */
module Sequences {
  datatype Option<+T> = None | Some(value: T)

  function Last<T>(s: seq<T>): T
    requires s != []
  {
    s[|s| - 1]
  }

  /** All the elements of the inner sequences, in order. */
  function Flatten<T>(ss: seq<seq<T>>): seq<T> {
    if ss == [] then [] else ss[0] + Flatten(ss[1..])
  }

  lemma {:induction false} FlattenAppend<T>(ss: seq<seq<T>>, tt: seq<seq<T>>)
    ensures Flatten(ss + tt) == Flatten(ss) + Flatten(tt)
  {
    if ss == [] {
      assert ss + tt == tt;
    } else {
      assert (ss + tt)[1..] == ss[1..] + tt;
      FlattenAppend(ss[1..], tt);
    }
  }

  lemma FlattenOne<T>(s: seq<T>)
    ensures Flatten([s]) == s
  {
    assert Flatten([s]) == s + Flatten([]);
  }

  lemma FrontAndLast<T>(s: seq<T>)
    requires s != []
    ensures s[..|s| - 1] + [Last(s)] == s
  {}

  lemma Associative<T>(a: seq<T>, b: seq<T>, c: seq<T>)
    ensures a + b + c == a + (b + c)
  {}

  lemma NothingBetween<T>(a: seq<T>, b: seq<T>, c: seq<T>)
    ensures a + c == a + b + c <==> b == []
  {
    assert |a + b + c| == |a + c| + |b|;
    assert b == [] ==> a + b == a;
  }

  /** Elements that move across the boundaries between parts stay in the whole. */
  lemma Regroup<T>(a: seq<T>, b: seq<T>, c: seq<T>, d: seq<T>, c': seq<T>, d': seq<T>)
    requires b + c + d == c' + d'
    ensures a + b + c + d == a + c' + d'
  {
    assert a + b + c + d == a + (b + c + d);
    assert a + c' + d' == a + (c' + d');
  }
}
