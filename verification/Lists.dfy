/** Rearranging sequences. */
module Lists {

  // Any member can be moved to the front.
  lemma {:induction false} MoveToFront<T>(s: seq<T>, x: T) returns (moved: seq<T>)
    requires x in s
    ensures moved != [] && moved[0] == x && multiset(moved) == multiset(s)
  {
    if s[0] == x {
      moved := s;
    } else {
      var rest := MoveToFront(s[1..], x);
      moved := [x, s[0]] + rest[1..];
      assert s == [s[0]] + s[1..] && rest == [x] + rest[1..];
    }
  }

  // Or to the back.
  lemma {:induction false} MoveToBack<T>(s: seq<T>, x: T) returns (moved: seq<T>)
    requires x in s
    ensures moved != [] && moved[|moved| - 1] == x && multiset(moved) == multiset(s)
  {
    var front := MoveToFront(s, x);
    moved := front[1..] + [x];
    assert front == [x] + front[1..];
  }

  lemma SameMembers<T>(a: seq<T>, b: seq<T>)
    requires multiset(a) == multiset(b)
    ensures forall x :: x in a <==> x in b
  {
    forall x ensures x in a <==> x in b {
      assert x in a <==> x in multiset(a);
      assert x in b <==> x in multiset(b);
    }
  }
}
