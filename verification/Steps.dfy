/** Picking one party's steps out of a run. */
module Steps {
  function Chosen<L>(ls: seq<L>, mine: L -> bool): seq<L> {
    if ls == [] then [] else Chosen(ls[..|ls| - 1], mine) + (if mine(ls[|ls| - 1]) then [ls[|ls| - 1]] else [])
  }

  lemma ChosenAppend<L>(ls: seq<L>, l: L, mine: L -> bool)
    ensures Chosen(ls + [l], mine) == Chosen(ls, mine) + (if mine(l) then [l] else [])
  {
    assert (ls + [l])[..|ls|] == ls;
  }

  lemma {:induction false} ChosenJoin<L>(a: seq<L>, b: seq<L>, mine: L -> bool)
    ensures Chosen(a + b, mine) == Chosen(a, mine) + Chosen(b, mine)
  {
    if b == [] {
      assert a + b == a;
    } else {
      assert (a + b)[..|a + b| - 1] == a + b[..|b| - 1];
      ChosenJoin(a, b[..|b| - 1], mine);
    }
  }
}
