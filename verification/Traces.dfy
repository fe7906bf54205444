/** Runs seen as sequences of moves: which of them are one participant's own. */
module Traces {
  /** The positions of the moves that are mine, first to last. */
  function Places<M>(moves: seq<M>, mine: M -> bool): (ps: seq<nat>)
    ensures forall k | 0 <= k < |ps| :: ps[k] < |moves| && mine(moves[ps[k]])
    ensures forall j, k | 0 <= j < k < |ps| :: ps[j] < ps[k]
    ensures forall p | 0 <= p < |moves| && mine(moves[p]) :: p in ps
  {
    if moves == [] then []
    else
      var last := |moves| - 1;
      var ps := Places(moves[..last], mine);
      assert forall p | 0 <= p < last && mine(moves[p]) :: moves[..last][p] == moves[p] && p in ps;
      if mine(moves[last]) then ps + [last] else ps
  }

  lemma PlacesSnoc<M>(moves: seq<M>, m: M, mine: M -> bool)
    ensures Places(moves + [m], mine) == Places(moves, mine) + if mine(m) then [|moves|] else []
  {
    assert (moves + [m])[..|moves|] == moves;
  }
}
