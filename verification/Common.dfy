/** Small vocabulary shared by the models. */
module Common {

  datatype Option<+T> = None | Some(value: T)

  /** How one file operation ends. A crash kills the process; the disk stays as the operation left it. */
  datatype Outcome = Done | Failed | Crashed

  /** How a call ends. `RollbackBroken`: an undo operation itself failed. */
  datatype Exit = Returned | Threw | RollbackBroken | Died

  /** The pieces, one after another. */
  function Joined<T>(pieces: seq<seq<T>>): seq<T> {
    if pieces == [] then [] else pieces[0] + Joined(pieces[1..])
  }

  lemma {:induction false} JoinedSnoc<T>(pieces: seq<seq<T>>, last: seq<T>)
    ensures Joined(pieces + [last]) == Joined(pieces) + last
  {
    if pieces == [] {
      assert ([last])[1..] == [] && [] + [last] == [last];
      assert last + [] == last;
    } else {
      assert (pieces + [last])[1..] == pieces[1..] + [last];
      JoinedSnoc(pieces[1..], last);
    }
  }

  predicate NoRepeats<T(==)>(items: seq<T>) {
    forall i, j :: 0 <= i < j < |items| ==> items[i] != items[j]
  }
}
