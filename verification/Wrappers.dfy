/** What every component shares. */
module Wrappers {
  datatype Option<+T> = None | Some(value: T)

  /** A number above every one taken. */
  ghost function Unused(taken: set<nat>): (h: nat)
    ensures forall t | t in taken :: t < h
    decreases taken
  {
    if taken == {} then 0
    else
      var t :| t in taken;
      var h := Unused(taken - {t});
      assert forall u | u in taken :: u == t || u in taken - {t};
      if t < h then h else t + 1
  }
}
