/** The fixed table of six tracker slots: head 0, left hand 1, right hand 2, hip 3,
    left foot 4, right foot 5. */
module Trackers {
  import opened Wrappers

  const NumTrackers: nat := 6

  /** The slot a tracker name selects: the first tag equal to the name, as a chain of
      string comparisons tried in slot order finds it; None for a name in no slot. */
  function SlotOf(name: string, tags: seq<string>): (slot: Option<nat>)
    ensures slot.Some? ==> slot.value < |tags| && tags[slot.value] == name
    ensures slot.Some? ==> forall j :: 0 <= j < slot.value ==> tags[j] != name
    ensures slot.None? <==> name !in tags
  {
    if |tags| == 0 then None
    else if tags[0] == name then Some(0)
    else match SlotOf(name, tags[1..])
      case None => None
      case Some(k) => Some(k + 1)
  }
}
