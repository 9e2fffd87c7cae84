/** Find-first by exact name, the scan behind `findRoomByName` and `selectRoom`. */
module Search {
  import opened Wrappers

  /** The position of the first entry of `names` equal to `name`, if any. */
  function FirstIndex(names: seq<string>, name: string): (k: Option<nat>)
    ensures k.None? <==> name !in names
    ensures k.Some? ==> k.value < |names| && names[k.value] == name && name !in names[..k.value]
  {
    if names == [] then None
    else if names[0] == name then Some(0)
    else match FirstIndex(names[1..], name)
      case None => None
      case Some(j) =>
        assert names[..j + 1] == [names[0]] + names[1..][..j];
        Some(j + 1)
  }
}
