/** The last item of a list with a property: the one whose word counts when items replace each other. */
module Latest {

  /** The position of the last item with the property, or -1. */
  ghost function LastWhere<T>(items: seq<T>, about: T -> bool): (i: int)
    ensures -1 <= i < |items| && (i >= 0 ==> about(items[i]))
    ensures forall j :: i < j < |items| ==> !about(items[j])
  {
    if items == [] then -1
    else if about(items[|items| - 1]) then |items| - 1
    else LastWhere(items[..|items| - 1], about)
  }
}
