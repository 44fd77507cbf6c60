/** Values shared by the Studio components: optional values, the outcome of a
    fetch from a sports-federation endpoint, and the three supported sports. */
module Common {

  datatype Option<+T> = None | Some(value: T) {
    function GetOr(default: T): T {
      match this
      case Some(v) => v
      case None => default
    }
  }

  /** What a component receives from one fetch of a list endpoint: either the
      request failed (a non-OK status or an exception), or it succeeded and the
      response's `data.<field>` list was present or absent. */
  datatype FetchResult<+T> = Failed | Loaded(payload: Option<seq<T>>)

  /** The list a successful fetch yields: an absent `data.<field>` is the empty list. */
  function LoadedList<T>(payload: Option<seq<T>>): (r: seq<T>)
    ensures payload.None? ==> r == []
    ensures payload.Some? ==> r == payload.value
  {
    payload.GetOr([])
  }

  datatype Sport = Unihockey | Volleyball | Handball

  /** The label a sport is shown with in the Studio title. */
  function SportLabel(s: Sport): string {
    match s
    case Unihockey => "Unihockey"
    case Volleyball => "Volleyball"
    case Handball => "Handball"
  }

  predicate NoDuplicates<T(==)>(s: seq<T>) {
    forall i, j :: 0 <= i < j < |s| ==> s[i] != s[j]
  }
}
