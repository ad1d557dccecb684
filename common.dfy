/** Values shared by every part of the model: optional values, results with an
    error, the first-match search behind the store's `FirstOrDefault` queries,
    GUIDs and timestamps. */
module Common {

  datatype Option<+T> = None | Some(value: T) {
    function GetOr(default: T): T {
      match this
      case Some(v) => v
      case None => default
    }
  }

  /** An operation that either completes with a value or throws an error. */
  datatype Result<+T, +E> = Ok(value: T) | Err(error: E)

  /** A GUID, held as its canonical textual form (what `Guid.ToString()` yields). */
  datatype Guid = Guid(text: string)

  /** A UTC instant, in whole seconds. */
  type Time = int

  const SecondsPerMinute: int := 60
  const SecondsPerDay: int := 86400

  /** The index of the first element satisfying `p`, as `FirstOrDefault` over a
      table returns the first matching row. */
  function First<T>(s: seq<T>, p: T -> bool): (r: Option<nat>)
    ensures r.Some? ==> r.value < |s| && p(s[r.value])
    ensures r.Some? ==> forall j :: 0 <= j < r.value ==> !p(s[j])
    ensures r.None? <==> forall j :: 0 <= j < |s| ==> !p(s[j])
    decreases |s|
  {
    if |s| == 0 then None
    else if p(s[0]) then Some(0)
    else
      match First(s[1..], p)
      case None => None
      case Some(k) => Some(k + 1)
  }

  /** `First` finds exactly the index that is the earliest match. */
  lemma FirstAt<T>(s: seq<T>, p: T -> bool, k: nat)
    requires k < |s| && p(s[k])
    requires forall j :: 0 <= j < k ==> !p(s[j])
    ensures First(s, p) == Some(k)
  {
  }

  /** Sequences that agree on `p` everywhere have the same first match. */
  lemma {:induction false} FirstSame<T>(s: seq<T>, t: seq<T>, p: T -> bool)
    requires |s| == |t|
    requires forall i :: 0 <= i < |s| ==> p(s[i]) == p(t[i])
    ensures First(s, p) == First(t, p)
  {
    if |s| > 0 && !p(s[0]) {
      FirstSame(s[1..], t[1..], p);
    }
  }
}
