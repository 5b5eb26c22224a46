/** An expense policy as the extraction service returns it and the two
    extraction pages edit it. */
module Policies {
  import opened Basics

  /** `confidence` is in hundredths (0.9 is 90); the three keys are absent
      when the extraction did not find them. */
  datatype Policy = Policy(
    id: string,
    text: string,
    country: Option<string>,
    expenseType: Option<string>,
    seniority: Option<string>,
    confidence: int,
    approved: bool)

  /** `findIndex(p => p.id === id)`, with `None` for -1. */
  function FindPolicy(ps: seq<Policy>, id: string): (r: Option<nat>)
    ensures r.None? <==> forall i :: 0 <= i < |ps| ==> ps[i].id != id
    ensures r.Some? ==> r.value < |ps| && ps[r.value].id == id && forall i :: 0 <= i < r.value ==> ps[i].id != id
  {
    if ps == [] then None
    else if ps[0].id == id then Some(0)
    else
      match FindPolicy(ps[1..], id)
      case None => None
      case Some(i) => Some(i + 1)
  }
}
