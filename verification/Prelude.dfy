/** Small shared vocabulary: optional values, outcomes of a service call, and the
    query idioms of the object-relational layer. */
module Prelude {

  datatype Option<+T> = None | Some(value: T)

  datatype Result<+T, +E> = Ok(value: T) | Err(error: E)

  /** A set of primary keys has a least element. */
  lemma LeastExists(ids: set<nat>)
    requires ids != {}
    ensures exists least :: least in ids && forall x :: x in ids ==> least <= x
  {
    var pick :| pick in ids;
    var rest := ids - {pick};
    if rest != {} {
      LeastExists(rest);
      var low :| low in rest && forall x :: x in rest ==> low <= x;
      var least := if pick <= low then pick else low;
      assert forall x :: x in ids ==> x == pick || x in rest;
      assert least in ids && forall x :: x in ids ==> least <= x;
    } else {
      assert ids == {pick};
    }
  }

  /** `queryset.first()` without an explicit ordering: the row with the least primary key. */
  function First(ids: set<nat>): (r: Option<nat>)
    ensures r.None? <==> ids == {}
    ensures r.Some? ==> r.value in ids && forall x :: x in ids ==> r.value <= x
  {
    if ids == {} then None
    else
      LeastExists(ids);
      var least :| least in ids && forall x :: x in ids ==> least <= x;
      Some(least)
  }
}
