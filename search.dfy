/**
 * The search the algebra classes run over their element sets: `for e in elements: if p(e): return e`
 * followed by a fall-through. The sequence is the order in which the set is iterated.
 */
module Search {
  import opened Wrappers

  /** The first element of xs that satisfies p, or None when there is none. */
  function First(xs: seq<int>, p: int -> bool): (r: Option<int>)
    ensures r.Some? ==> r.value in xs && p(r.value)
    ensures r.None? ==> forall x :: x in xs ==> !p(x)
  {
    if |xs| == 0 then None
    else if p(xs[0]) then Some(xs[0])
    else
      var rest := First(xs[1..], p);
      assert forall x :: x in xs ==> x == xs[0] || x in xs[1..];
      rest
  }

  /** The answer of First is the first match: every element listed before it fails p. */
  lemma {:induction false} FirstIsFirst(xs: seq<int>, p: int -> bool)
    requires First(xs, p).Some?
    ensures exists i :: 0 <= i < |xs| && xs[i] == First(xs, p).value && forall j :: 0 <= j < i ==> !p(xs[j])
  {
    if !p(xs[0]) {
      FirstIsFirst(xs[1..], p);
      var i :| 0 <= i < |xs[1..]| && xs[1..][i] == First(xs[1..], p).value && forall j :: 0 <= j < i ==> !p(xs[1..][j]);
      assert xs[i + 1] == First(xs, p).value;
      assert forall j :: 0 <= j < i + 1 ==> !p(xs[j]) by {
        forall j | 0 <= j < i + 1
          ensures !p(xs[j])
        {
          if j > 0 {
            assert xs[j] == xs[1..][j - 1];
          }
        }
      }
    } else {
      assert xs[0] == First(xs, p).value;
    }
  }

  /** A loop that returns False at the first element failing p and True after the last one. */
  function All(xs: seq<int>, p: int -> bool): (r: bool)
    ensures r <==> forall x :: x in xs ==> p(x)
  {
    if |xs| == 0 then true
    else if !p(xs[0]) then
      var head := xs[0];
      assert head in xs && !p(head) ==> !(forall x :: x in xs ==> p(x));
      false
    else
      var rest := All(xs[1..], p);
      assert forall x :: x in xs ==> x == xs[0] || x in xs[1..];
      rest
  }
}
