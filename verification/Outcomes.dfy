/** Absence and failure, shared by every component model. */
module Outcomes {

  datatype Option<+T> = None | Some(value: T) {
    function GetOr(default: T): T {
      if Some? then value else default
    }
  }

  datatype Result<+T, +E> = Ok(value: T) | Err(error: E)
}

module Sequences {
  import opened Outcomes

  function Map<A, B>(f: A -> B, s: seq<A>): (r: seq<B>)
    ensures |r| == |s| && forall i | 0 <= i < |s| :: r[i] == f(s[i])
  {
    seq(|s|, i requires 0 <= i < |s| => f(s[i]))
  }

  /** The sequence when the element at index k is taken out. */
  function Without<A>(s: seq<A>, k: nat): seq<A>
    requires k < |s|
  {
    s[..k] + s[k + 1..]
  }

  /** The last element of a concatenation, and what comes before it. */
  lemma LastOf<A>(a: seq<A>, b: seq<A>)
    requires b != []
    ensures var all := a + b;
            all != [] && all[..|all| - 1] == a + b[..|b| - 1] && all[|all| - 1] == b[|b| - 1]
  {
  }

  /** The values that are there, in order. */
  function Present<A>(vs: seq<Option<A>>): seq<A> {
    if vs == [] then []
    else Present(vs[..|vs| - 1]) + if vs[|vs| - 1].Some? then [vs[|vs| - 1].value] else []
  }

  /** Nothing is dropped but absences, and nothing is reordered. */
  lemma {:induction false} PresentIs<A>(vs: seq<Option<A>>, all: seq<A>)
    requires |vs| == |all| && forall i | 0 <= i < |vs| :: vs[i] == Some(all[i])
    ensures Present(vs) == all
  {
    if vs != [] {
      var n := |vs| - 1;
      PresentIs(vs[..n], all[..n]);
      assert all == all[..n] + [all[n]];
    }
  }

  lemma {:induction false} PresentAppend<A>(a: seq<Option<A>>, b: seq<Option<A>>)
    ensures Present(a + b) == Present(a) + Present(b)
  {
    if b == [] {
      assert a + b == a;
    } else {
      var n := |b| - 1;
      PresentAppend(a, b[..n]);
      assert (a + b)[..|a + b| - 1] == a + b[..n];
    }
  }
}
