/**
 The Gauss-Seidel sweep shared by both passes of `solve_group`: the elements
 are visited in array order and one velocity accumulator is threaded through
 every update, so each element sees the velocity its predecessor left.
 */
module Sweep {

  /** What one update produces: the updated value and the velocity after it. */
  datatype Step<T, V> = Step(value: T, vel: V)

  /** What a whole sweep produces: the updated array and the final velocity. */
  datatype Swept<E, V> = Swept(elements: seq<E>, vel: V)

  /** `for element in elements.iter_mut() { step(element, vel) }` as a left
      fold: the first element is updated first, against the incoming velocity. */
  function Run<E, V>(es: seq<E>, vel: V, step: (E, V) -> Step<E, V>): (r: Swept<E, V>)
    ensures |r.elements| == |es|
    decreases |es|
  {
    if |es| == 0 then Swept([], vel)
    else
      var s := step(es[0], vel);
      var rest := Run(es[1..], s.vel, step);
      Swept([s.value] + rest.elements, rest.vel)
  }

  /** Sweeping `a + b` is sweeping `a`, then sweeping `b` from the velocity
      `a` left behind. */
  lemma {:induction false} RunAppend<E, V>(a: seq<E>, b: seq<E>, vel: V, step: (E, V) -> Step<E, V>)
    ensures var ra := Run(a, vel, step);
            var rb := Run(b, ra.vel, step);
            Run(a + b, vel, step) == Swept(ra.elements + rb.elements, rb.vel)
    decreases |a|
  {
    if |a| == 0 {
      assert a + b == b;
    } else {
      var s := step(a[0], vel);
      assert (a + b)[0] == a[0];
      assert (a + b)[1..] == a[1..] + b;
      RunAppend(a[1..], b, s.vel, step);
      var r1 := Run(a[1..], s.vel, step);
      var rb := Run(b, r1.vel, step);
      assert [s.value] + (r1.elements + rb.elements) == ([s.value] + r1.elements) + rb.elements;
    }
  }

  /** Strict array order: element `i` of the result is the update of `es[i]`
      against exactly the velocity left by the sweep of `es[..i]`. */
  lemma {:induction false} RunInOrder<E, V>(es: seq<E>, vel: V, step: (E, V) -> Step<E, V>, i: int)
    requires 0 <= i < |es|
    ensures Run(es, vel, step).elements[i] == step(es[i], Run(es[..i], vel, step).vel).value
  {
    var pre := Run(es[..i], vel, step);
    var post := Run(es[i..], pre.vel, step);
    assert es == es[..i] + es[i..];
    RunAppend(es[..i], es[i..], vel, step);
    assert Run(es, vel, step).elements == pre.elements + post.elements;
    assert Run(es, vel, step).elements[i] == post.elements[0];
    assert es[i..][0] == es[i];
  }

  /** The sweep as an imperative loop that appends each updated element, with
      the invariant that what has been visited so far is exactly the sweep of
      that prefix. */
  method RunLoop<E, V>(es: seq<E>, vel: V, step: (E, V) -> Step<E, V>) returns (out: seq<E>, v: V)
    ensures Swept(out, v) == Run(es, vel, step)
  {
    out := [];
    v := vel;
    var i := 0;
    while i < |es|
      invariant 0 <= i <= |es|
      invariant Swept(out, v) == Run(es[..i], vel, step)
    {
      var s := step(es[i], v);
      assert es[..i + 1] == es[..i] + [es[i]];
      RunAppend(es[..i], [es[i]], vel, step);
      assert [es[i]][1..] == [];
      out := out + [s.value];
      v := s.vel;
      i := i + 1;
    }
    assert es[..|es|] == es;
  }

  /** `f` applied to every element, in order. */
  function Map<E, F>(es: seq<E>, f: E -> F): (r: seq<F>)
    ensures |r| == |es|
    ensures forall i :: 0 <= i < |es| ==> r[i] == f(es[i])
  {
    seq(|es|, i requires 0 <= i < |es| => f(es[i]))
  }

  /** A sweep commutes with a translation `f` of elements and `g` of
      velocities when every single update does, on the elements `ok` admits. */
  lemma {:induction false} RunCommutes<E, F, V, W>(es: seq<E>, vel: V, step: (E, V) -> Step<E, V>,
                                                   lift: (F, W) -> Step<F, W>, f: E -> F, g: V -> W, ok: E -> bool)
    requires forall i :: 0 <= i < |es| ==> ok(es[i])
    requires forall e, v :: ok(e) ==> lift(f(e), g(v)) == Step(f(step(e, v).value), g(step(e, v).vel))
    ensures var r := Run(es, vel, step);
            Run(Map(es, f), g(vel), lift) == Swept(Map(r.elements, f), g(r.vel))
    decreases |es|
  {
    if |es| > 0 {
      var s := step(es[0], vel);
      var rest := Run(es[1..], s.vel, step);
      assert ok(es[0]);
      RunCommutes(es[1..], s.vel, step, lift, f, g, ok);
      assert Map(es, f)[1..] == Map(es[1..], f);
      assert Map([s.value] + rest.elements, f) == [f(s.value)] + Map(rest.elements, f);
    }
  }
}
