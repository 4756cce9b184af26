/** Sequences of operations that each need something of the state the earlier ones leave. */
module Chains {
  function After<H, O>(step: (H, O) -> H, h: H, ops: seq<O>): H
    decreases |ops|, h
  {
    if |ops| == 0 then h else After(step, step(h, ops[0]), ops[1..])
  }

  ghost predicate Safe<H(!new), O(!new)>(safe: (H, O) -> bool, step: (H, O) -> H, h: H, ops: seq<O>)
    decreases |ops|, h
  {
    |ops| == 0 || (safe(h, ops[0]) && Safe(safe, step, step(h, ops[0]), ops[1..]))
  }

  lemma {:induction false} SafeConcat<H(!new), O(!new)>(safe: (H, O) -> bool, step: (H, O) -> H, h: H, a: seq<O>, b: seq<O>)
    requires Safe(safe, step, h, a) && Safe(safe, step, After(step, h, a), b)
    ensures Safe(safe, step, h, a + b)
    ensures After(step, h, a + b) == After(step, After(step, h, a), b)
    decreases |a|
  {
    if |a| == 0 {
      assert a + b == b;
    } else {
      assert (a + b)[0] == a[0] && (a + b)[1..] == a[1..] + b;
      SafeConcat(safe, step, step(h, a[0]), a[1..], b);
    }
  }

  lemma {:induction false} SafePair<H(!new), O(!new)>(safe: (H, O) -> bool, step: (H, O) -> H, h: H, a: O, b: O)
    requires safe(h, a) && safe(step(h, a), b)
    ensures Safe(safe, step, h, [a, b]) && After(step, h, [a, b]) == step(step(h, a), b)
  {
    var ops := [a, b];
    assert ops[1..] == [b] && [b][1..] == [];
    assert After(step, step(h, a), [b]) == step(step(h, a), b);
  }

  // A relation that every step extends holds between start and end.
  lemma {:induction false} AfterRelated<H(!new), O(!new)>(rel: (H, H) -> bool, step: (H, O) -> H, h: H, ops: seq<O>)
    requires forall a :: rel(a, a)
    requires forall a, b, op :: rel(a, b) ==> rel(a, step(b, op))
    ensures rel(h, After(step, h, ops))
  {
    AfterRelatedFrom(rel, step, h, h, ops);
  }

  lemma {:induction false} AfterRelatedFrom<H(!new), O(!new)>(rel: (H, H) -> bool, step: (H, O) -> H, h0: H, h: H, ops: seq<O>)
    requires rel(h0, h)
    requires forall a, b, op :: rel(a, b) ==> rel(a, step(b, op))
    ensures rel(h0, After(step, h, ops))
    decreases |ops|
  {
    if |ops| > 0 {
      AfterRelatedFrom(rel, step, h0, step(h, ops[0]), ops[1..]);
    }
  }

  // Chains that are safe from one state are safe from any later state.
  lemma {:induction false} SafeMonotone<H(!new), O(!new)>(
    rel: (H, H) -> bool, safe: (H, O) -> bool, step: (H, O) -> H, h: H, g: H, ops: seq<O>)
    requires rel(h, g)
    requires forall a, b, op :: rel(a, b) ==> rel(step(a, op), step(b, op)) && (safe(a, op) ==> safe(b, op))
    ensures Safe(safe, step, h, ops) ==> Safe(safe, step, g, ops)
    ensures rel(After(step, h, ops), After(step, g, ops))
    decreases |ops|
  {
    if |ops| > 0 {
      SafeMonotone(rel, safe, step, step(h, ops[0]), step(g, ops[0]), ops[1..]);
    }
  }
}
