/** The pirqcon (Xen physical-IRQ context) query: a validated IRQ criterion
    and the order-preserving filter that yields the matching pirqcons.

    The criteria on the context itself (user, role, type, range) belong to
    the base context query, which is not part of this model: the query's
    context test is the parameter `matchContext`, a side-effect-free
    predicate over an opaque context type `C`. */
module Pirqcon {
  import opened Wrappers

  /** The `pirq(low, high)` pair of an IRQ criterion or of a pirqcon. */
  datatype Pirq = Pirq(low: int, high: int)

  /** A pirqcon statement of the policy: its IRQ pair and its context. */
  datatype Pirqcon<C> = Pirqcon(irq: Pirq, context: C)

  /** The ValueError raised by the `irq` setter, with the rejected pair. */
  datatype IrqError = IrqNotPositive(pending: Pirq)

  /** Python truthiness of an integer. */
  predicate Truthy(n: int) { n != 0 }

  /** What the setter ever lets into the `_irq` field: unset, or a pair
      whose low bound is at least 1 and whose high bound is non-zero.
      Neither `high >= 1` nor `low <= high` is part of it. */
  predicate IrqCriterionOk(irq: Option<Pirq>)
  {
    irq.Some? ==> irq.value.low >= 1 && irq.value.high != 0
  }

  /** The two tests of the results loop: the IRQ pair equals a set
      criterion, and the context satisfies the context criteria. */
  predicate Passes<C>(irq: Option<Pirq>, matchContext: C -> bool, p: Pirqcon<C>)
  {
    (irq.None? || irq.value == p.irq) && matchContext(p.context)
  }

  /** The pirqcons the query yields, in the policy's order. */
  function Selected<C>(irq: Option<Pirq>, matchContext: C -> bool, pcs: seq<Pirqcon<C>>): seq<Pirqcon<C>>
  {
    if pcs == [] then []
    else (if Passes(irq, matchContext, pcs[0]) then [pcs[0]] else [])
         + Selected(irq, matchContext, pcs[1..])
  }

  /** `r` can be obtained from `s` by deleting elements, keeping the order. */
  ghost predicate IsSubsequence<T>(r: seq<T>, s: seq<T>)
  {
    if r == [] then true
    else if s == [] then false
    else if r[0] == s[0] then IsSubsequence(r[1..], s[1..])
    else IsSubsequence(r, s[1..])
  }

  /** Filtering a concatenation filters each part: this is what lets the
      results loop extend its output one pirqcon at a time. */
  lemma {:induction false} SelectedAppend<C>(irq: Option<Pirq>, matchContext: C -> bool,
                                             a: seq<Pirqcon<C>>, b: seq<Pirqcon<C>>)
    ensures Selected(irq, matchContext, a + b)
            == Selected(irq, matchContext, a) + Selected(irq, matchContext, b)
  {
    if a == [] {
      assert a + b == b;
    } else {
      var head := if Passes(irq, matchContext, a[0]) then [a[0]] else [];
      var ab := a + b;
      assert ab != [] && ab[0] == a[0] && ab[1..] == a[1..] + b;
      assert Selected(irq, matchContext, ab) == head + Selected(irq, matchContext, a[1..] + b);
      SelectedAppend(irq, matchContext, a[1..], b);
      assert Selected(irq, matchContext, a) == head + Selected(irq, matchContext, a[1..]);
    }
  }

  /** Every yielded pirqcon carries the IRQ criterion, when one is set,
      and its context satisfies the context criteria. */
  lemma {:induction false} SelectedSound<C>(irq: Option<Pirq>, matchContext: C -> bool,
                                            pcs: seq<Pirqcon<C>>)
    ensures forall p :: p in Selected(irq, matchContext, pcs) ==>
              (irq.Some? ==> p.irq == irq.value) && matchContext(p.context)
  {
    if pcs != [] {
      SelectedSound(irq, matchContext, pcs[1..]);
    }
  }

  /** The output keeps exactly the pirqcons passing both tests, each as
      many times as the policy lists it, and drops every other one. */
  lemma {:induction false} SelectedCounts<C>(irq: Option<Pirq>, matchContext: C -> bool,
                                             pcs: seq<Pirqcon<C>>)
    ensures forall p :: multiset(Selected(irq, matchContext, pcs))[p]
              == if Passes(irq, matchContext, p) then multiset(pcs)[p] else 0
  {
    if pcs != [] {
      SelectedCounts(irq, matchContext, pcs[1..]);
      assert pcs == [pcs[0]] + pcs[1..];
    }
  }

  /** The output is a subsequence of the policy's pirqcons, in their order. */
  lemma {:induction false} SelectedIsSubsequence<C>(irq: Option<Pirq>, matchContext: C -> bool,
                                                    pcs: seq<Pirqcon<C>>)
    ensures IsSubsequence(Selected(irq, matchContext, pcs), pcs)
  {
    if pcs != [] {
      var rest := Selected(irq, matchContext, pcs[1..]);
      SelectedIsSubsequence(irq, matchContext, pcs[1..]);
      if Passes(irq, matchContext, pcs[0]) {
        var r := Selected(irq, matchContext, pcs);
        assert r == [pcs[0]] + rest;
        assert r[0] == pcs[0] && r[1..] == rest;
      } else if rest != [] {
        assert Selected(irq, matchContext, pcs) == rest;
        SelectedSound(irq, matchContext, pcs[1..]);
        assert rest[0] in rest;
        assert rest[0] != pcs[0];
      }
    }
  }

  /** With no IRQ criterion and a context test that always holds, the query
      yields every pirqcon of the policy, once each, in the policy's order. */
  lemma {:induction false} SelectedWildcard<C>(matchContext: C -> bool, pcs: seq<Pirqcon<C>>)
    requires forall c :: matchContext(c)
    ensures Selected(None, matchContext, pcs) == pcs
  {
    if pcs != [] {
      SelectedWildcard(matchContext, pcs[1..]);
    }
  }

  /** A query over the policy's pirqcons; `irq` is the `_irq` field. */
  class PirqconQuery<C> {
    var irq: Option<Pirq>

    /** The invariant the `irq` setter keeps. */
    ghost predicate Valid()
      reads this
    {
      IrqCriterionOk(irq)
    }

    /** A fresh query has no IRQ criterion (the class-level `_irq = None`). */
    constructor ()
      ensures Valid() && irq == None
    {
      irq := None;
    }

    /** The `irq` setter, given the pair `(low, high)`. When both are
        non-zero it rejects `low < 1`, leaving the criterion as it was, and
        otherwise stores the pair; when either is zero it clears the
        criterion, even for `(0, 5)`. */
    method SetIrq(low: int, high: int) returns (outcome: Outcome<IrqError>)
      requires Valid()
      modifies this
      ensures Valid()
      ensures Truthy(low) && Truthy(high) && low < 1 ==>
                outcome == Fail(IrqNotPositive(Pirq(low, high))) && irq == old(irq)
      ensures Truthy(low) && Truthy(high) && low >= 1 ==>
                outcome == Pass && irq == Some(Pirq(low, high))
      ensures !(Truthy(low) && Truthy(high)) ==> outcome == Pass && irq == None
    {
      var pending := Pirq(low, high);
      if Truthy(pending.low) && Truthy(pending.high) {
        if pending.low < 1 {
          return Fail(IrqNotPositive(pending));
        }
        irq := Some(pending);
      } else {
        irq := None;
      }
      outcome := Pass;
    }

    /** The `results` generator, run to completion over `pirqcons`: the
        pirqcons whose IRQ pair equals a set criterion and whose context
        passes `matchContext`, in the policy's order. It changes nothing,
        so calling it again with the same criteria gives the same sequence. */
    method Results(pirqcons: seq<Pirqcon<C>>, matchContext: C -> bool) returns (r: seq<Pirqcon<C>>)
      ensures r == Selected(irq, matchContext, pirqcons)
      ensures IsSubsequence(r, pirqcons)
      ensures forall p :: p in r ==> (irq.Some? ==> p.irq == irq.value) && matchContext(p.context)
    {
      r := [];
      for i := 0 to |pirqcons|
        invariant r == Selected(irq, matchContext, pirqcons[..i])
      {
        var pirqcon := pirqcons[i];
        assert pirqcons[..i + 1] == pirqcons[..i] + [pirqcon];
        SelectedAppend(irq, matchContext, pirqcons[..i], [pirqcon]);
        assert [pirqcon][1..] == [];
        if irq.Some? && irq.value != pirqcon.irq {
          continue;
        }
        if !matchContext(pirqcon.context) {
          continue;
        }
        r := r + [pirqcon];
      }
      assert pirqcons[..|pirqcons|] == pirqcons;
      SelectedIsSubsequence(irq, matchContext, pirqcons);
      SelectedSound(irq, matchContext, pirqcons);
    }
  }
}
