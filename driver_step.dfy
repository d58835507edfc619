/**
 * Tutorial steps: each `DriverStep` registers its step in a sparse list at its
 * own index.
 */
module DriverStep {
  import opened Wrappers

  /** A mounted DOM node, kept opaque. */
  datatype ElementRef = ElementRef(id: nat)

  /** The popover shown for a step. */
  datatype Popover = Popover(title: string, description: string, side: string)

  /** The driver.js step stored in the list: the remaining props and, when mounted, the element. */
  datatype Step = Step(driverKey: string, popover: Popover, element: Option<ElementRef>)

  /** The component's props; `stepIndex`, `className` and `children` are used, not stored. */
  datatype StepProps = StepProps(stepIndex: nat, className: string, children: seq<ElementRef>, driverKey: string, popover: Popover)

  /** `{ ...driverStepProps, ...(refStep.current ? { element } : {}) }`. */
  function StoredStep(props: StepProps, node: Option<ElementRef>): (s: Step)
    ensures s.element == node
    ensures s.driverKey == props.driverKey && s.popover == props.popover
  {
    Step(props.driverKey, props.popover, node)
  }

  /** The list after `newSteps[k] = s`: grown to k+1 with empty slots when k is past the end. */
  function Placed(prev: seq<Option<Step>>, k: nat, s: Step): seq<Option<Step>>
  {
    var n := if k < |prev| then |prev| else k + 1;
    seq(n, i requires 0 <= i < n => if i == k then Some(s) else if i < |prev| then prev[i] else None)
  }

  /**
   * The `setSteps` updater: copy the previous array into a new one, then
   * assign the slot. The previous array is only read.
   */
  method Register(prev: array<Option<Step>>, k: nat, s: Step) returns (next: array<Option<Step>>)
    ensures fresh(next)
    ensures next[..] == Placed(prev[..], k, s)
  {
    var n := if k < prev.Length then prev.Length else k + 1;
    next := new Option<Step>[n](_ => None);
    var i := 0;
    while i < prev.Length
      invariant 0 <= i <= prev.Length
      invariant forall j :: 0 <= j < i ==> next[j] == prev[j]
      invariant forall j :: i <= j < n ==> next[j] == None
    {
      next[i] := prev[i];
      i := i + 1;
    }
    next[k] := Some(s);
  }

  /** The slot holds the step, other slots keep their entries, new slots in between are empty. */
  lemma PlacedMeaning(prev: seq<Option<Step>>, k: nat, s: Step)
    ensures |Placed(prev, k, s)| == if k < |prev| then |prev| else k + 1
    ensures Placed(prev, k, s)[k] == Some(s)
    ensures forall i :: 0 <= i < |prev| && i != k ==> Placed(prev, k, s)[i] == prev[i]
    ensures forall i :: |prev| <= i < k ==> Placed(prev, k, s)[i] == None
  {
  }

  /** Registering the same index again replaces the earlier step. */
  lemma PlacedOverwrites(prev: seq<Option<Step>>, k: nat, s1: Step, s2: Step)
    ensures Placed(Placed(prev, k, s1), k, s2) == Placed(prev, k, s2)
  {
  }

  /** Registrations applied in order, starting from the empty list. */
  function RegisterAll(regs: seq<(nat, Step)>): seq<Option<Step>>
  {
    if regs == [] then []
    else Placed(RegisterAll(regs[..|regs| - 1]), regs[|regs| - 1].0, regs[|regs| - 1].1)
  }

  /** Some registration targets index i. */
  predicate Covered(regs: seq<(nat, Step)>, i: nat)
  {
    exists m :: 0 <= m < |regs| && regs[m].0 == i
  }

  predicate IndicesDistinct(regs: seq<(nat, Step)>)
  {
    forall a, b :: 0 <= a < b < |regs| ==> regs[a].0 != regs[b].0
  }

  /** Every registration holds its slot: no later registration overwrites it. */
  lemma {:induction false} RegisteredSlotsHold(regs: seq<(nat, Step)>)
    requires IndicesDistinct(regs)
    ensures forall m :: 0 <= m < |regs| ==> regs[m].0 < |RegisterAll(regs)|
    ensures forall m :: 0 <= m < |regs| ==> RegisterAll(regs)[regs[m].0] == Some(regs[m].1)
    decreases |regs|
  {
    if regs != [] {
      var init, last := regs[..|regs| - 1], regs[|regs| - 1];
      RegisteredSlotsHold(init);
      PlacedMeaning(RegisterAll(init), last.0, last.1);
      forall m | 0 <= m < |regs| - 1
        ensures regs[m] == init[m]
      {
      }
    }
  }

  /** A slot is filled only by a registration at its index, and so is the last slot. */
  lemma {:induction false} FilledSlotsRegistered(regs: seq<(nat, Step)>)
    ensures forall j :: 0 <= j < |RegisterAll(regs)| && RegisterAll(regs)[j].Some? ==> Covered(regs, j)
    ensures |RegisterAll(regs)| > 0 ==> Covered(regs, |RegisterAll(regs)| - 1)
    decreases |regs|
  {
    if regs != [] {
      var init, last := regs[..|regs| - 1], regs[|regs| - 1];
      var prev, r := RegisterAll(init), RegisterAll(regs);
      FilledSlotsRegistered(init);
      PlacedMeaning(prev, last.0, last.1);
      assert Covered(regs, last.0) by {
        assert regs[|regs| - 1].0 == last.0;
      }
      forall j | 0 <= j < |r| && r[j].Some? && j != last.0
        ensures Covered(regs, j)
      {
        assert Covered(init, j);
        var m :| 0 <= m < |init| && init[m].0 == j;
        assert regs[m].0 == j;
      }
      if last.0 < |prev| {
        assert Covered(init, |prev| - 1);
        var m :| 0 <= m < |init| && init[m].0 == |prev| - 1;
        assert regs[m].0 == |r| - 1;
      }
    }
  }

  /**
   * Registering steps whose indices are exactly 0..n-1, in any order, gives a
   * list of n filled slots, slot i holding the step registered with index i.
   */
  lemma GapFree(regs: seq<(nat, Step)>, n: nat)
    requires IndicesDistinct(regs)
    requires forall m :: 0 <= m < |regs| ==> regs[m].0 < n
    requires forall i: nat :: i < n ==> Covered(regs, i)
    ensures |RegisterAll(regs)| == n
    ensures forall m :: 0 <= m < |regs| ==> RegisterAll(regs)[regs[m].0] == Some(regs[m].1)
    ensures forall i :: 0 <= i < n ==> RegisterAll(regs)[i].Some?
  {
    RegisteredSlotsHold(regs);
    FilledSlotsRegistered(regs);
    var r := RegisterAll(regs);
    if n > 0 {
      assert Covered(regs, n - 1);
      var m :| 0 <= m < |regs| && regs[m].0 == n - 1;
      assert |r| >= n;
    }
    if |r| > 0 {
      var m :| 0 <= m < |regs| && regs[m].0 == |r| - 1;
      assert |r| <= n;
    }
    forall i | 0 <= i < n
      ensures r[i].Some?
    {
      assert Covered(regs, i);
      var m :| 0 <= m < |regs| && regs[m].0 == i;
    }
  }

  /** The four steps of the restaurant detail tour, registered out of order, land in index order. */
  lemma DetailTourRegistration(s0: Step, s1: Step, s2: Step, s3: Step)
    ensures RegisterAll([(2, s2), (0, s0), (3, s3), (1, s1)]) == [Some(s0), Some(s1), Some(s2), Some(s3)]
  {
    var regs := [(2, s2), (0, s0), (3, s3), (1, s1)];
    assert regs[1].0 == 0 && regs[3].0 == 1 && regs[0].0 == 2 && regs[2].0 == 3;
    assert Covered(regs, 0) && Covered(regs, 1) && Covered(regs, 2) && Covered(regs, 3);
    GapFree(regs, 4);
  }
}
