/**
 * The tutorial provider: collects the registered steps, keeps a persisted
 * "tutorial completed" flag, and starts the driver.js tour while the flag is
 * unset.
 */
module DriverProvider {
  import opened Wrappers
  import opened Json
  import opened WebStorage
  import opened ReactiveLocalStorage
  import opened DriverStep

  /** `tutorialKey ?? ''`: the storage key of the completion flag. */
  function StorageKey(tutorialKey: Option<string>): (k: string)
    ensures tutorialKey.Some? ==> k == tutorialKey.value
    ensures tutorialKey.None? ==> k == ""
  {
    match tutorialKey
    case Some(key) => key
    case None => ""
  }

  /** `steps.filter((step) => Boolean(step))`: the filled slots, in slot order. */
  function Present(slots: seq<Option<Step>>): (r: seq<Step>)
    ensures |r| <= |slots|
    ensures forall s :: s in r <==> Some(s) in slots
  {
    if slots == [] then []
    else (if slots[0].Some? then [slots[0].value] else []) + Present(slots[1..])
  }

  /** Filtering works slot range by slot range, so the relative order of the steps is kept. */
  lemma {:induction false} PresentAppend(a: seq<Option<Step>>, b: seq<Option<Step>>)
    ensures Present(a + b) == Present(a) + Present(b)
    decreases |a|
  {
    if a == [] {
      assert a + b == b;
    } else {
      assert (a + b)[0] == a[0];
      assert (a + b)[1..] == a[1..] + b;
      PresentAppend(a[1..], b);
    }
  }

  /** A list without empty slots is handed over whole, slot i as step i. */
  lemma {:induction false} PresentFilled(slots: seq<Option<Step>>)
    requires forall i :: 0 <= i < |slots| ==> slots[i].Some?
    ensures |Present(slots)| == |slots|
    ensures forall i :: 0 <= i < |slots| ==> Present(slots)[i] == slots[i].value
    decreases |slots|
  {
    if slots != [] {
      PresentFilled(slots[1..]);
    }
  }

  /**
   * When the registered indices are exactly 0..n-1, the driver receives all n
   * steps, the step registered with index i in position i.
   */
  lemma HandedInIndexOrder(regs: seq<(nat, Step)>, n: nat)
    requires IndicesDistinct(regs)
    requires forall m :: 0 <= m < |regs| ==> regs[m].0 < n
    requires forall i: nat :: i < n ==> Covered(regs, i)
    ensures |Present(RegisterAll(regs))| == n
    ensures forall m :: 0 <= m < |regs| ==> Present(RegisterAll(regs))[regs[m].0] == regs[m].1
  {
    GapFree(regs, n);
    PresentFilled(RegisterAll(regs));
  }

  /** Without a key nothing is read back, so every mount starts not completed and the tour returns. */
  lemma NoKeyStartsUncompleted(items: map<string, string>)
    ensures !Truthy(InitialRead(items, StorageKey(None), JBool(false)))
  {
  }

  /** With a key, a stored `true` survives a reload: the next mount starts completed. */
  lemma CompletionSurvivesReload(items: map<string, string>, key: string)
    requires key != ""
    ensures Truthy(InitialRead(items[StorageKey(Some(key)) := Serialize(JBool(true))], StorageKey(Some(key)), JBool(false)))
  {
    ReadAfterWrite(items, key, JBool(true), JBool(false));
  }

  /**
   * The provider's state: the steps array (React state), the completion flag
   * (a keyed local-storage value), whether `driverRef.current` holds a
   * driver, whether a tour is running, and the steps last handed to it.
   */
  class Provider {
    var steps: array<Option<Step>>
    const completion: ReactiveValue
    var driverCreated: bool
    var driving: bool
    var handed: seq<Step>

    /** Mounting: the flag's initial read and first write, then both effects with no steps yet. */
    constructor (tutorialKey: Option<string>, local: Storage, writeFails: bool)
      modifies local
      ensures completion.key == StorageKey(tutorialKey) && completion.local == local
      ensures completion.value == InitialRead(old(local.items), StorageKey(tutorialKey), JBool(false))
      ensures StorageKey(tutorialKey) != "" && !writeFails ==>
        local.items == old(local.items)[StorageKey(tutorialKey) := Serialize(completion.value)]
      ensures StorageKey(tutorialKey) == "" || writeFails ==> local.items == old(local.items)
      ensures fresh(steps) && steps.Length == 0
      ensures driverCreated == !Truthy(completion.value)
      ensures !driving && handed == []
    {
      var flag, announced := ReactiveLocalStorage.Mount(StorageKey(tutorialKey), JBool(false), local, writeFails);
      completion := flag;
      steps := new Option<Step>[0];
      driverCreated := !Truthy(flag.value);
      driving := false;
      handed := [];
    }

    /** The effect on `[tutorialCompleted]`: a driver is created only while the flag is unset. */
    method CompletionEffect()
      modifies this
      ensures driverCreated == (old(driverCreated) || !Truthy(completion.value))
      ensures steps == old(steps) && driving == old(driving) && handed == old(handed)
    {
      if !Truthy(completion.value) {
        driverCreated := true;
      }
    }

    /**
     * The effect on `[steps]`: the previous run's cleanup destroys the tour,
     * then a tour over the filled slots starts only when the flag is unset,
     * some slot exists and a driver has been created.
     */
    method StepsEffect()
      modifies this
      ensures driving == (!Truthy(completion.value) && steps.Length > 0 && driverCreated)
      ensures driving ==> handed == Present(steps[..])
      ensures !driving ==> handed == old(handed)
      ensures steps == old(steps) && driverCreated == old(driverCreated)
    {
      driving := false;
      if !Truthy(completion.value) && steps.Length > 0 && driverCreated {
        handed := Present(steps[..]);
        driving := true;
      }
    }

    /** A step's `setSteps` call reaching this provider, followed by the steps effect. */
    method RegisterStep(k: nat, s: Step)
      modifies this
      ensures fresh(steps) && steps[..] == Placed(old(steps[..]), k, s)
      ensures driving == (!Truthy(completion.value) && driverCreated)
      ensures driving ==> handed == Present(steps[..])
      ensures driverCreated == old(driverCreated)
    {
      steps := Register(steps, k, s);
      PlacedMeaning(old(steps[..]), k, s);
      StepsEffect();
    }

    /**
     * `onDestroyStarted`, called by the driver when the user closes the tour:
     * the flag becomes true (and is stored when there is a key), the tour is
     * destroyed, and the completion effect then creates nothing.
     */
    method OnDestroyStarted(writeFails: bool)
      modifies this, completion, completion.local
      ensures completion.value == JBool(true)
      ensures !driving
      ensures completion.key != "" && !writeFails ==>
        completion.local.items == old(completion.local.items)[completion.key := Serialize(JBool(true))]
      ensures completion.key == "" || writeFails ==> completion.local.items == old(completion.local.items)
      ensures driverCreated == old(driverCreated) && steps == old(steps)
    {
      var announced := completion.Set(JBool(true), writeFails);
      driving := false;
      CompletionEffect();
    }
  }

  /** The context a step reads: a provider's, or the default one whose `setSteps` does nothing. */
  datatype Context = InProvider(provider: Provider) | NoProvider

  /** `setSteps` through the context: outside a provider no state at all is touched. */
  method SetStepsVia(ctx: Context, k: nat, s: Step)
    modifies if ctx.InProvider? then {ctx.provider} else {}
    ensures ctx.InProvider? ==>
      fresh(ctx.provider.steps) && ctx.provider.steps[..] == Placed(old(ctx.provider.steps[..]), k, s)
  {
    if ctx.InProvider? {
      ctx.provider.RegisterStep(k, s);
    }
  }
}
