// Teardown of the nested table of npt.c against notifier callbacks (npt.c:160-168, npt.c:843-865, npt.c:887-904,
// npt.c:1037-1060): unregister, zero the root, wait for npt_mmu_users to fall to 0, free.

module NptTeardown {
  /** A callback between npt_mmu_get and npt_mmu_put: waiting for the lock, holding it, holding it again after
      a pause in which it saw the root, or pausing. */
  datatype Callback = Waiting | Holding | Resumed | Paused | Unlocked

  datatype Phase = Registered | Unregistered | Zeroed | Freed

  datatype State = State(
    users: int,                       // npt_mmu_users
    inside: map<nat, Callback>,
    lock: int,                        // the callback that holds ept_lock, -1 if none
    root: bool,                       // ept_root is not 0
    phase: Phase)

  datatype Step =
    | Get(i: nat) | Acquire(i: nat) | Yield(i: nat) | Resume(i: nat) | Release(i: nat) | Put(i: nat)
    | Unregister | ZeroRoot | Free

  predicate Is(s: State, i: nat, c: Callback) { i in s.inside && s.inside[i] == c }

  predicate Enabled(s: State, step: Step) {
    match step
    case Get(i) => i !in s.inside && s.phase.Registered?     // no callback starts after unregister
    case Acquire(i) => Is(s, i, Waiting) && s.lock == -1
    case Yield(i) => Is(s, i, Holding) || Is(s, i, Resumed)
    case Resume(i) => Is(s, i, Paused) && s.lock == -1
    case Release(i) => Is(s, i, Holding) || Is(s, i, Resumed)
    case Put(i) => Is(s, i, Unlocked)
    case Unregister => s.phase.Registered?
    case ZeroRoot => s.phase.Unregistered? && s.lock == -1
    case Free => s.phase.Zeroed? && s.users == 0
  }

  function Apply(s: State, step: Step): State
    requires Enabled(s, step)
  {
    match step
    case Get(i) => s.(users := s.users + 1, inside := s.inside[i := Waiting])
    case Acquire(i) => s.(lock := i, inside := s.inside[i := Holding])
    case Yield(i) => s.(lock := -1, inside := s.inside[i := Paused])
    case Resume(i) =>
      if s.root then s.(lock := i, inside := s.inside[i := Resumed]) else s.(inside := s.inside[i := Unlocked])
    case Release(i) => s.(lock := -1, inside := s.inside[i := Unlocked])
    case Put(i) => s.(users := s.users - 1, inside := s.inside - {i})
    case Unregister => s.(phase := Unregistered)
    case ZeroRoot => s.(root := false, phase := Zeroed)
    case Free => s.(phase := Freed)
  }

  predicate Inv(s: State) {
    && s.users == |s.inside| && s.lock >= -1 && (s.lock >= 0 ==> s.lock in s.inside)
    && (forall i :: i in s.inside ==> (s.inside[i].Holding? || s.inside[i].Resumed? <==> s.lock == i))
    && (forall i :: i in s.inside && s.inside[i].Resumed? ==> s.root)
    && (s.root <==> s.phase.Registered? || s.phase.Unregistered?)
    && (s.phase.Freed? ==> s.inside == map[])
  }

  lemma AnyStep(s: State, step: Step)
    requires Inv(s) && Enabled(s, step)
    ensures Inv(Apply(s, step))
  {
    if step.Put? { assert Apply(s, step).inside.Keys == s.inside.Keys - {step.i}; }
  }

  ghost predicate IsRun(states: seq<State>, steps: seq<Step>) {
    && |states| == |steps| + 1 && states[0] == State(0, map[], -1, true, Registered)
    && forall i :: 0 <= i < |steps| ==> Enabled(states[i], steps[i]) && states[i + 1] == Apply(states[i], steps[i])
  }

  lemma {:induction false} RunInv(states: seq<State>, steps: seq<Step>, n: nat)
    requires IsRun(states, steps) && n < |states|
    ensures Inv(states[n])
  {
    if n > 0 {
      RunInv(states, steps, n - 1);
      AnyStep(states[n - 1], steps[n - 1]);
    }
  }

  /** When the tables are freed, and ever after, no callback is between its get and its put. */
  lemma NoneInsideWhenFreed(states: seq<State>, steps: seq<Step>, n: nat)
    requires IsRun(states, steps) && n < |states| && states[n].phase.Freed?
    ensures states[n].inside == map[] && forall i :: !Enabled(states[n], Get(i))
  {
    RunInv(states, steps, n);
  }

  /** A callback that goes on after a pause does so with the root still there, for as long as it holds the lock. */
  lemma ResumedHasRoot(states: seq<State>, steps: seq<Step>, n: nat, i: nat)
    requires IsRun(states, steps) && n < |states| && Is(states[n], i, Resumed)
    ensures states[n].root && states[n].lock == i && !Enabled(states[n], ZeroRoot) && !Enabled(states[n], Free)
  {
    RunInv(states, steps, n);
  }

  // ---- a callback that was already inside when the root went ----

  lemma {:induction false} RootUntilZeroed(states: seq<State>, steps: seq<Step>, n: nat)
    requires IsRun(states, steps) && n < |states|
    ensures states[n].root <==> ZeroRoot !in steps[..n]
  {
    if n > 0 {
      RootUntilZeroed(states, steps, n - 1);
      assert steps[..n] == steps[..n - 1] + [steps[n - 1]];
    }
  }

  /** For as long as a callback holds the lock since its first acquire, the root is there exactly when it was not zeroed
      between the callback's npt_mmu_get and that acquire. */
  lemma RootIff(states: seq<State>, steps: seq<Step>, g: nat, a: nat, n: nat, i: nat)
    requires IsRun(states, steps) && g < a < n < |states| && steps[g] == Get(i) && steps[a] == Acquire(i)
    requires forall k :: a < k <= n ==> states[k].lock == i
    ensures states[n].root <==> ZeroRoot !in steps[g..a]
  {
    RunInv(states, steps, g);
    RootUntilZeroed(states, steps, g);
    RootUntilZeroed(states, steps, n);
    assert Enabled(states[g], steps[g]) && Enabled(states[a], steps[a]);
    forall k | a < k < n
      ensures steps[k] != ZeroRoot
    {
      assert Enabled(states[k], steps[k]);
    }
    assert steps[..n] == steps[..g] + steps[g..a] + steps[a..n];
  }

  /** And that does happen: a callback gets in, the table's owner unregisters and zeroes the root, and only then does
      the callback get the lock. */
  lemma HoldsWithoutRoot() returns (states: seq<State>, steps: seq<Step>)
    ensures steps == [Get(0), Unregister, ZeroRoot, Acquire(0)] && IsRun(states, steps)
    ensures Is(states[4], 0, Holding) && !states[4].root && states[4].lock == 0
  {
    steps := [Get(0), Unregister, ZeroRoot, Acquire(0)];
    var s1 := State(1, map[0 := Waiting], -1, true, Registered);
    var s3 := State(1, map[0 := Waiting], -1, false, Zeroed);
    states := [State(0, map[], -1, true, Registered), s1, s1.(phase := Unregistered), s3,
               s3.(lock := 0, inside := map[0 := Holding])];
  }

  // ---- pauses ----

  /** A callback that gives the lock up gets it back, with the root there, or never again: whenever it holds the lock
      later, it has looked at the root since. */
  lemma {:induction false} PausedComesBack(states: seq<State>, steps: seq<Step>, n: nat, k: nat, i: nat)
    requires IsRun(states, steps) && n < k < |states| && steps[n] == Yield(i)
    requires forall j :: n < j < k ==> steps[j] != Get(i)
    ensures !Is(states[k], i, Waiting) && !Is(states[k], i, Holding)
    ensures states[k].lock == i ==> states[k].root && Is(states[k], i, Resumed)
  {
    hide Apply, Enabled;
    RunInv(states, steps, k);
    assert Enabled(states[k - 1], steps[k - 1]);
    if n + 1 == k {
      YieldStep(states[n], i);
    } else {
      PausedComesBack(states, steps, n, k - 1, i);
      CameBack(states[k - 1], steps[k - 1], i);
    }
  }

  lemma YieldStep(s: State, i: nat)
    requires Enabled(s, Yield(i))
    ensures var s' := Apply(s, Yield(i)); Is(s', i, Paused) && s'.lock == -1
  {
  }

  lemma CameBack(s: State, step: Step, i: nat)
    requires Enabled(s, step) && step != Get(i) && !Is(s, i, Waiting) && !Is(s, i, Holding)
    ensures !Is(Apply(s, step), i, Waiting) && !Is(Apply(s, step), i, Holding)
  {
  }

  /** After a pause a callback goes on exactly when the root is there, and else gives up. */
  lemma ResumeIff(states: seq<State>, steps: seq<Step>, n: nat, i: nat)
    requires IsRun(states, steps) && n < |steps| && steps[n] == Resume(i)
    ensures if states[n].root then Is(states[n + 1], i, Resumed) && states[n + 1].lock == i
            else Is(states[n + 1], i, Unlocked) && states[n + 1].lock == -1
  {
    assert Enabled(states[n], steps[n]);
  }

  /** The tables are freed by the step that frees them, which waits exactly for the callbacks inside. */
  lemma FreeIff(states: seq<State>, steps: seq<Step>, n: nat)
    requires IsRun(states, steps) && n < |states|
    ensures Enabled(states[n], Free) <==> states[n].phase.Zeroed? && states[n].inside == map[]
    ensures n < |steps| && steps[n].Free? ==> states[n + 1].phase.Freed?
  {
    RunInv(states, steps, n);
    assert states[n].inside == map[] <==> |states[n].inside| == 0;
  }
}
