/** Concrete runs of the protocol, put together from lists of steps. */
module Playing {
  import opened Wrappers
  import opened Protocol

  /** Play steps one after the other, as long as each is enabled. */
  function Play(s: State, steps: seq<Step>): Option<State>
    decreases |steps|
  {
    if steps == [] then Some(s)
    else if Enabled(s, steps[0]) then Play(Apply(s, steps[0]), steps[1..])
    else None
  }

  lemma Before(s: State, step: Step, t: State, rest: seq<Step>) returns (steps: seq<Step>)
    requires Enabled(s, step) && Apply(s, step) == t
    ensures Play(s, steps) == Play(t, rest)
  {
    steps := [step] + rest;
    PlayStep(s, step, t, rest);
  }

  lemma PlayStep(s: State, step: Step, t: State, rest: seq<Step>)
    requires Enabled(s, step) && Apply(s, step) == t
    ensures Play(s, [step] + rest) == Play(t, rest)
  {
  }

  lemma PlayNothing(s: State)
    ensures Play(s, []) == Some(s)
  {
  }

  lemma {:induction false} PlayOn(s: State, a: seq<Step>, b: seq<Step>)
    requires Play(s, a).Some?
    ensures Play(s, a + b) == Play(Play(s, a).value, b)
    decreases |a|
  {
    if a == [] {
      assert a + b == b;
    } else {
      PlayOn(Apply(s, a[0]), a[1..], b);
      assert (a + b)[0] == a[0] && (a + b)[1..] == a[1..] + b;
    }
  }

  /** What is played from an initial state is a run. */
  lemma {:induction false} PlayIsPath(s: State, steps: seq<Step>) returns (states: seq<State>)
    requires Play(s, steps).Some?
    ensures |states| == |steps| + 1 && states[0] == s && states[|steps|] == Play(s, steps).value
    ensures forall i :: 0 <= i < |steps| ==> Enabled(states[i], steps[i]) && states[i + 1] == Apply(states[i], steps[i])
    decreases |steps|
  {
    if steps == [] {
      states := [s];
    } else {
      var rest := PlayIsPath(Apply(s, steps[0]), steps[1..]);
      states := [s] + rest;
      forall i | 0 <= i < |steps|
        ensures Enabled(states[i], steps[i]) && states[i + 1] == Apply(states[i], steps[i])
      {
        if i > 0 {
          assert states[i] == rest[i - 1] && steps[i] == steps[1..][i - 1];
        }
      }
    }
  }
}
