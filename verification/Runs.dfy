/** Runs of a step machine: which steps are possible in a state, and where each leads. */
module Runs {

  datatype Machine<!W, !S> = Machine(enabled: (W, S) -> bool, next: (W, S) -> W)

  /** The steps, taken one after the other from `before`, are all possible and lead to `after`. */
  ghost predicate Run<W, S>(m: Machine<W, S>, before: W, steps: seq<S>, after: W)
    decreases |steps|
  {
    if steps == [] then before == after
    else m.enabled(before, steps[0]) && Run(m, m.next(before, steps[0]), steps[1..], after)
  }

  lemma {:induction false} RunConcat<W, S>(m: Machine<W, S>, w0: W, s: seq<S>, w1: W, t: seq<S>, w2: W)
    requires Run(m, w0, s, w1) && Run(m, w1, t, w2)
    ensures Run(m, w0, s + t, w2)
    decreases |s|
  {
    if s == [] {
      assert s + t == t;
    } else {
      RunConcat(m, m.next(w0, s[0]), s[1..], w1, t, w2);
      assert (s + t)[1..] == s[1..] + t;
    }
  }

  lemma RunStep<W, S>(m: Machine<W, S>, w0: W, s: seq<S>, w1: W, step: S)
    requires Run(m, w0, s, w1) && m.enabled(w1, step)
    ensures Run(m, w0, s + [step], m.next(w1, step))
  {
    var w2 := m.next(w1, step);
    assert Run(m, w1, [step], w2) by { assert Run(m, w2, [], w2); }
    RunConcat(m, w0, s, w1, [step], w2);
  }

  /** A run that stops early is a run: a crash can only cut the steps short. */
  lemma {:induction false} RunPrefix<W, S>(m: Machine<W, S>, w0: W, s: seq<S>, w1: W, n: nat) returns (mid: W)
    requires Run(m, w0, s, w1) && n <= |s|
    ensures Run(m, w0, s[..n], mid) && Run(m, mid, s[n..], w1)
    decreases n
  {
    if n == 0 {
      mid := w0;
    } else {
      mid := RunPrefix(m, m.next(w0, s[0]), s[1..], w1, n - 1);
      assert s[1..][..n - 1] == s[..n][1..] && s[1..][n - 1..] == s[n..];
    }
  }

  ghost predicate Inductive<W(!new), S(!new)>(m: Machine<W, S>, inv: W -> bool) {
    forall w, s {:trigger m.next(w, s)} :: inv(w) && m.enabled(w, s) ==> inv(m.next(w, s))
  }

  /** What every step keeps, every run keeps. */
  lemma {:induction false} RunKeeps<W(!new), S(!new)>(m: Machine<W, S>, inv: W -> bool, w0: W, s: seq<S>, w1: W)
    requires Inductive(m, inv) && inv(w0) && Run(m, w0, s, w1)
    ensures inv(w1)
    decreases |s|
  {
    if s != [] { RunKeeps(m, inv, m.next(w0, s[0]), s[1..], w1); }
  }
}
