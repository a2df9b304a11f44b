/** Stretches of runs, built one action at a time. */
module ProtocolPaths {
  import opened Protocol

  /** From `s` some actions, one after another, lead to `t`. */
  ghost predicate Leads(g: Config, s: State, t: State) {
    exists path :: IsPath(g, path, s, t)
  }

  ghost predicate IsPath(g: Config, path: seq<State>, s: State, t: State) {
    |path| > 0 && path[0] == s && path[|path| - 1] == t && forall k :: StepAt(g, path, k)
  }

  lemma Stays(g: Config, s: State)
    ensures Leads(g, s, s)
  {
    assert IsPath(g, [s], s, s);
  }

  lemma Goes(g: Config, s: State, t: State, a: Action)
    requires Leads(g, s, t) && Enabled(g, t, a)
    ensures Leads(g, s, Apply(g, t, a))
  {
    var path :| IsPath(g, path, s, t);
    var longer := path + [Apply(g, t, a)];
    forall k ensures StepAt(g, longer, k) {
      assert StepAt(g, path, k);
      if k == |path| - 1 {
        assert Next(g, longer[k], longer[k + 1]);
      }
    }
    assert IsPath(g, longer, s, Apply(g, t, a));
  }

  /** A run goes on with any path from its last state. */
  lemma RunGoesOn(g: Config, run: seq<State>, t: State) returns (longer: seq<State>)
    requires IsRun(g, run) && Leads(g, run[|run| - 1], t)
    ensures IsRun(g, longer) && longer[0] == run[0] && longer[|longer| - 1] == t
  {
    var path :| IsPath(g, path, run[|run| - 1], t);
    longer := run + path[1..];
    forall k ensures StepAt(g, longer, k) {
      assert StepAt(g, run, k) && StepAt(g, path, k - |run| + 1);
    }
  }
}
