/**
 Runs spelled out step by step, for the results that name a concrete input.
 */
module Scenario {
  import opened Threads

  ghost predicate Goes(s: State, a: Action, s': State) {
    Enabled(s, a) && Step(s, a) == s'
  }

  ghost predicate Reaches(ss: seq<State>, acts: seq<Action>, s: State) {
    Run(ss, acts) && ss[0] == INIT && ss[|acts|] == s
  }

  lemma Go(ss: seq<State>, acts: seq<Action>, a: Action, s': State) returns (ss': seq<State>, acts': seq<Action>)
    requires Run(ss, acts) && ss[0] == INIT && Goes(ss[|acts|], a, s')
    ensures Reaches(ss', acts', s') && acts' == acts + [a] && ss' == ss + [s']
  {
    RunExtends(ss, acts, a);
    ss', acts' := ss + [s'], acts + [a];
  }
}
