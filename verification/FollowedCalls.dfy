/**
 What the calls on a resumed handle do to the run behind it: a decision reaches it, closing stops it if it has not been
 seen to complete, and a client that has left is handed nothing.
 */
module FollowedCalls {
  import opened Wrappers
  import opened RunLog
  import opened FollowedRuns
  import R = ResumedRuns
  import S = SimulatedRuns

  predicate Stays(w: World) {
    w.client.Some? && !w.client.value.closed
  }

  predicate HasClosed(w: World) {
    w.client.Some? && w.client.value.closed
  }

  /**
   Wherever the client closes, by a call or from inside a delivery or a replay, one cancel goes to the run exactly if the
   completion was not among what the client has been handed.
   */
  lemma {:induction false} ClosingCancelsIff(worlds: seq<World>, actions: seq<Action>, config: S.Config, k: nat)
    requires IsRun(worlds, actions, config) && k < |actions| && Stays(worlds[k]) && HasClosed(worlds[k + 1])
    ensures worlds[k + 1].sim.submitted
         == worlds[k].sim.submitted
            + if S.NoneCompletes(worlds[k + 1].client.value.received) then [S.Cancel] else []
  {
    RunKeepsInv(worlds, actions, config, k + 1);
    assert Enabled(worlds[k], actions[k]) && worlds[k + 1] == Apply(worlds[k], actions[k]);
  }

  /** A decision is passed on exactly while the handle is open and has not been handed the completion. */
  lemma {:induction false} DecisionPassesIff(worlds: seq<World>, actions: seq<Action>, config: S.Config, k: nat)
    requires IsRun(worlds, actions, config) && k < |actions| && actions[k].Submit?
    ensures worlds[k].client.Some?
    ensures var c := worlds[k].client.value;
            worlds[k + 1].sim.submitted
            == worlds[k].sim.submitted
               + if !c.closed && S.NoneCompletes(c.received) then [actions[k].decision] else []
  {
    RunKeepsInv(worlds, actions, config, k);
    assert Enabled(worlds[k], actions[k]) && worlds[k + 1] == Apply(worlds[k], actions[k]);
  }

  // ---- a client that has left ----

  /** Not subscribed, and with nothing more than it had. */
  predicate Away(w: World, received: seq<Event>, closed: bool) {
    && w.client.Some? && !w.client.value.live && w.client.value.received == received
    && (closed ==> w.client.value.closed)
  }

  lemma ApplyKeepsAway(w: World, a: Action, received: seq<Event>, closed: bool)
    requires Enabled(w, a) && Away(w, received, closed) && (a.OnEvent? ==> closed)
    ensures Away(Apply(w, a), received, closed)
  {
  }

  /** Having detached, a client is handed nothing until it subscribes again; having closed, nothing ever again. */
  lemma {:induction false} LeavingIsHeeded(worlds: seq<World>, actions: seq<Action>, config: S.Config, k: nat, j: nat)
    requires IsRun(worlds, actions, config) && k < j <= |actions| && (actions[k].Detach? || actions[k].Close?)
    requires actions[k].Close? || forall m :: k < m < j ==> !actions[m].OnEvent?
    ensures worlds[k].client.Some?
    ensures Away(worlds[j], worlds[k].client.value.received, actions[k].Close?)
  {
    assert Enabled(worlds[j - 1], actions[j - 1]) && worlds[j] == Apply(worlds[j - 1], actions[j - 1]);
    if k + 1 < j {
      LeavingIsHeeded(worlds, actions, config, k, j - 1);
      ApplyKeepsAway(worlds[j - 1], actions[j - 1], worlds[k].client.value.received, actions[k].Close?);
    }
  }
}
