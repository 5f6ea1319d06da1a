/** Sequences of updates: the bot processes them one by one on the shared
    store, and an uncaught exception ends the run. */
module Runs {
  import opened Js
  import opened Provider
  import opened Conversation
  import opened Invariants

  /** One update from the transport with the provider's answers to it. */
  datatype Input = Input(caller: UserId, event: Event, replies: Replies)

  /** The store after a run, every provider call in order, and whether an
      update crashed (the run stops there). */
  datatype Trace = Trace(store: Store, effects: seq<Effect>, crashed: bool)

  predicate AllUnauthorised(allowed: seq<UserId>, inputs: seq<Input>)
  {
    forall k :: 0 <= k < |inputs| ==> !Authorised(allowed, inputs[k].caller)
  }

  predicate AllText(inputs: seq<Input>)
  {
    forall k :: 0 <= k < |inputs| ==> inputs[k].event.Text?
  }

  /** The users who sent the updates of a run. */
  function Callers(inputs: seq<Input>): (us: set<UserId>)
  {
    if |inputs| == 0 then {} else {inputs[0].caller} + Callers(inputs[1..])
  }

  /** Process the updates in order until one crashes. */
  function Run(allowed: seq<UserId>, store: Store, inputs: seq<Input>): (t: Trace)
    decreases |inputs|
  {
    if |inputs| == 0 then Trace(store, [], false)
    else
      var i := inputs[0];
      var o := HandleUpdate(allowed, store, i.caller, i.event, i.replies);
      if o.status.Crashed? then Trace(o.store, o.effects, true)
      else
        var t := Run(allowed, o.store, inputs[1..]);
        Trace(t.store, o.effects + t.effects, t.crashed)
  }

  /** A run of unauthorised updates changes nothing and calls nothing. */
  lemma {:induction false} UnauthorisedRunChangesNothing(allowed: seq<UserId>, store: Store, inputs: seq<Input>)
    requires AllUnauthorised(allowed, inputs)
    ensures Run(allowed, store, inputs) == Trace(store, [], false)
    decreases |inputs|
  {
    if |inputs| > 0 {
      assert AllUnauthorised(allowed, inputs[1..]) by {
        forall k | 0 <= k < |inputs[1..]| ensures !Authorised(allowed, inputs[1..][k].caller) {
          assert inputs[1..][k] == inputs[k + 1];
        }
      }
      assert !Authorised(allowed, inputs[0].caller);
      UnauthorisedRunChangesNothing(allowed, store, inputs[1..]);
    }
  }

  /** A user who sent none of the updates of a run keeps their session as it was. */
  lemma {:induction false} RunLeavesOthersAlone(allowed: seq<UserId>, store: Store, inputs: seq<Input>, v: UserId)
    requires v !in Callers(inputs)
    ensures var t := Run(allowed, store, inputs);
      (v in t.store <==> v in store) && (v in store ==> t.store[v] == store[v])
    decreases |inputs|
  {
    if |inputs| > 0 {
      var i := inputs[0];
      var o := HandleUpdate(allowed, store, i.caller, i.event, i.replies);
      assert v != i.caller;
      assert v in o.store <==> v in o.store - {i.caller};
      assert v in store <==> v in store - {i.caller};
      if v in store {
        assert (store - {i.caller})[v] == store[v];
        assert (o.store - {i.caller})[v] == o.store[v];
      }
      if o.status.Handled? {
        RunLeavesOthersAlone(allowed, o.store, inputs[1..], v);
      }
    }
  }

  /** A run that starts with an update that does not crash continues from its store. */
  lemma RunStep(allowed: seq<UserId>, store: Store, i: Input, rest: seq<Input>)
    requires HandleUpdate(allowed, store, i.caller, i.event, i.replies).status.Handled?
    ensures var o := HandleUpdate(allowed, store, i.caller, i.event, i.replies);
      var t := Run(allowed, o.store, rest);
      Run(allowed, store, [i] + rest) == Trace(t.store, o.effects + t.effects, t.crashed)
  {
    assert ([i] + rest)[0] == i;
    assert ([i] + rest)[1..] == rest;
  }

  /** A run of one update that does not crash ends in its store, with its calls. */
  lemma RunLast(allowed: seq<UserId>, store: Store, i: Input)
    requires HandleUpdate(allowed, store, i.caller, i.event, i.replies).status.Handled?
    ensures var o := HandleUpdate(allowed, store, i.caller, i.event, i.replies);
      Run(allowed, store, [i]) == Trace(o.store, o.effects, false)
  {
    var o := HandleUpdate(allowed, store, i.caller, i.event, i.replies);
    assert [i][1..] == [];
    assert o.effects + [] == o.effects;
  }

  /** A run that did not crash keeps the session invariant. */
  lemma {:induction false} RunPreservesInvariant(allowed: seq<UserId>, store: Store, inputs: seq<Input>)
    requires StoreInvariant(store)
    ensures !Run(allowed, store, inputs).crashed ==> StoreInvariant(Run(allowed, store, inputs).store)
    decreases |inputs|
  {
    if |inputs| > 0 {
      var i := inputs[0];
      var o := HandleUpdate(allowed, store, i.caller, i.event, i.replies);
      HandledPreservesInvariant(allowed, store, i.caller, i.event, i.replies);
      if o.status.Handled? {
        RunPreservesInvariant(allowed, o.store, inputs[1..]);
      }
    }
  }

  /** From a store that keeps the invariant, text messages alone never crash the bot. */
  lemma {:induction false} TextRunsNeverCrash(allowed: seq<UserId>, store: Store, inputs: seq<Input>)
    requires StoreInvariant(store) && AllText(inputs)
    ensures !Run(allowed, store, inputs).crashed
    decreases |inputs|
  {
    if |inputs| > 0 {
      var i := inputs[0];
      TextNeverCrashes(allowed, store, i.caller, i.event.message, i.replies);
      HandledPreservesInvariant(allowed, store, i.caller, i.event, i.replies);
      var o := HandleUpdate(allowed, store, i.caller, i.event, i.replies);
      assert AllText(inputs[1..]) by {
        forall k | 0 <= k < |inputs[1..]| ensures inputs[1..][k].event.Text? {
          assert inputs[1..][k] == inputs[k + 1];
        }
      }
      TextRunsNeverCrash(allowed, o.store, inputs[1..]);
    }
  }

}
