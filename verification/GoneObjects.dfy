/** What the removal of the finalizer leaves behind in Pinot: the answer to the DELETE is not looked at. */
module GoneObjects {
  import opened Json
  import opened Protocol
  import opened Safety
  import opened Agreement

  /** The entity a DELETE is for is the one its copy names. */
  predicate DeletesItsOwn(e: Env, p: Pass) {
    p.Delete? ==> NameOf(e, p.copy.spec.json) == Some(p.name)
  }

  lemma RunDeletesItsOwn(e: Env, s: Sys, n: nat)
    requires |s.world.past| > 0 && s.pass.Idle?
    ensures DeletesItsOwn(e, At(e, s, n).pass)
  {
    var holds := (t: Sys) => DeletesItsOwn(e, t.pass);
    forall t: Sys | |t.world.past| > 0 && holds(t)
      ensures holds(Step(e, t))
    {
      StepDeletesItsOwn(e, t);
    }
    RunKeeps(e, s, holds, n);
  }

  lemma StepDeletesItsOwn(e: Env, s: Sys)
    requires |s.world.past| > 0
    ensures DeletesItsOwn(e, Step(e, s).pass)
  {
  }

  lemma RemovalFollowsDelete(e: Env, s: Sys)
    requires |s.world.past| > 0 && Step(e, s).pass.RemoveFinalizer?
    ensures s.pass.Delete? && s.pass.copy == Step(e, s).pass.copy && ReplyOf(e, s.world).Answer?
  {
  }

  /** One call of a DELETE that Pinot answers. */
  lemma AnsweredDeleteLeaves(e: Env, name: string, s: Sys)
    requires |s.world.past| > 0 && OthersAbstain(e, name) && s.pass.Delete? && s.pass.name == name
    requires ReplyOf(e, s.world).Answer?
    ensures name in Step(e, s).world.pinot <==> name in s.world.pinot && ReplyOf(e, s.world).code != 200
  {
    ArriveUnchanged(e, name, s);
  }

  lemma RemovalLeavesPinot(e: Env, name: string, s: Sys)
    requires |s.world.past| > 0 && OthersAbstain(e, name) && s.pass.RemoveFinalizer?
    ensures SameEntry(name, s.world, Step(e, s).world)
  {
    ArriveUnchanged(e, name, s);
  }

  lemma RemovalKeepsSpec(e: Env, s: Sys)
    requires Inv(e.kind, s) && s.pass.RemoveFinalizer? && Step(e, s).world.tally.finalizerWrites > 0
    ensures Latest(Step(e, s).world).spec == s.pass.copy.spec
  {
    var w, copy := s.world, s.pass.copy;
    ArriveExtends(e, w);
    StillKnown(w, Arrive(e, w), copy);
    UpdateChangesOnlyFinalizers(e, w, copy, Without(copy.finalizers, Finalizer(e)));
  }

  lemma DeleteThenRemove(e: Env, name: string, t0: Sys, t1: Sys, t2: Sys)
    requires |t0.world.past| > 0 && t1 == Step(e, t0) && Inv(e.kind, t1) && t2 == Step(e, t1)
    requires OthersAbstain(e, name) && DeletesItsOwn(e, t0.pass)
    requires t1.pass.RemoveFinalizer? && NameOf(e, t1.pass.copy.spec.json) == Some(name)
    requires t2.world.tally.finalizerWrites > 0
    ensures t0.pass == Delete(t1.pass.copy, name) && ReplyOf(e, t0.world).Answer?
    ensures Latest(t2.world).spec == t1.pass.copy.spec
    ensures name in t2.world.pinot <==> name in t0.world.pinot && ReplyOf(e, t0.world).code != 200
  {
    RemovalFollowsDelete(e, t0);
    AnsweredDeleteLeaves(e, name, t0);
    RemovalLeavesPinot(e, name, t1);
    RemovalKeepsSpec(e, t1);
  }

  /** A call that takes the finalizer off, and with the last finalizer the object, in any run in which
      nobody else writes the entity in Pinot. The object's last version names the entity of the DELETE
      just before, and the entity is left behind exactly if it existed and that DELETE was answered
      with an error. */
  lemma GoneObjectLeavesEntityExactly(e: Env, name: string, s: Sys, m: nat)
    requires Start(s) && OthersAbstain(e, name) && At(e, s, m + 1).pass.RemoveFinalizer?
    requires NameOf(e, At(e, s, m + 1).pass.copy.spec.json) == Some(name)
    requires At(e, s, m + 2).world.tally.finalizerWrites > 0
    ensures At(e, s, m).pass == Delete(At(e, s, m + 1).pass.copy, name) && ReplyOf(e, At(e, s, m).world).Answer?
    ensures Latest(At(e, s, m + 2).world).spec == At(e, s, m + 1).pass.copy.spec
    ensures name in At(e, s, m + 2).world.pinot <==>
            name in At(e, s, m).world.pinot && ReplyOf(e, At(e, s, m).world).code != 200
  {
    RunKeepsInv(e, s, m + 1);
    RunDeletesItsOwn(e, s, m);
    DeleteThenRemove(e, name, At(e, s, m), At(e, s, m + 1), At(e, s, m + 2));
  }
}
