/** The controllers as they are written: methods that change the in-memory object they were handed
    and call out to the API server and to Pinot. Each is proved to run exactly one pass of the step
    machine of `Protocol`. */
module Controllers {
  import opened Json
  import opened Protocol

  /** The object a reconcile works on. `PatchStatus` overwrites it while the reconcile is running. */
  class CustomResource {
    var spec: Spec
    var status: Status
    var finalizers: seq<string>
    var deleting: bool
    var version: nat

    function Value(): CR
      reads this
    {
      CR(spec, status, finalizers, deleting, version)
    }

    constructor (o: CR)
      ensures Value() == o
    {
      spec, status, finalizers, deleting, version := o.spec, o.status, o.finalizers, o.deleting, o.version;
    }

    method Load(o: CR)
      modifies this
      ensures Value() == o
    {
      spec, status, finalizers, deleting, version := o.spec, o.status, o.finalizers, o.deleting, o.version;
    }
  }

  /** Everything outside the controller: the API server, its read cache and Pinot. */
  class Cluster {
    const env: Env
    var world: World

    ghost predicate Valid()
      reads this
    {
      |world.past| > 0
    }

    constructor (env: Env, world: World)
      requires |world.past| > 0
      ensures Valid() && this.env == env && this.world == world
    {
      this.env, this.world := env, world;
    }

    method BeginPass()
      requires Valid()
      modifies this
      ensures Valid() && world == old(world).(tally := NOTHING)
    {
      world := world.(tally := NOTHING);
    }

    /** `client.Get` of the custom resource. */
    method Get() returns (o: Option<CR>)
      requires Valid()
      modifies this
      ensures Valid() && o == ReadObject(env, old(world)) && world == Arrive(env, old(world))
    {
      o := ReadObject(env, world);
      world := Arrive(env, world);
    }

    /** `getControllerSvcUrl` and `getAuthCreds`: reads whose only effect here is to fail or not. */
    method LookupServiceAndCredentials() returns (found: bool)
      requires Valid()
      modifies this
      ensures Valid() && found == LookupFound(env, old(world)) && world == Arrive(env, old(world))
    {
      found := LookupFound(env, world);
      world := Arrive(env, world);
    }

    method Now() returns (now: nat)
      ensures now == env.tape(world.clock).now
    {
      now := env.tape(world.clock).now;
    }

    /** `client.Status().Patch` with the merge patch from `base` to `target`. */
    method PatchStatusSubresource(base: Status, target: Status) returns (ok: bool)
      requires Valid()
      modifies this
      ensures Valid() && ok == PatchSucceeds(env, old(world)) && world == PatchObject(env, old(world), base, target)
    {
      ok := PatchSucceeds(env, world);
      world := PatchObject(env, world, base, target);
    }

    /** `client.Update`; its error is dropped by every caller. */
    method Update(o: CR)
      requires Valid()
      modifies this
      ensures Valid() && world == UpdateObject(env, old(world), o)
    {
      world := UpdateObject(env, world, o);
    }

    method HttpGet(name: string) returns (r: Reply)
      requires Valid()
      modifies this
      ensures Valid() && r == ReplyOf(env, old(world)) && world == GetEntity(env, old(world))
    {
      r := ReplyOf(env, world);
      world := GetEntity(env, world);
    }

    method HttpPost(name: string, body: string) returns (r: Reply)
      requires Valid()
      modifies this
      ensures Valid() && r == ReplyOf(env, old(world)) && world == PostEntity(env, old(world), name, body)
    {
      r := ReplyOf(env, world);
      world := PostEntity(env, world, name, body);
    }

    method HttpPut(name: string, body: string) returns (r: Reply)
      requires Valid()
      modifies this
      ensures Valid() && r == ReplyOf(env, old(world)) && world == PutEntity(env, old(world), name, body)
    {
      r := ReplyOf(env, world);
      world := PutEntity(env, world, name, body);
    }

    method HttpDelete(name: string) returns (r: Reply)
      requires Valid()
      modifies this
      ensures Valid() && r == ReplyOf(env, old(world)) && world == DeleteEntity(env, old(world), name)
    {
      r := ReplyOf(env, world);
      world := DeleteEntity(env, world, name);
    }
  }

  lemma Unfold(e: Env, s: Sys)
    requires |s.world.past| > 0 && !s.pass.Idle?
    ensures Finish(e, s) == Finish(e, Step(e, s))
  {
  }

  // ------------------------------------------------------------------ internal/utils/patch.go

  /** Refreshes the caller's object in place, then patches the difference between that snapshot and
      its transformed copy. The caller keeps the snapshot. */
  method PatchStatus(c: Cluster, obj: CustomResource, transform: (CR, nat) -> Status) returns (ok: bool)
    requires c.Valid()
    modifies c, obj
    ensures c.Valid()
    ensures var read := ReadObject(c.env, old(c.world));
            var w := Arrive(c.env, old(c.world));
            if read.None? then !ok && c.world == w && obj.Value() == old(obj.Value())
            else
              && obj.Value() == read.value
              && ok == PatchSucceeds(c.env, w)
              && c.world == PatchObject(c.env, w, read.value.status, transform(read.value, c.env.tape(w.clock).now))
  {
    var snapshot := c.Get();
    if snapshot.None? { return false; }
    obj.Load(snapshot.value);
    var now := c.Now();
    var patched := transform(obj.Value(), now);
    ok := c.PatchStatusSubresource(obj.status, patched);
  }

  /** The shape shared by the three `makePatch...Status`: the refreshed spec is what gets recorded. */
  method MakePatchStatus(c: Cluster, obj: CustomResource, note: Note) returns (ok: bool)
    requires c.Valid()
    modifies c, obj
    ensures c.Valid()
    ensures forall name, adopting ::
      Finish(c.env, Sys(old(c.world), PatchRead(name, note, adopting))) ==
        if !ok then Sys(c.world, Idle)
        else Finish(c.env, Sys(c.world, if adopting then Compare(c.env, obj.Value(), name, note.reason)
                                        else Finalize(c.env, obj.Value())))
  {
    ghost var w := c.world;
    var k := c.env.kind;
    ok := PatchStatus(c, obj, (o: CR, now: nat) => Stamp(k, o, note, now));
    forall name, adopting
      ensures Finish(c.env, Sys(w, PatchRead(name, note, adopting))) ==
        if !ok then Sys(c.world, Idle)
        else Finish(c.env, Sys(c.world, if adopting then Compare(c.env, obj.Value(), name, note.reason)
                                        else Finalize(c.env, obj.Value())))
    {
      var s := Sys(w, PatchRead(name, note, adopting));
      Unfold(c.env, s);
      if !Step(c.env, s).pass.Idle? { Unfold(c.env, Step(c.env, s)); }
    }
  }

  /** Where a pass stands once service and credentials are known. */
  function Entry(e: Env, copy: CR): Pass {
    match NameOf(e, copy.spec.json)
    case None => Idle
    case Some(name) => Get(copy, name)
  }

  /** `CreateOrUpdate` ran the machine from its entry to the finalizer stage, or to the end. */
  ghost predicate RanToFinalizers(e: Env, before: World, copy: CR, failed: bool, after: World, copy': CR)
    requires |before.past| > 0 && |after.past| > 0
  {
    Finish(e, Sys(before, Entry(e, copy))) ==
      if failed then Sys(after, Idle) else Finish(e, Sys(after, Finalize(e, copy')))
  }

  /** The finalizer half of the three `do` methods, which do not differ here. */
  method HandleFinalizer(c: Cluster, obj: CustomResource)
    requires c.Valid()
    modifies c, obj
    ensures c.Valid()
    ensures c.world == Finish(c.env, Sys(old(c.world), Finalize(c.env, old(obj.Value())))).world
  {
    var e := c.env;
    FinalizerCalls(e, c.world, obj.Value());
    if !obj.deleting {
      if Finalizer(e) !in obj.finalizers {
        obj.finalizers := obj.finalizers + [Finalizer(e)];
        c.Update(obj.Value());
      }
    } else {
      if Finalizer(e) in obj.finalizers {
        var found := c.LookupServiceAndCredentials();
        if !found { return; }
        var name := NameOf(e, obj.spec.json);
        if name.None? { return; }
        var reply := c.HttpDelete(name.value);
        if reply.Lost? { return; }
        obj.finalizers := Without(obj.finalizers, Finalizer(e));
        c.Update(obj.Value());
      }
    }
  }

  /** The calls of the finalizer stage of the step machine, in order. */
  lemma FinalizerCalls(e: Env, w: World, copy: CR)
    requires |w.past| > 0
    ensures Finish(e, Sys(w, Finalize(e, copy))).world ==
      if copy.deleting == (Finalizer(e) !in copy.finalizers) then w
      else if !copy.deleting then UpdateObject(e, w, copy.(finalizers := copy.finalizers + [Finalizer(e)]))
      else DeletionCalls(e, w, copy)
  {
    match Finalize(e, copy)
    case AddFinalizer(_) => Unfold(e, Sys(w, AddFinalizer(copy)));
    case LookupAgain(_) => FinishLookupAgain(e, w, copy);
    case _ =>
  }

  function DeletionCalls(e: Env, w: World, copy: CR): World
    requires |w.past| > 0
  {
    if !LookupFound(e, w) || NameOf(e, copy.spec.json).None? then Arrive(e, w)
    else RemovalCalls(e, Arrive(e, w), copy, NameOf(e, copy.spec.json).value)
  }

  function RemovalCalls(e: Env, w: World, copy: CR, name: string): World
    requires |w.past| > 0
  {
    var w1 := DeleteEntity(e, w, name);
    if ReplyOf(e, w).Lost? then w1
    else UpdateObject(e, w1, copy.(finalizers := Without(copy.finalizers, Finalizer(e))))
  }

  lemma FinishLookupAgain(e: Env, w: World, copy: CR)
    requires |w.past| > 0
    ensures Finish(e, Sys(w, LookupAgain(copy))).world == DeletionCalls(e, w, copy)
  {
    Unfold(e, Sys(w, LookupAgain(copy)));
    if LookupFound(e, w) && NameOf(e, copy.spec.json).Some? {
      FinishDelete(e, Arrive(e, w), copy, NameOf(e, copy.spec.json).value);
    }
  }

  lemma FinishDelete(e: Env, w: World, copy: CR, name: string)
    requires |w.past| > 0
    ensures Finish(e, Sys(w, Delete(copy, name))).world == RemovalCalls(e, w, copy, name)
  {
    var s := Sys(w, Delete(copy, name));
    Unfold(e, s);
    if !Step(e, s).pass.Idle? { Unfold(e, Step(e, s)); }
  }

  // ------------------------------------------------------------------ internal/schema_controller

  class SchemaReconciler {
    const cluster: Cluster

    constructor (cluster: Cluster)
      ensures this.cluster == cluster
    {
      this.cluster := cluster;
    }

    /** A 404 means absent; an existing schema without a record is adopted. */
    method CreateOrUpdate(obj: CustomResource) returns (failed: bool)
      requires cluster.Valid() && cluster.env.kind.Schema?
      modifies cluster, obj
      ensures cluster.Valid()
      ensures RanToFinalizers(cluster.env, old(cluster.world), old(obj.Value()), failed, cluster.world, obj.Value())
    {
      var e, k := cluster.env, cluster.env.kind;
      var name := NameOf(e, obj.spec.json);
      if name.None? { return true; }
      ghost var s := Sys(cluster.world, Get(obj.Value(), name.value));
      Unfold(e, s);
      var got := cluster.HttpGet(name.value);
      if got.Lost? { return true; }
      s := Step(e, s);
      if got.code == 404 {
        Unfold(e, s);
        var reply := cluster.HttpPost(name.value, obj.spec.json);
        if reply.Lost? { return true; }
        s := Step(e, s);
        if reply.code == 200 {
          var ok := MakePatchStatus(cluster, obj, Note(CreateSuccess(k), reply.body, CreateSuccess(k)));
          return !ok;
        } else {
          var ok := MakePatchStatus(cluster, obj, Note(CreateFail(k), reply.body, CreateFail(k)));
          return !ok;
        }
      } else if got.code == 200 {
        if obj.status.currentJson == "" {
          var ok := MakePatchStatus(cluster, obj, Note(CreateSuccess(k), got.body, UpdateSuccess(k)));
          if !ok { return true; }
          s := Sys(cluster.world, Compare(e, obj.Value(), name.value, got.body));
        }
        var same := IsEqualJson(e.codec, obj.status.currentJson, obj.spec.json);
        if same.None? { return true; }
        if !same.value {
          Unfold(e, s);
          var reply := cluster.HttpPut(name.value, obj.spec.json);
          if reply.Lost? { return true; }
          s := Step(e, s);
          if reply.code == 200 {
            var ok := MakePatchStatus(cluster, obj, Note(UpdateSuccess(k), reply.body, UpdateSuccess(k)));
            return !ok;
          } else {
            var ok := MakePatchStatus(cluster, obj, Note(UpdateFail(k), got.body, UpdateFail(k)));
            return !ok;
          }
        }
      }
      return false;
    }

    method Do(obj: CustomResource) returns (failed: bool)
      requires cluster.Valid() && cluster.env.kind.Schema?
      modifies cluster, obj
      ensures cluster.Valid()
      ensures cluster.world == Finish(cluster.env, Sys(old(cluster.world), Lookup(old(obj.Value())))).world
    {
      Unfold(cluster.env, Sys(cluster.world, Lookup(obj.Value())));
      var found := cluster.LookupServiceAndCredentials();
      if !found { return true; }
      failed := CreateOrUpdate(obj);
      if failed { return; }
      HandleFinalizer(cluster, obj);
    }

    /** One reconcile: read the object, then `Do`. An object that is not there ends the pass. */
    method Reconcile() returns (failed: bool)
      requires cluster.Valid() && cluster.env.kind.Schema?
      modifies cluster
      ensures cluster.Valid() && cluster.world == Protocol.Reconcile(cluster.env, old(cluster.world))
    {
      cluster.BeginPass();
      var read := cluster.Get();
      if read.None? { return false; }
      var obj := new CustomResource(read.value);
      failed := Do(obj);
    }
  }

  // ------------------------------------------------------------------ internal/table_controller

  class TableReconciler {
    const cluster: Cluster

    constructor (cluster: Cluster)
      ensures this.cluster == cluster
    {
      this.cluster := cluster;
    }

    /** The body `{}` means absent, whatever the status code. */
    method CreateOrUpdate(obj: CustomResource) returns (failed: bool)
      requires cluster.Valid() && cluster.env.kind.Table?
      modifies cluster, obj
      ensures cluster.Valid()
      ensures RanToFinalizers(cluster.env, old(cluster.world), old(obj.Value()), failed, cluster.world, obj.Value())
    {
      var e, k := cluster.env, cluster.env.kind;
      var name := NameOf(e, obj.spec.json);
      if name.None? { return true; }
      ghost var s := Sys(cluster.world, Get(obj.Value(), name.value));
      Unfold(e, s);
      var got := cluster.HttpGet(name.value);
      if got.Lost? { return true; }
      s := Step(e, s);
      if got.body == "{}" {
        Unfold(e, s);
        var reply := cluster.HttpPost(name.value, obj.spec.json);
        if reply.Lost? { return true; }
        s := Step(e, s);
        // A refused creation is reported with the success constant as well.
        var ok := MakePatchStatus(cluster, obj, Note(CreateSuccess(k), reply.body, CreateSuccess(k)));
        return !ok;
      } else {
        if obj.status.currentJson == "" {
          var ok := MakePatchStatus(cluster, obj, Note(CreateSuccess(k), got.body, CreateSuccess(k)));
          if !ok { return true; }
          s := Sys(cluster.world, Compare(e, obj.Value(), name.value, got.body));
        }
        var same := IsEqualJson(e.codec, obj.status.currentJson, obj.spec.json);
        if same.None? { return true; }
        if !same.value {
          Unfold(e, s);
          var reply := cluster.HttpPut(name.value, obj.spec.json);
          if reply.Lost? { return true; }
          s := Step(e, s);
          if reply.code == 200 {
            var ok := MakePatchStatus(cluster, obj, Note(UpdateSuccess(k), reply.body, UpdateSuccess(k)));
            return !ok;
          } else {
            var ok := MakePatchStatus(cluster, obj, Note(UpdateFail(k), reply.body, UpdateFail(k)));
            return !ok;
          }
        }
      }
      return false;
    }

    method Do(obj: CustomResource) returns (failed: bool)
      requires cluster.Valid() && cluster.env.kind.Table?
      modifies cluster, obj
      ensures cluster.Valid()
      ensures cluster.world == Finish(cluster.env, Sys(old(cluster.world), Lookup(old(obj.Value())))).world
    {
      Unfold(cluster.env, Sys(cluster.world, Lookup(obj.Value())));
      var found := cluster.LookupServiceAndCredentials();
      if !found { return true; }
      failed := CreateOrUpdate(obj);
      if failed { return; }
      HandleFinalizer(cluster, obj);
    }

    /** One reconcile: read the object, then `Do`. An object that is not there ends the pass. */
    method Reconcile() returns (failed: bool)
      requires cluster.Valid() && cluster.env.kind.Table?
      modifies cluster
      ensures cluster.Valid() && cluster.world == Protocol.Reconcile(cluster.env, old(cluster.world))
    {
      cluster.BeginPass();
      var read := cluster.Get();
      if read.None? { return false; }
      var obj := new CustomResource(read.value);
      failed := Do(obj);
    }
  }

  // ------------------------------------------------------------------ internal/tenant_controller

  class TenantReconciler {
    const cluster: Cluster

    constructor (cluster: Cluster)
      ensures this.cluster == cluster
    {
      this.cluster := cluster;
    }

    /** No adoption, and a refused update leaves the status alone. */
    method CreateOrUpdate(obj: CustomResource) returns (failed: bool)
      requires cluster.Valid() && cluster.env.kind.Tenant?
      modifies cluster, obj
      ensures cluster.Valid()
      ensures RanToFinalizers(cluster.env, old(cluster.world), old(obj.Value()), failed, cluster.world, obj.Value())
    {
      var e, k := cluster.env, cluster.env.kind;
      var name := NameOf(e, obj.spec.json);
      if name.None? { return true; }
      ghost var s := Sys(cluster.world, Get(obj.Value(), name.value));
      Unfold(e, s);
      var got := cluster.HttpGet(name.value);
      if got.Lost? { return true; }
      s := Step(e, s);
      if got.code == 404 {
        Unfold(e, s);
        var reply := cluster.HttpPost(name.value, obj.spec.json);
        if reply.Lost? { return true; }
        s := Step(e, s);
        if reply.code == 200 {
          var ok := MakePatchStatus(cluster, obj, Note(CreateSuccess(k), reply.body, CreateSuccess(k)));
          return !ok;
        } else {
          var ok := MakePatchStatus(cluster, obj, Note(CreateFail(k), reply.body, CreateFail(k)));
          return !ok;
        }
      } else if got.code == 200 {
        var same := IsEqualJson(e.codec, obj.status.currentJson, obj.spec.json);
        if same.None? { return true; }
        if !same.value {
          Unfold(e, s);
          var reply := cluster.HttpPut(name.value, obj.spec.json);
          if reply.Lost? { return true; }
          s := Step(e, s);
          if reply.code == 200 {
            var ok := MakePatchStatus(cluster, obj, Note(UpdateSuccess(k), reply.body, UpdateSuccess(k)));
            return !ok;
          } else {
            return false;
          }
        }
      }
      return false;
    }

    method Do(obj: CustomResource) returns (failed: bool)
      requires cluster.Valid() && cluster.env.kind.Tenant?
      modifies cluster, obj
      ensures cluster.Valid()
      ensures cluster.world == Finish(cluster.env, Sys(old(cluster.world), Lookup(old(obj.Value())))).world
    {
      Unfold(cluster.env, Sys(cluster.world, Lookup(obj.Value())));
      var found := cluster.LookupServiceAndCredentials();
      if !found { return true; }
      failed := CreateOrUpdate(obj);
      if failed { return; }
      HandleFinalizer(cluster, obj);
    }

    /** One reconcile: read the object, then `Do`. An object that is not there ends the pass. */
    method Reconcile() returns (failed: bool)
      requires cluster.Valid() && cluster.env.kind.Tenant?
      modifies cluster
      ensures cluster.Valid() && cluster.world == Protocol.Reconcile(cluster.env, old(cluster.world))
    {
      cluster.BeginPass();
      var read := cluster.Get();
      if read.None? { return false; }
      var obj := new CustomResource(read.value);
      failed := Do(obj);
    }
  }
}
