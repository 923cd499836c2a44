// setSyncing and setSynced over the API server (pkg/forwarder/status.go, pkg/gateway/status.go).
module AgentStatus {
  import opened Text
  import opened Api
  import opened Handshake

  /** One object in the API server; writes are compare-and-swap and fail while it is unreachable. */
  class Store<S(==)> {
    var obj: Obj<S>
    var reachable: bool

    constructor (obj: Obj<S>)
      ensures this.obj == obj && reachable
    {
      this.obj := obj;
      reachable := true;
    }

    method Get() returns (c: Obj<S>, ok: bool)
      ensures ok ==> c == obj
      ensures reachable ==> ok
    {
      c := obj;
      ok := reachable;
    }

    /** The typed UpdateStatus: it leaves the caller's copy alone. */
    method UpdateStatus(c: Obj<S>) returns (ok: bool)
      modifies this`obj
      ensures ok ==> PutStatus(old(obj), c.version, c.status) == Some(obj)
      ensures !ok ==> obj == old(obj)
      ensures reachable ==> (ok <==> c.version == old(obj).version)
    {
      ok := false;
      if reachable && c.version == obj.version {
        obj := if c.status == obj.status then obj else Obj(obj.version + 1, obj.spec, c.status);
        ok := true;
      }
    }
  }

  /** The agent's copy of an object, whose status the functions below change in place */
  class Local<S(==)> {
    var obj: Obj<S>

    constructor (obj: Obj<S>)
      ensures this.obj == obj
    {
      this.obj := obj;
    }

    /** Conditions.SetCondition for the Syncing condition: true if that changed anything */
    method SetSyncingCondition(value: Condition) returns (changed: bool)
      modifies this
      ensures changed <==> old(obj).status.syncing != value
      ensures obj == old(obj).(status := old(obj).status.(syncing := value))
    {
      changed := obj.status.syncing != value;
      obj := obj.(status := obj.status.(syncing := value));
    }

    /** setSyncing: the copy gets the condition but keeps the version it was read at */
    method SetSyncing(store: Store<S>) returns (ok: bool)
      modifies this, store`obj
      ensures obj == old(obj).(status := Syncing(old(obj).status))
      ensures old(obj).status.syncing == IsTrue ==> ok && store.obj == old(store.obj)
      ensures old(obj).status.syncing != IsTrue && ok ==>
                PutStatus(old(store.obj), old(obj).version, Syncing(old(obj).status)) == Some(store.obj)
      ensures !ok ==> store.obj == old(store.obj)
      ensures store.reachable && old(obj).version == old(store.obj).version ==> ok
    {
      var changed := SetSyncingCondition(IsTrue);
      ok := true;
      if changed {
        ok := store.UpdateStatus(obj);
      }
    }

    /** setSynced */
    method SetSynced(store: Store<S>) returns (ok: bool)
      modifies this, store`obj
      ensures old(obj).status.syncing == IsFalse ==> ok && store.obj == old(store.obj)
      ensures old(obj).status.syncing != IsFalse && ok ==>
                PutStatus(old(store.obj), old(obj).version, SyncedStatus(old(obj).status)) == Some(store.obj)
      ensures !ok ==> store.obj == old(store.obj)
      ensures store.reachable && old(obj).status.syncing != IsFalse ==>
                (ok <==> old(obj).version == old(store.obj).version)
    {
      var changed := SetSyncingCondition(IsFalse);
      ok := true;
      if changed {
        obj := obj.(status := obj.status.(syncGeneration := obj.status.ruleGeneration));
        ok := store.UpdateStatus(obj);
      }
    }
  }
}
