/** The client module with its own maps. Every method is one stretch of code
    between two awaits; it changes one key as the view function of the same
    name says and leaves every other key alone. */
module RecoveryClient {
  import opened Common
  import V = RecoveryView

  predicate IsOpening(key: string) {
    |key| >= 8 && key[..8] == "opening:"
  }

  class RecoveryStore {
    var cache: map<string, V.Snapshot>
    var loads: map<string, nat>
    var saves: map<string, V.Loop>
    var versions: map<string, nat>
    // The world around them: load requests without an answer, queued
    // microtasks, the browser's storage, and the identities handed out.
    var running: map<string, map<nat, V.Snapshot>>
    var microtasks: map<string, seq<V.Value>>
    var storage: map<string, V.Browser>
    var made: map<string, nat>

    ghost function At(key: string): V.View
      reads this
    {
      V.View(IsOpening(key), Find(cache, key), Find(loads, key), FindOr(running, key, map[]),
             FindOr(saves, key, V.Idle), Find(versions, key), FindOr(microtasks, key, []),
             FindOr(storage, key, V.Readable(None)), FindOr(made, key, 0))
    }

    constructor ()
      ensures forall key :: At(key) == V.NewView(IsOpening(key), V.Readable(None))
    {
      cache, loads, saves, versions := map[], map[], map[], map[];
      running, microtasks, storage, made := map[], map[], map[], map[];
    }

    method Number(key: string) returns (n: nat)
      modifies this`made
      ensures n == old(At(key)).made && At(key) == old(At(key)).(made := n + 1)
      ensures forall k :: k != key ==> At(k) == old(At(k))
    {
      n := FindOr(made, key, 0);
      made := made[key := n + 1];
    }

    method RecoverySnapshot(key: string) returns (snapshot: V.Snapshot)
      modifies this
      ensures At(key) == V.Read(old(At(key))) && At(key).cache == Some(snapshot)
      ensures forall k :: k != key ==> At(k) == old(At(k))
    {
      if key !in cache {
        var n := Number(key);
        match FindOr(storage, key, V.Readable(None)) {
          case Readable(value) =>
            if V.ValidValue(value) {
              cache := cache[key := V.Snapshot(n, value, V.Clear, false, false)];
            } else {
              cache := cache[key := V.Snapshot(n, None, V.BrowserUnreadable, false, false)];
            }
          case Unreadable =>
            cache := cache[key := V.Snapshot(n, None, V.BrowserUnreadable, false, false)];
        }
      }
      snapshot := cache[key];
    }

    method SetCache(key: string, value: V.Value, notice: V.Notice, saving: bool, ready: bool)
      modifies this`cache, this`made
      ensures var v := old(At(key));
        At(key) == v.(cache := Some(V.Snapshot(v.made, value, notice, saving, ready)), made := v.made + 1)
      ensures forall k :: k != key ==> At(k) == old(At(k))
    {
      var n := Number(key);
      cache := cache[key := V.Snapshot(n, value, notice, saving, ready)];
    }

    method BrowserCopy(key: string, value: V.Value, fails: bool)
      modifies this`storage
      ensures At(key) == if fails then old(At(key)) else old(At(key)).(browser := V.Readable(value))
      ensures forall k :: k != key ==> At(k) == old(At(k))
    {
      if !fails { storage := storage[key := V.Readable(value)]; }
    }

    method QueueMicrotask(key: string, value: V.Value)
      modifies this`microtasks
      ensures At(key) == old(At(key)).(queued := old(At(key)).queued + [value])
      ensures forall k :: k != key ==> At(k) == old(At(k))
    {
      microtasks := microtasks[key := FindOr(microtasks, key, []) + [value]];
    }

    method Settle(key: string, load: nat)
      requires load in At(key).running
      modifies this`running
      ensures At(key) == old(At(key)).(running := old(At(key)).running - {load})
      ensures forall k :: k != key ==> At(k) == old(At(k))
    {
      running := running[key := running[key] - {load}];
    }

    /** `hydrateRecovery` up to its fetch. */
    method HydrateRecovery(key: string)
      modifies this
      ensures At(key) == V.Hydrate(old(At(key)))
      ensures forall k :: k != key ==> At(k) == old(At(k))
    {
      if IsOpening(key) || key in loads { return; }
      var original := RecoverySnapshot(key);
      var promise := Number(key);
      running := running[key := FindOr(running, key, map[])[promise := original]];
      loads := loads[key := promise];
    }

    method KeepLoaded(key: string, kept: V.Value, found: bool, copyFails: bool)
      modifies this
      ensures var u := old(At(key));
        At(key) == u.(
          cache := Some(V.Snapshot(u.made, kept, V.Clear, false, true)),
          made := u.made + 1,
          browser := if copyFails then u.browser else V.Readable(kept),
          queued := if !found && kept.Some? then u.queued + [kept] else u.queued)
      ensures forall k :: k != key ==> At(k) == old(At(k))
    {
      SetCache(key, kept, V.Clear, false, true);
      BrowserCopy(key, kept, copyFails);
      if !found && kept.Some? {
        QueueMicrotask(key, kept);
      }
    }

    method MarkReady(key: string)
      modifies this
      ensures var t := V.Read(old(At(key)));
        At(key) == t.(cache := Some(t.cache.value.(ready := true, stamp := t.made)), made := t.made + 1)
      ensures forall k :: k != key ==> At(k) == old(At(k))
    {
      var current := RecoverySnapshot(key);
      SetCache(key, current.value, current.notice, current.saving, true);
    }

    /** The rest of `hydrateRecovery` when the engine answered. */
    method LoadAnswered(key: string, load: nat, found: bool, value: V.Value, revision: nat, copyFails: bool)
      requires load in At(key).running
      modifies this
      ensures At(key) == V.LoadAnswered(old(At(key)), load, found, value, revision, copyFails)
      ensures forall k :: k != key ==> At(k) == old(At(k))
    {
      if !V.ValidValue(value) {
        LoadFailed(key, load);
        return;
      }
      var original := running[key][load];
      Settle(key, load);
      versions := versions[key := revision];
      ghost var u := old(At(key)).(running := old(At(key)).running - {load}, version := Some(revision));
      assert At(key) == u;
      if key in cache && cache[key].stamp == original.stamp && !original.saving {
        KeepLoaded(key, if found then value else original.value, found, copyFails);
      } else {
        MarkReady(key);
      }
    }

    method LoadFailed(key: string, load: nat)
      requires load in At(key).running
      modifies this
      ensures At(key) == V.LoadFailed(old(At(key)), load)
      ensures forall k :: k != key ==> At(k) == old(At(k))
    {
      Settle(key, load);
      var current := RecoverySnapshot(key);
      SetCache(key, current.value, V.Unchecked, current.saving, true);
    }

    /** `persist` up to its first await: one loop a key at a time. */
    method Persist(key: string)
      modifies this
      ensures At(key) == V.Persist(old(At(key)))
      ensures !old(At(key)).loop.Idle? ==> At(key) == old(At(key))
      ensures forall k :: k != key ==> At(k) == old(At(k))
    {
      if FindOr(saves, key, V.Idle) != V.Idle { return; }
      HydrateRecovery(key);
      saves := saves[key := V.Waiting(if IsOpening(key) then None else Find(loads, key))];
    }

    method SaveFailed(key: string)
      modifies this
      ensures At(key) == V.Failed(old(At(key)))
      ensures forall k :: k != key ==> At(k) == old(At(k))
    {
      var current := RecoverySnapshot(key);
      SetCache(key, current.value, V.NotSaved, false, current.ready);
    }

    /** The `while` test and what follows it up to the next await or the end. A
        turn without a recorded version fails at once, which ends the loop. */
    method LoopHead(key: string)
      modifies this
      ensures At(key) == V.Head(old(At(key)))
      ensures forall k :: k != key ==> At(k) == old(At(k))
    {
      var snapshot := RecoverySnapshot(key);
      if !snapshot.saving {
        saves := saves[key := V.Idle];
        return;
      }
      if key !in versions {
        SaveFailed(key);
        saves := saves[key := V.Idle];
        return;
      }
      var request := Number(key);
      saves := saves[key := V.Posting(snapshot, versions[key], request)];
    }

    method PostAccepted(key: string, revision: nat)
      requires At(key).loop.Posting?
      modifies this
      ensures At(key) == V.PostAccepted(old(At(key)), revision)
      ensures forall k :: k != key ==> At(k) == old(At(k))
    {
      var snapshot := saves[key].snapshot;
      versions := versions[key := revision];
      if key in cache && cache[key].stamp == snapshot.stamp {
        SetCache(key, snapshot.value, V.Clear, false, true);
      }
      LoopHead(key);
    }

    method PostFailed(key: string)
      requires At(key).loop.Posting?
      modifies this
      ensures At(key) == V.PostFailed(old(At(key)))
      ensures forall k :: k != key ==> At(k) == old(At(k))
    {
      SaveFailed(key);
      LoopHead(key);
    }

    method WriteRecovery(key: string, value: V.Value, copyFails: bool) returns (accepted: bool)
      modifies this
      ensures accepted == V.ValidValue(value)
      ensures At(key) == V.Write(old(At(key)), value, copyFails)
      ensures forall k :: k != key ==> At(k) == old(At(k))
    {
      if !V.ValidValue(value) { return false; }
      var previous := RecoverySnapshot(key);
      BrowserCopy(key, value, copyFails);
      SetCache(key, value, if copyFails then V.BrowserUnavailable else V.Clear, true, previous.ready);
      Persist(key);
      return true;
    }

    method RunMicrotask(key: string, copyFails: bool)
      requires At(key).queued != []
      modifies this
      ensures At(key) == V.RunQueued(old(At(key)), copyFails)
      ensures forall k :: k != key ==> At(k) == old(At(k))
    {
      var value := microtasks[key][0];
      microtasks := microtasks[key := microtasks[key][1..]];
      var _ := WriteRecovery(key, value, copyFails);
    }

    method InvalidateRecovery(key: string)
      modifies this
      ensures At(key) == V.Invalidate(old(At(key)))
      ensures forall k :: k != key ==> At(k) == old(At(k))
    {
      cache := cache - {key};
      loads := loads - {key};
      versions := versions - {key};
    }

    method InvalidateEverything()
      modifies this
      ensures forall k :: At(k) == V.Invalidate(old(At(k)))
    {
      cache, loads, versions := map[], map[], map[];
    }

    method OnStorageEvent(key: string)
      modifies this
      ensures At(key) == V.StorageEvent(old(At(key)))
      ensures forall k :: k != key ==> At(k) == old(At(k))
    {
      if key !in cache { InvalidateRecovery(key); }
    }
  }
}
