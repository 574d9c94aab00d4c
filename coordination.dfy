/**
 * The Redis coordination store shared by every node: a table of held locks,
 * each with its time-to-live in seconds, and the cluster topic that messages
 * are published on. When Redis is switched off nothing is published.
 * Whether the lock helpers hand out a lock object at all is a separate
 * input: their callers allow for a null lock.
 */
module Coordination {
  import opened Base
  import opened Records

  /** A lock key: a (kind, name, scope) name lock, or a literal key string. */
  datatype LockKey =
    | NameKey(entity: Entity, name: string, scope: Option<int>)
    | RawKey(key: string)

  /** The subscriber a message is addressed to. */
  datatype Handler = CronJobHandler | SourceHandler

  datatype Payload = StopJob(job: CronJob) | ReleaseSource(key: ConnectionKey)

  /** What is published on the cluster topic: handler, payload and flag. */
  datatype Message = Message(handler: Handler, payload: Payload, flag: string)

  class Store {
    /** Whether Redis is configured. */
    const enabled: bool
    /** Whether the lock helpers return a lock object (otherwise null). */
    const locking: bool
    /** The time-to-live of a name lock. */
    const nameLockTtl: nat
    var held: map<LockKey, nat>
    var published: seq<Message>

    constructor (enabled: bool, locking: bool, nameLockTtl: nat)
      ensures this.enabled == enabled && this.locking == locking && this.nameLockTtl == nameLockTtl
      ensures held == map[] && published == []
    {
      this.enabled := enabled;
      this.locking := locking;
      this.nameLockTtl := nameLockTtl;
      held := map[];
      published := [];
    }

    /** The name lock for an entity; absent (a null lock) when the helper hands out none. */
    function NameLock(entity: Entity, name: string, scope: Option<int>): Option<LockKey> {
      if locking then Some(NameKey(entity, name, scope)) else None
    }

    /** Atomic set-if-absent: succeeds exactly when nobody holds the key. */
    method TryLock(key: LockKey, ttl: nat) returns (acquired: bool)
      modifies this`held
      ensures acquired <==> key !in old(held)
      ensures held == if acquired then old(held)[key := ttl] else old(held)
    {
      acquired := key !in held;
      if acquired {
        held := held[key := ttl];
      }
    }

    /** The services' `lock == null || lock.getLock()`: a null lock lets the caller proceed. */
    method Acquire(lock: Option<LockKey>) returns (acquired: bool)
      modifies this`held
      ensures acquired <==> lock.None? || lock.value !in old(held)
      ensures held == if lock.Some? && acquired then old(held)[lock.value := nameLockTtl] else old(held)
    {
      if lock.None? {
        acquired := true;
      } else {
        acquired := TryLock(lock.value, nameLockTtl);
      }
    }

    /** releaseLock: deletes the key; a null lock is ignored. */
    method Release(lock: Option<LockKey>)
      modifies this`held
      ensures held == if lock.Some? then old(held) - {lock.value} else old(held)
    {
      if lock.Some? {
        held := held - {lock.value};
      }
    }

    method Publish(m: Message)
      modifies this`published
      ensures published == old(published) + [m]
    {
      published := published + [m];
    }
  }

  /** Acquiring a free key and then releasing it leaves the lock table as it was. */
  lemma AcquireThenReleaseRestores(held: map<LockKey, nat>, key: LockKey, ttl: nat)
    requires key !in held
    ensures held[key := ttl] - {key} == held
  {
    assert (held[key := ttl] - {key}).Keys == held.Keys;
  }
}
