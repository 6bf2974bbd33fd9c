/**
The in-memory counter store: fixed-window counters and concurrency slots, each call
one critical section. `Store` is the value a critical section maps to a new value;
`MemoryCounterStore` is the object that holds it and is updated in place.
 */
module MemoryCounters {
  import opened Common

  /** A window counter is addressed by (key, window length, bucket number). */
  type WindowKey = (string, nat, nat)

  datatype Store = Store(windows: map<WindowKey, int>, concurrency: map<string, nat>) {
    function Window(k: WindowKey): int {
      if k in windows then windows[k] else 0
    }

    function Slots(key: string): nat {
      if key in concurrency then concurrency[key] else 0
    }
  }

  const EMPTY := Store(map[], map[])

  /** `now / window_ms.max(1)`. */
  function Bucket(now: nat, windowMs: nat): nat {
    now / Max(windowMs, 1)
  }

  function Incremented(st: Store, key: string, windowMs: nat, now: nat, amount: int): Store {
    var k := (key, windowMs, Bucket(now, windowMs));
    st.(windows := st.windows[k := st.Window(k) + amount])
  }

  predicate CanAcquire(st: Store, key: string, max: nat) {
    st.Slots(key) < max
  }

  function Acquired(st: Store, key: string, max: nat): Store {
    st.(concurrency := st.concurrency[key := st.Slots(key) + if CanAcquire(st, key, max) then 1 else 0])
  }

  /** `saturating_sub(1)` on a present entry, nothing on an absent one. */
  function Released(st: Store, key: string): Store {
    if key in st.concurrency then
      st.(concurrency := st.concurrency[key := if st.concurrency[key] > 0 then st.concurrency[key] - 1 else 0])
    else
      st
  }

  class MemoryCounterStore {
    var windows: map<WindowKey, int>
    var concurrency: map<string, nat>

    constructor ()
      ensures State() == EMPTY
    {
      windows, concurrency := map[], map[];
    }

    function State(): Store
      reads this
    {
      Store(windows, concurrency)
    }

    method IncrWindow(key: string, windowMs: nat, now: nat, amount: int) returns (count: int)
      modifies this
      ensures State() == Incremented(old(State()), key, windowMs, now, amount)
      ensures count == State().Window((key, windowMs, Bucket(now, windowMs)))
    {
      var k := (key, windowMs, Bucket(now, windowMs));
      if k !in windows {
        windows := windows[k := 0];
      }
      windows := windows[k := windows[k] + amount];
      count := windows[k];
    }

    /** A permit for one slot, or none when the cap is reached. */
    method TryAcquireConcurrency(key: string, max: nat) returns (permit: Option<ConcurrencyPermit>)
      modifies this
      ensures State() == Acquired(old(State()), key, max)
      ensures permit.Some? <==> CanAcquire(old(State()), key, max)
      ensures permit.Some? ==> State().Slots(key) == old(State()).Slots(key) + 1 <= max
      ensures permit.None? ==> State().Slots(key) == old(State()).Slots(key) >= max
      ensures permit.Some? ==>
                && fresh(permit.value) && permit.value.armed
                && permit.value.store == this && permit.value.key == key
    {
      if key !in concurrency {
        concurrency := concurrency[key := 0];
      }
      if concurrency[key] >= max {
        return None;
      }
      concurrency := concurrency[key := concurrency[key] + 1];
      var p := new ConcurrencyPermit(this, key);
      permit := Some(p);
    }

    method Release(key: string)
      modifies this
      ensures State() == Released(old(State()), key)
    {
      if key in concurrency {
        concurrency := concurrency[key := if concurrency[key] > 0 then concurrency[key] - 1 else 0];
      }
    }
  }

  /** A held slot. Dropping it runs the release at most once, however often it is dropped. */
  class ConcurrencyPermit {
    const store: MemoryCounterStore
    const key: string
    var armed: bool

    constructor (store: MemoryCounterStore, key: string)
      ensures this.store == store && this.key == key && armed
    {
      this.store, this.key, armed := store, key, true;
    }

    method Drop()
      modifies this`armed, store
      ensures !armed
      ensures store.State() == if old(armed) then Released(old(store.State()), key) else old(store.State())
    {
      if armed {
        armed := false;
        store.Release(key);
      }
    }
  }

  /** A bucket is a stretch of the clock as long as the window, which is at least a millisecond. */
  lemma BucketSpan(now: nat, windowMs: nat)
    ensures windowMs > 0 ==> Bucket(now, windowMs) * windowMs <= now < (Bucket(now, windowMs) + 1) * windowMs
    ensures Bucket(now, 0) == now && Bucket(now, 1) == now
  {
    if windowMs > 0 {
      Quotient(now, windowMs);
    }
  }

  lemma Quotient(n: nat, d: nat)
    requires d > 0
    ensures n / d * d <= n < (n / d + 1) * d
  {
  }
}
