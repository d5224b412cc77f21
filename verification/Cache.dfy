/** The write-back cache over a provider, as values: what each cache operation does to the cached
    entries, what the cache shows to a reader, and what a flush makes of the provider. */
module Cache {
  import opened Types
  import opened Chain

  datatype Slot = Slot(value: H256, dirty: bool)

  datatype Entry = Entry(nonce: U256, balance: U256, code: Bytes, storage: map<H256, Slot>, dirty: bool)

  type Entries = map<Address, Entry>

  /** `AccountInfo::new` takes nonce and balance in this order, and is called with them the other
      way round, so a cached entry holds the provider's balance as nonce and its nonce as balance. */
  function Loaded(world: World, a: Address): Entry {
    if a in world
    then Entry(world[a].balance, world[a].nonce, world[a].code, map[], false)
    else Entry(0, 1, [], map[], false)
  }

  function WithAccount(cache: Entries, world: World, a: Address): (r: Entries)
    ensures a in r
  {
    if a in cache then cache else cache[a := Loaded(world, a)]
  }

  function WithSlot(cache: Entries, world: World, a: Address, k: H256): (r: Entries)
    ensures a in r
  {
    var c := WithAccount(cache, world, a);
    if k in c[a].storage || k !in StorageOf(world, a) then c
    else c[a := c[a].(storage := c[a].storage[k := Slot(StorageOf(world, a)[k], false)])]
  }

  function WithWrite(cache: Entries, world: World, a: Address, k: H256, v: H256): (r: Entries)
    ensures a in r
  {
    var c := WithAccount(cache, world, a);
    c[a := c[a].(storage := c[a].storage[k := Slot(v, true)])]
  }

  function WithCode(cache: Entries, world: World, a: Address, code: Bytes): (r: Entries)
    ensures a in r
  {
    var c := WithAccount(cache, world, a);
    c[a := c[a].(code := code, dirty := true)]
  }

  predicate HasSlot(cache: Entries, a: Address, k: H256) {
    a in cache && k in cache[a].storage
  }

  predicate IsDirty(cache: Entries, a: Address, k: H256) {
    HasSlot(cache, a, k) && cache[a].storage[k].dirty
  }

  /** What a read returns once the slot has been looked up: the cached value, or zero. */
  function CachedValue(cache: Entries, a: Address, k: H256): H256 {
    if HasSlot(cache, a, k) then cache[a].storage[k].value else ZERO_HASH
  }

  /** What a reader of the cache sees: the cached value, else the provider's, else zero. */
  function View(cache: Entries, world: World, a: Address, k: H256): H256 {
    if HasSlot(cache, a, k) then cache[a].storage[k].value else ReadSlot(StorageOf(world, a), k)
  }

  /** An entry not marked dirty has the code the provider has. */
  predicate CleanAccount(cache: Entries, world: World, a: Address) {
    a in cache ==>
      && cache[a].nonce == Loaded(world, a).nonce && cache[a].balance == Loaded(world, a).balance
      && (!cache[a].dirty ==> cache[a].code == Loaded(world, a).code)
  }

  /** A slot not marked dirty has the value the provider has. */
  predicate CleanSlot(cache: Entries, world: World, a: Address, k: H256) {
    HasSlot(cache, a, k) && !IsDirty(cache, a, k) ==>
      k in StorageOf(world, a) && cache[a].storage[k].value == StorageOf(world, a)[k]
  }

  /** What is clean is what the provider has. */
  ghost predicate Coherent(cache: Entries, world: World) {
    && (forall a :: CleanAccount(cache, world, a))
    && (forall a, k :: CleanSlot(cache, world, a, k))
  }

  datatype CacheOp =
    | ReadOp(address: Address, key: H256)
    | WriteOp(address: Address, key: H256, value: H256)
    | CodeOp(address: Address, code: Bytes)

  function RunOp(cache: Entries, world: World, op: CacheOp): Entries {
    match op
    case ReadOp(a, k) => WithSlot(cache, world, a, k)
    case WriteOp(a, k, v) => WithWrite(cache, world, a, k, v)
    case CodeOp(a, code) => WithCode(cache, world, a, code)
  }

  /** The cache after `ops`, starting empty. */
  function RunOps(world: World, ops: seq<CacheOp>): Entries {
    if ops == [] then map[] else RunOp(RunOps(world, ops[..|ops| - 1]), world, ops[|ops| - 1])
  }

  /** The last value written to a slot. */
  function LastWrite(ops: seq<CacheOp>, a: Address, k: H256): Option<H256> {
    if ops == [] then None else
    var op := ops[|ops| - 1];
    if op.WriteOp? && op.address == a && op.key == k then Some(op.value) else LastWrite(ops[..|ops| - 1], a, k)
  }

  function LastCode(ops: seq<CacheOp>, a: Address): Option<Bytes> {
    if ops == [] then None else
    var op := ops[|ops| - 1];
    if op.CodeOp? && op.address == a then Some(op.code) else LastCode(ops[..|ops| - 1], a)
  }

  lemma StepCleanAccount(cache: Entries, world: World, op: CacheOp, a: Address)
    requires CleanAccount(cache, world, a)
    ensures CleanAccount(RunOp(cache, world, op), world, a)
  {
  }

  /** A slot changes only by a write, or by being looked up while it is not cached. */
  lemma StepSlot(cache: Entries, world: World, op: CacheOp, a: Address, k: H256)
    ensures var after := RunOp(cache, world, op);
      if op.WriteOp? && op.address == a && op.key == k then
        HasSlot(after, a, k) && after[a].storage[k] == Slot(op.value, true)
      else if HasSlot(cache, a, k) then
        HasSlot(after, a, k) && after[a].storage[k] == cache[a].storage[k]
      else if op == ReadOp(a, k) && k in StorageOf(world, a) then
        HasSlot(after, a, k) && after[a].storage[k] == Slot(StorageOf(world, a)[k], false)
      else !HasSlot(after, a, k)
  {
  }

  lemma StepIsCoherent(cache: Entries, world: World, op: CacheOp)
    requires Coherent(cache, world)
    ensures Coherent(RunOp(cache, world, op), world)
  {
    forall a ensures CleanAccount(RunOp(cache, world, op), world, a) {
      StepCleanAccount(cache, world, op, a);
    }
    forall a, k ensures CleanSlot(RunOp(cache, world, op), world, a, k) {
      assert CleanSlot(cache, world, a, k);
      StepSlot(cache, world, op, a, k);
    }
  }

  lemma StepView(cache: Entries, world: World, op: CacheOp, a: Address, k: H256)
    ensures var wrote := op.WriteOp? && op.address == a && op.key == k;
      && View(RunOp(cache, world, op), world, a, k) == (if wrote then op.value else View(cache, world, a, k))
      && (IsDirty(RunOp(cache, world, op), a, k) <==> wrote || IsDirty(cache, a, k))
  {
    StepSlot(cache, world, op, a, k);
  }

  /** A lookup caches at most a clean slot, and then reads what was there to see. */
  lemma LookupReadsView(cache: Entries, world: World, a: Address, k: H256)
    ensures CachedValue(WithSlot(cache, world, a, k), a, k) == View(cache, world, a, k)
  {
  }

  /** Over any sequence of operations a read returns the last value written, else the provider's,
      else zero; dirty is exactly what was written; clean is exactly the provider's. */
  lemma {:induction false} CacheCoherence(world: World, ops: seq<CacheOp>, a: Address, k: H256)
    ensures Coherent(RunOps(world, ops), world)
    ensures CachedValue(RunOps(world, ops + [ReadOp(a, k)]), a, k)
         == match LastWrite(ops, a, k) case Some(v) => v case None => ReadSlot(StorageOf(world, a), k)
    ensures IsDirty(RunOps(world, ops), a, k) <==> LastWrite(ops, a, k).Some?
  {
    ViewAfter(world, ops, a, k);
    assert (ops + [ReadOp(a, k)])[..|ops|] == ops;
    LookupReadsView(RunOps(world, ops), world, a, k);
  }

  lemma {:induction false} ViewAfter(world: World, ops: seq<CacheOp>, a: Address, k: H256)
    ensures Coherent(RunOps(world, ops), world)
    ensures View(RunOps(world, ops), world, a, k)
         == match LastWrite(ops, a, k) case Some(v) => v case None => ReadSlot(StorageOf(world, a), k)
    ensures IsDirty(RunOps(world, ops), a, k) <==> LastWrite(ops, a, k).Some?
  {
    if ops != [] {
      var before := ops[..|ops| - 1];
      ViewAfter(world, before, a, k);
      StepIsCoherent(RunOps(world, before), world, ops[|ops| - 1]);
      StepView(RunOps(world, before), world, ops[|ops| - 1], a, k);
    }
  }

  /** The code of an account changes only by being set; an account newly cached is not dirty. */
  lemma StepCode(cache: Entries, world: World, op: CacheOp, a: Address)
    ensures var after := RunOp(cache, world, op);
      if op.CodeOp? && op.address == a then a in after && after[a].dirty && after[a].code == op.code
      else if a in cache then a in after && after[a].dirty == cache[a].dirty && after[a].code == cache[a].code
      else a in after ==> !after[a].dirty
  {
  }

  /** An account is dirty exactly when code was set on it, and then holds the code set last. */
  lemma {:induction false} CodeAfter(world: World, ops: seq<CacheOp>, a: Address)
    ensures var cache := RunOps(world, ops);
      match LastCode(ops, a)
      case Some(code) => a in cache && cache[a].dirty && cache[a].code == code
      case None => a in cache ==> !cache[a].dirty
  {
    if ops != [] {
      var before := ops[..|ops| - 1];
      CodeAfter(world, before, a);
      StepCode(RunOps(world, before), world, ops[|ops| - 1], a);
    }
  }

  // ----- flushing -----

  /** The slots of `entry` that are dirty, among `keys`. */
  function DirtyAmong(entry: Entry, keys: set<H256>): Slots {
    map k | k in entry.storage && k in keys && entry.storage[k].dirty :: entry.storage[k].value
  }

  function DirtySlots(entry: Entry): Slots {
    DirtyAmong(entry, entry.storage.Keys)
  }

  /** Flushing the entry of `a` finds or makes an account for every dirty slot. */
  predicate Flushable(world: World, cache: Entries, a: Address)
    requires a in cache
  {
    DirtySlots(cache[a]) == map[] || a in world || cache[a].dirty
  }

  predicate AllFlushable(world: World, cache: Entries) {
    forall a | a in cache :: Flushable(world, cache, a)
  }

  /** The account record a flush leaves at `a`. An account that exists keeps its code; its balance
      and nonce become those of the cached entry. */
  function FlushedRecord(world: World, cache: Entries, a: Address): Record
    requires a in cache && (a in world || cache[a].dirty)
  {
    var entry := cache[a];
    var base :=
      if a !in world then Record(0, 0, entry.code, map[])
      else if entry.dirty then world[a].(balance := entry.balance, nonce := entry.nonce)
      else world[a];
    base.(storage := base.storage + DirtySlots(entry))
  }

  /** The provider after flushing the entries at the addresses in `done`. */
  function FlushedOn(world: World, cache: Entries, done: set<Address>): World {
    map a | a in world.Keys + (set b | b in done && b in cache && cache[b].dirty) ::
      if a in done && a in cache then FlushedRecord(world, cache, a) else world[a]
  }

  function Flushed(world: World, cache: Entries): World {
    FlushedOn(world, cache, cache.Keys)
  }

  /** After a flush the provider's storage is the old one overridden by the dirty slots, and every
      slot reads through the provider as it read through the cache. */
  lemma FlushPublishesView(world: World, cache: Entries)
    requires Coherent(cache, world) && AllFlushable(world, cache)
    ensures forall a | a in cache :: StorageOf(Flushed(world, cache), a) == StorageOf(world, a) + DirtySlots(cache[a])
    ensures forall a | a !in cache :: StorageOf(Flushed(world, cache), a) == StorageOf(world, a)
    ensures forall a, k :: ReadSlot(StorageOf(Flushed(world, cache), a), k) == View(cache, world, a, k)
  {
    forall a | a in cache
      ensures StorageOf(Flushed(world, cache), a) == StorageOf(world, a) + DirtySlots(cache[a])
    {
      assert a in world || !cache[a].dirty ==> a in world || DirtySlots(cache[a]) == map[];
    }
    forall a, k ensures ReadSlot(StorageOf(Flushed(world, cache), a), k) == View(cache, world, a, k) {
      assert CleanSlot(cache, world, a, k);
      if a in cache {
        assert StorageOf(Flushed(world, cache), a) == StorageOf(world, a) + DirtySlots(cache[a]);
        assert k in DirtySlots(cache[a]) <==> IsDirty(cache, a, k);
      }
    }
  }

  /** One visit of the outer loop: an address, and the order in which its slots come up. */
  datatype Visit = Visit(address: Address, keys: seq<H256>)

  function FlushAccount(world: World, a: Address, entry: Entry): Result<World> {
    if !entry.dirty then Ok(world)
    else if a !in world then ApplyToWorld(world, CreateContract(a, entry.code))
    else ApplyToWorld(world, UpdateAccount(a, entry.balance, entry.nonce))
  }

  function FlushSlots(world: World, a: Address, entry: Entry, keys: seq<H256>): Result<World> {
    if keys == [] then Ok(world) else
    match FlushSlots(world, a, entry, keys[..|keys| - 1])
    case Err(e) => Err(e)
    case Ok(w) =>
      var k := keys[|keys| - 1];
      if k in entry.storage && entry.storage[k].dirty
      then ApplyToWorld(w, SetStorage(a, k, entry.storage[k].value)) else Ok(w)
  }

  function FlushVisit(world: World, cache: Entries, visit: Visit): Result<World> {
    if visit.address !in cache then Ok(world) else
    var entry := cache[visit.address];
    match FlushAccount(world, visit.address, entry)
    case Err(e) => Err(e)
    case Ok(w) => FlushSlots(w, visit.address, entry, visit.keys)
  }

  /** The nested loop of the flush, for one order of the two hash maps. */
  function FlushInOrder(world: World, cache: Entries, visits: seq<Visit>): Result<World> {
    if visits == [] then Ok(world) else
    match FlushInOrder(world, cache, visits[..|visits| - 1])
    case Err(e) => Err(e)
    case Ok(w) => FlushVisit(w, cache, visits[|visits| - 1])
  }

  function KeySet(keys: seq<H256>): set<H256> {
    set k | k in keys
  }

  function Visited(visits: seq<Visit>): set<Address> {
    set i | 0 <= i < |visits| :: visits[i].address
  }

  /** The visits so far are of different cached addresses, each with all its slots. */
  ghost predicate Partial(cache: Entries, visits: seq<Visit>) {
    && (forall i, j | 0 <= i < j < |visits| :: visits[i].address != visits[j].address)
    && (forall visit | visit in visits ::
          visit.address in cache && KeySet(visit.keys) == cache[visit.address].storage.Keys)
  }

  /** An iteration order of the whole cache. */
  ghost predicate Enumerates(cache: Entries, visits: seq<Visit>) {
    Partial(cache, visits) && Visited(visits) == cache.Keys
  }

  lemma DirtyAmongMore(entry: Entry, keys: set<H256>, k: H256)
    ensures DirtyAmong(entry, keys + {k}) ==
      if k in entry.storage && entry.storage[k].dirty
      then DirtyAmong(entry, keys)[k := entry.storage[k].value] else DirtyAmong(entry, keys)
  {
  }

  function WithSlots(world: World, a: Address, slots: Slots): World
    requires a in world
  {
    world[a := world[a].(storage := world[a].storage + slots)]
  }

  lemma OneMoreSlot(world: World, a: Address, slots: Slots, k: H256, v: H256)
    requires a in world
    ensures ApplyToWorld(WithSlots(world, a, slots), SetStorage(a, k, v)) == Ok(WithSlots(world, a, slots[k := v]))
  {
    var m := world[a].storage;
    assert m + slots[k := v] == (m + slots)[k := v];
    var r := world[a].(storage := (m + slots)[k := v]);
    assert WithSlots(world, a, slots)[a := r] == world[a := r];
  }

  lemma NoSlots(world: World, a: Address)
    requires a in world
    ensures WithSlots(world, a, map[]) == world
  {
    assert world[a].storage + map[] == world[a].storage;
    assert world[a := world[a]] == world;
  }

  lemma {:induction false} SlotsClosed(world: World, a: Address, entry: Entry, keys: seq<H256>)
    ensures FlushSlots(world, a, entry, keys) ==
      var writes := DirtyAmong(entry, KeySet(keys));
      if a in world then Ok(WithSlots(world, a, writes))
      else if writes == map[] then Ok(world) else Err(HostPanic)
  {
    if keys == [] {
      assert DirtyAmong(entry, KeySet(keys)) == map[];
      if a in world { NoSlots(world, a); }
    } else {
      var before, k := keys[..|keys| - 1], keys[|keys| - 1];
      SlotsClosed(world, a, entry, before);
      assert KeySet(keys) == KeySet(before) + {k} by { assert keys == before + [k]; }
      DirtyAmongMore(entry, KeySet(before), k);
      if k in entry.storage && entry.storage[k].dirty {
        assert k in DirtyAmong(entry, KeySet(keys));
        if a in world {
          OneMoreSlot(world, a, DirtyAmong(entry, KeySet(before)), k, entry.storage[k].value);
        }
      }
    }
  }

  lemma FlushedOnMore(world: World, cache: Entries, done: set<Address>, a: Address)
    requires a in cache && a !in done
    ensures var w := FlushedOn(world, cache, done);
      && (a in w <==> a in world)
      && (a in world ==> w[a] == world[a])
      && FlushedOn(world, cache, done + {a}) ==
           if a in world || cache[a].dirty then w[a := FlushedRecord(world, cache, a)] else w
  {
  }

  lemma SlotsIntoRecord(world: World, a: Address, r: Record, slots: Slots)
    ensures WithSlots(world[a := r], a, slots) == world[a := r.(storage := r.storage + slots)]
  {
  }

  /** The account part of a visit leaves the record that the slots then go into. */
  lemma AccountClosed(world: World, w: World, cache: Entries, a: Address)
    requires a in cache && (a in w <==> a in world) && (a in world ==> w[a] == world[a])
    ensures match FlushAccount(w, a, cache[a])
      case Err(_) => false
      case Ok(base) =>
        && (a in base <==> a in world || cache[a].dirty)
        && (a in base ==> WithSlots(base, a, DirtySlots(cache[a])) == w[a := FlushedRecord(world, cache, a)])
        && (a !in base ==> base == w)
  {
    var entry, slots := cache[a], DirtySlots(cache[a]);
    if a !in world {
      SlotsIntoRecord(w, a, Record(0, 0, entry.code, map[]), slots);
    } else if entry.dirty {
      SlotsIntoRecord(w, a, w[a].(balance := entry.balance, nonce := entry.nonce), slots);
    }
  }

  /** Visiting one more address turns the closed form for `done` into the one for `done + {a}`. */
  lemma VisitClosed(world: World, cache: Entries, done: set<Address>, visit: Visit)
    requires visit.address in cache && visit.address !in done
    requires KeySet(visit.keys) == cache[visit.address].storage.Keys
    ensures FlushVisit(FlushedOn(world, cache, done), cache, visit) ==
      if Flushable(world, cache, visit.address) then Ok(FlushedOn(world, cache, done + {visit.address}))
      else Err(HostPanic)
  {
    var a, entry, w := visit.address, cache[visit.address], FlushedOn(world, cache, done);
    FlushedOnMore(world, cache, done, a);
    AccountClosed(world, w, cache, a);
    SlotsClosed(FlushAccount(w, a, entry).value, a, entry, visit.keys);
    assert DirtyAmong(entry, KeySet(visit.keys)) == DirtySlots(entry);
  }

  predicate VisitsFlushable(world: World, cache: Entries, visits: seq<Visit>)
    requires forall visit | visit in visits :: visit.address in cache
  {
    forall visit | visit in visits :: Flushable(world, cache, visit.address)
  }

  lemma PartialPrefix(cache: Entries, visits: seq<Visit>)
    requires Partial(cache, visits) && visits != []
    ensures var before, last := visits[..|visits| - 1], visits[|visits| - 1];
      && Partial(cache, before)
      && Visited(visits) == Visited(before) + {last.address} && last.address !in Visited(before)
  {
  }

  lemma {:induction false} OrderClosed(world: World, cache: Entries, visits: seq<Visit>)
    requires Partial(cache, visits)
    ensures FlushInOrder(world, cache, visits) ==
      if VisitsFlushable(world, cache, visits) then Ok(FlushedOn(world, cache, Visited(visits))) else Err(HostPanic)
  {
    if visits == [] {
      assert FlushedOn(world, cache, Visited(visits)) == world;
    } else {
      var before, last := visits[..|visits| - 1], visits[|visits| - 1];
      PartialPrefix(cache, visits);
      OrderClosed(world, cache, before);
      VisitClosed(world, cache, Visited(before), last);
      assert VisitsFlushable(world, cache, visits)
        <==> VisitsFlushable(world, cache, before) && Flushable(world, cache, last.address) by {
        assert visits == before + [last];
      }
    }
  }

  /** Whatever order the two hash maps yield, a flush ends the same way. It fails exactly when some
      dirty slot belongs to an address that neither exists nor is created by the flush. */
  lemma FlushOrderIndependent(world: World, cache: Entries, visits: seq<Visit>)
    requires Enumerates(cache, visits)
    ensures FlushInOrder(world, cache, visits) ==
      if AllFlushable(world, cache) then Ok(Flushed(world, cache)) else Err(HostPanic)
  {
    OrderClosed(world, cache, visits);
    if VisitsFlushable(world, cache, visits) {
      forall a | a in cache ensures Flushable(world, cache, a) {
        assert a in Visited(visits);
      }
    }
  }

  /** The addresses among `done` at which a flush creates an account. */
  function Creations(world: World, cache: Entries, done: set<Address>): set<Address> {
    set a | a in done && a in cache && cache[a].dirty && a !in world
  }

  lemma CreationsMore(world: World, cache: Entries, done: set<Address>, a: Address)
    requires a in cache && a !in done
    ensures |Creations(world, cache, done + {a})| ==
      |Creations(world, cache, done)| + if cache[a].dirty && a !in world then 1 else 0
  {
    var before := Creations(world, cache, done);
    assert Creations(world, cache, done + {a}) == if cache[a].dirty && a !in world then before + {a} else before;
  }

  lemma CreationsGrow(world: World, cache: Entries, done: set<Address>, all: set<Address>)
    requires done <= all
    ensures |Creations(world, cache, done)| <= |Creations(world, cache, all)|
  {
    var less, more := Creations(world, cache, done), Creations(world, cache, all);
    assert more == less + (more - less);
  }

  /** The first visits of some flush, of which the last may have got through only part of its slots. */
  ghost predicate Started(cache: Entries, visits: seq<Visit>) {
    visits == [] ||
    var done, last := visits[..|visits| - 1], visits[|visits| - 1];
    && Partial(cache, done)
    && last.address in cache && last.address !in Visited(done)
    && KeySet(last.keys) <= cache[last.address].storage.Keys
  }

  /** `now` is what an interrupted flush has made of `before`. */
  ghost predicate Interrupted(before: World, cache: Entries, now: World) {
    exists visits :: Started(cache, visits) && FlushInOrder(before, cache, visits) == Ok(now)
  }
}
