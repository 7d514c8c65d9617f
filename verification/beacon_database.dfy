/**
 The locator's fixed-capacity beacon database, `beacon_database.c`: an array of
 16 beacon records and a count, updated in place by `put` (insert or replace,
 keyed by the little-endian MAC) and searched linearly by `get`.
 */
module BeaconDatabase {
  import opened Common
  import opened BtAddr

  /** BEACON_DATABASE_CAPACITY */
  const Capacity: nat := 16

  /** `struct beacon`: both octet orders of the address, the beacon's global
      position, and its orientation as the columns (i, j, k) of the rotation
      from local to global coordinates. */
  datatype Beacon = Beacon(
    macBigEndian: Mac,
    macLittleEndian: Mac,
    position: Vec3,
    i: Vec3,
    j: Vec3,
    k: Vec3)

  /** `struct beacon_database`: the array has `Capacity` slots; only the first
      `count` are meaningful, the rest hold whatever was there before. */
  datatype Database = Database(slots: seq<Beacon>, count: int)

  /** The outcome of a call: the C return code and the updated object. */
  datatype Returned<T> = Returned(code: int, value: T)

  /** The shape every database has after `beacon_database_init`. */
  ghost predicate Valid(db: Database) {
    |db.slots| == Capacity && 0 <= db.count <= Capacity
  }

  /** No little-endian MAC is stored twice among the meaningful slots. */
  ghost predicate Unique(db: Database)
    requires Valid(db)
  {
    forall a, b :: 0 <= a < b < db.count ==>
      db.slots[a].macLittleEndian != db.slots[b].macLittleEndian
  }

  ghost predicate Invariant(db: Database) {
    Valid(db) && Unique(db)
  }

  /** The loop shared by `put` and `get`: the first slot at or after `from`
      (and below `count`) whose little-endian MAC compares equal to `mac`. */
  function FindSlot(db: Database, mac: Mac, from: nat): (r: Option<nat>)
    requires Valid(db)
    ensures r.Some? ==> from <= r.value < db.count
                        && db.slots[r.value].macLittleEndian == mac
    ensures r.Some? ==> forall j :: from <= j < r.value ==> db.slots[j].macLittleEndian != mac
    ensures r.None? ==> forall j :: from <= j < db.count ==> db.slots[j].macLittleEndian != mac
    decreases db.count - from
  {
    if from >= db.count then None
    else if MacCompare(Ref(mac), Ref(db.slots[from].macLittleEndian)) == 1 then
      MacCompareEquivalence(mac, db.slots[from].macLittleEndian, mac);
      Some(from)
    else
      MacCompareEquivalence(mac, db.slots[from].macLittleEndian, mac);
      FindSlot(db, mac, from + 1)
  }

  /** Whether `mac` is stored among the meaningful slots. */
  ghost predicate Stored(db: Database, mac: Mac)
    requires Valid(db)
  {
    exists j :: 0 <= j < db.count && db.slots[j].macLittleEndian == mac
  }

  /** With unique MACs, the slot found is the only slot holding `mac`. */
  lemma FindSlotIsOnlyMatch(db: Database, mac: Mac, j: nat)
    requires Invariant(db)
    requires j < db.count && db.slots[j].macLittleEndian == mac
    ensures FindSlot(db, mac, 0) == Some(j)
  {
  }

  /** `beacon_database_init`: -EINVAL on NULL, otherwise count becomes 0. */
  function Init(db: Ptr<Database>): (r: Returned<Ptr<Database>>)
    requires db.Ref? ==> |db.value.slots| == Capacity
    ensures db.Null? ==> r.code == -EINVAL && r.value.Null?
    ensures db.Ref? ==> r.code == 0 && r.value.Ref? && Invariant(r.value.value)
    ensures db.Ref? ==> r.value.value.count == 0 && r.value.value.slots == db.value.slots
  {
    if db.Null? then Returned(-EINVAL, db)
    else Returned(0, Ref(db.value.(count := 0)))
  }

  /** `beacon_database_put`: replace the slot holding the beacon's MAC, or
      append the beacon if there is room. */
  function Put(db: Ptr<Database>, beacon: Ptr<Beacon>): (r: Returned<Ptr<Database>>)
    requires db.Ref? ==> Valid(db.value)
    ensures db.Null? || beacon.Null? ==> r.code == -EINVAL && r.value == db
    ensures r.code == 0 || r.code == -EINVAL || r.code == -ENOSPC
    ensures r.value.Ref? <==> db.Ref?
    ensures db.Ref? && beacon.Ref? ==>
      var d, b := db.value, beacon.value;
      var found := FindSlot(d, b.macLittleEndian, 0);
      && (found.Some? ==> r.code == 0 && r.value.value == d.(slots := d.slots[found.value := b]))
      && (found.None? && d.count >= Capacity ==> r.code == -ENOSPC && r.value == db)
      && (found.None? && d.count < Capacity ==>
            r.code == 0 && r.value.value == Database(d.slots[d.count := b], d.count + 1))
  {
    if db.Null? || beacon.Null? then Returned(-EINVAL, db)
    else
      var d, b := db.value, beacon.value;
      match FindSlot(d, b.macLittleEndian, 0)
      case Some(j) => Returned(0, Ref(d.(slots := d.slots[j := b])))
      case None =>
        if d.count >= Capacity then Returned(-ENOSPC, db)
        else Returned(0, Ref(Database(d.slots[d.count := b], d.count + 1)))
  }

  /** `beacon_database_get`: the beacon whose little-endian MAC equals `mac`
      is copied to the output; otherwise the output is left as it was. */
  function Get(db: Ptr<Database>, out: Ptr<Beacon>, mac: Ptr<Mac>): (r: Returned<Ptr<Beacon>>)
    requires db.Ref? ==> Valid(db.value)
    ensures db.Null? || out.Null? || mac.Null? ==> r.code == -EINVAL && r.value == out
    ensures db.Ref? && out.Ref? && mac.Ref? ==>
      (r.code == 0 <==> Stored(db.value, mac.value))
    ensures r.code == 0 ==>
      && r.value.Ref?
      && r.value.value.macLittleEndian == mac.value
      && r.value.value in db.value.slots[..db.value.count]
    ensures r.code != 0 ==> r.value == out
    ensures r.code == 0 || r.code == -EINVAL || r.code == -ENOENT
  {
    if db.Null? || out.Null? || mac.Null? then Returned(-EINVAL, out)
    else
      var found := FindSlot(db.value, mac.value, 0);
      if found.Some? then
        assert db.value.slots[found.value] == db.value.slots[..db.value.count][found.value];
        Returned(0, Ref(db.value.slots[found.value]))
      else Returned(-ENOENT, out)
  }

  /** `put` keeps the database valid and its MACs unique. */
  lemma PutPreservesInvariant(db: Database, beacon: Beacon)
    requires Invariant(db)
    ensures Invariant(Put(Ref(db), Ref(beacon)).value.value)
  {
  }

  /** After a successful `put(b)`, `get` of b's little-endian MAC succeeds and
      yields b; every other MAC is looked up exactly as before. */
  lemma {:induction false} PutThenGet(db: Database, beacon: Beacon, mac: Mac, out: Ptr<Beacon>)
    requires Invariant(db)
    requires out.Ref?
    ensures var p := Put(Ref(db), Ref(beacon));
      p.code == 0 ==>
        && (mac == beacon.macLittleEndian ==> Get(p.value, out, Ref(mac)) == Returned(0, Ref(beacon)))
        && (mac != beacon.macLittleEndian ==> Get(p.value, out, Ref(mac)) == Get(Ref(db), out, Ref(mac)))
  {
    var p := Put(Ref(db), Ref(beacon));
    if p.code == 0 {
      PutPreservesInvariant(db, beacon);
      var d' := p.value.value;
      var found := FindSlot(db, beacon.macLittleEndian, 0);
      var slot := if found.Some? then found.value else db.count;
      assert d'.slots[slot] == beacon;
      if mac == beacon.macLittleEndian {
        FindSlotIsOnlyMatch(d', mac, slot);
      } else {
        var before := FindSlot(db, mac, 0);
        if before.Some? {
          assert before.value != slot;
          FindSlotIsOnlyMatch(d', mac, before.value);
        } else {
          forall j | 0 <= j < d'.count
            ensures d'.slots[j].macLittleEndian != mac
          {
            if j != slot {
              assert d'.slots[j] == db.slots[j];
            }
          }
        }
      }
    }
  }

  /** A database that is full and does not hold the beacon's MAC refuses it. */
  lemma PutFullRefuses(db: Database, beacon: Beacon)
    requires Invariant(db) && db.count == Capacity
    requires !Stored(db, beacon.macLittleEndian)
    ensures Put(Ref(db), Ref(beacon)) == Returned(-ENOSPC, Ref(db))
  {
  }
}
