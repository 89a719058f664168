/**
 * Stage-2 translation tables of one realm: entries, granules, the table walk,
 * and what must hold between commands.
 */
module RttModel {
  import opened Strides

  const ENTRIES: nat := 512
  const GRANULE_SIZE: nat := 0x1000
  const PAGE_LEVEL: int := 3
  const MIN_BLOCK_LEVEL: int := 2

  datatype Ripas = Empty | Ram | Destroyed

  /** A translation table entry; blocked stands for the access bits the block command clears. */
  datatype Entry =
    | Unassigned(ripas: Ripas)
    | UnassignedNs
    | Assigned(ripas: Ripas, pa: nat, blocked: bool)
    | AssignedNs(pa: nat)
    | Table(pa: nat)
  {
    /** Entries the table's reference count counts. */
    predicate Live() { Assigned? || Table? }

    /** Entries the hardware may translate through. */
    predicate Valid() { AssignedNs? || (Assigned? && ripas == Ram) }
  }

  datatype GranuleState = Undelegated | Delegated | Descriptor | Context | Data | Rtt

  datatype Granule = Granule(state: GranuleState, refcount: int)

  /** A cached translation of a whole entry. */
  datatype Cached = Cached(base: nat, level: int, pa: nat)

  datatype Realm = Realm(rd: nat, root: nat, startLevel: int, ipaSize: nat, parSize: nat)

  /** Where a table sits in the tree: bookkeeping of the model, read by no command's decision. */
  datatype Place = Place(level: int, base: nat)

  datatype State = State(granules: map<nat, Granule>, tables: map<nat, seq<Entry>>,
                         places: map<nat, Place>, tlb: set<Cached>)

  // ---- Sizes and indices ---------------------------------------------------------

  /** Bytes mapped by one entry of the given level. */
  function MapSize(level: int): (size: nat)
    ensures size > 0
  {
    if level >= 3 then 0x1000
    else if level == 2 then 0x20_0000
    else if level == 1 then 0x4000_0000
    else 0x80_0000_0000
  }

  predicate Aligned(a: nat, level: int) {
    a % MapSize(level) == 0
  }

  /** Bytes mapped by one table of the given level. */
  function TableSize(level: int): (size: nat)
    ensures size == 512 * MapSize(level)
  {
    512 * MapSize(level)
  }

  /** The entry that translates an address in a table of the given level. */
  function Index(ipa: nat, level: int): (i: nat)
    ensures i < ENTRIES
  {
    (ipa / MapSize(level)) % ENTRIES
  }

  lemma NextSize(level: int)
    requires 1 <= level <= 3
    ensures MapSize(level - 1) == TableSize(level)
  {
  }

  // ---- Granules ------------------------------------------------------------------

  predicate Is(s: State, g: nat, state: GranuleState) {
    g in s.granules && s.granules[g].state == state
  }

  function Live(es: seq<Entry>): nat {
    if es == [] then 0 else Live(es[..|es| - 1]) + if es[|es| - 1].Live() then 1 else 0
  }

  lemma {:induction false} LiveUpdate(es: seq<Entry>, i: nat, e: Entry)
    requires i < |es|
    ensures Live(es[i := e]) == Live(es) - (if es[i].Live() then 1 else 0) + if e.Live() then 1 else 0
  {
    var k := |es| - 1;
    if i == k {
      assert es[i := e][..k] == es[..k];
    } else {
      LiveUpdate(es[..k], i, e);
      assert es[i := e][..k] == es[..k][i := e];
    }
  }

  lemma {:induction false} LiveNone(es: seq<Entry>)
    ensures Live(es) == 0 <==> forall i :: 0 <= i < |es| ==> !es[i].Live()
  {
    if es == [] {
    } else {
      var k := |es| - 1;
      LiveNone(es[..k]);
      if forall i :: 0 <= i < k ==> !es[..k][i].Live() {
        assert forall i :: 0 <= i < k ==> es[i] == es[..k][i];
      } else {
        var i :| 0 <= i < k && es[..k][i].Live();
        assert es[i].Live();
      }
    }
  }

  lemma {:induction false} LiveAll(es: seq<Entry>)
    requires forall i :: 0 <= i < |es| ==> es[i].Live()
    ensures Live(es) == |es|
  {
    if es == [] {
    } else {
      LiveAll(es[..|es| - 1]);
    }
  }

  // ---- Tables in place ---------------------------------------------------------------

  /** Position i of table t. */
  predicate At(s: State, t: nat, i: int) {
    t in s.tables && t in s.places && 0 <= i < |s.tables[t]|
  }

  /** The first address entry i of table t translates. */
  function EntryBase(s: State, t: nat, i: int): nat
    requires At(s, t, i)
  {
    s.places[t].base + Offset(i, MapSize(s.places[t].level))
  }

  predicate PointsTo(s: State, t: nat, i: int, c: nat) {
    At(s, t, i) && s.tables[t][i] == Table(c)
  }

  /** Entry i of table t assigns granule g. */
  predicate Covers(s: State, t: nat, i: int, g: nat) {
    At(s, t, i) && s.tables[t][i].Assigned? && Multiple(g, GRANULE_SIZE)
    && s.tables[t][i].pa <= g < s.tables[t][i].pa + MapSize(s.places[t].level)
  }

  /** A cached translation is the one entry i of table t gives now. */
  predicate Backs(s: State, t: nat, i: int, c: Cached) {
    At(s, t, i) && s.tables[t][i].Valid() && s.tables[t][i].pa == c.pa
    && s.places[t].level == c.level && EntryBase(s, t, i) == c.base
  }

  // ---- Invariants ---------------------------------------------------------------------

  /** The realm's layout: one root table covers it, and entries never straddle the protected boundary. */
  predicate ValidRealm(r: Realm) {
    && 0 <= r.startLevel <= MIN_BLOCK_LEVEL
    && r.ipaSize <= TableSize(r.startLevel)
    && r.parSize <= r.ipaSize && Multiple(r.parSize, MapSize(r.startLevel))
  }

  /** Which entries may stand at a level, for protected and unprotected addresses. */
  predicate EntryOk(r: Realm, e: Entry, level: int, base: nat) {
    match e
    case Unassigned(_) => base < r.parSize
    case Assigned(_, pa, blocked) =>
      base < r.parSize && level >= MIN_BLOCK_LEVEL && Multiple(pa, MapSize(level)) && (blocked ==> level == PAGE_LEVEL)
    case UnassignedNs => base >= r.parSize
    case AssignedNs(pa) => base >= r.parSize && Multiple(pa, MapSize(level))
    case Table(_) => level < PAGE_LEVEL
  }

  /** Tables are the granules that are in that state; delegated and data granules are not counted. */
  ghost predicate GranulesOk(s: State) {
    && (forall g :: g in s.granules ==> Multiple(g, GRANULE_SIZE))
    && (forall t :: t in s.tables <==> Is(s, t, Rtt))
    && (forall g :: Is(s, g, Delegated) || Is(s, g, Data) ==> s.granules[g].refcount == 0)
  }

  /** The root covers the realm, and every table is whole and aligned. */
  ghost predicate PlacesOk(r: Realm, s: State) {
    && r.root in s.tables && s.places.Keys == s.tables.Keys
    && s.places[r.root] == Place(r.startLevel, 0)
    && (forall t :: t in s.tables ==> |s.tables[t]| == ENTRIES)
    && (forall t :: t in s.tables ==>
          r.startLevel <= s.places[t].level <= PAGE_LEVEL
          && Multiple(s.places[t].base, TableSize(s.places[t].level)))
  }

  ghost predicate EntriesOk(r: Realm, s: State) {
    forall t, i :: At(s, t, i) ==> EntryOk(r, s.tables[t][i], s.places[t].level, EntryBase(s, t, i))
  }

  ghost predicate Shape(r: Realm, s: State) {
    GranulesOk(s) && PlacesOk(r, s) && EntriesOk(r, s)
  }

  /** Table entries lead to tables of the next level, at the address they translate. */
  ghost predicate Linked(r: Realm, s: State) {
    forall t, i, c :: PointsTo(s, t, i, c) ==>
      c in s.tables && c in s.places && c != r.root
      && s.places[c] == Place(s.places[t].level + 1, EntryBase(s, t, i))
  }

  ghost predicate HasParent(s: State, c: nat) {
    exists t, i :: PointsTo(s, t, i, c)
  }

  ghost predicate HasOwner(s: State, g: nat) {
    exists t, i :: Covers(s, t, i, g)
  }

  ghost predicate HasSource(s: State, c: Cached) {
    exists t, i :: Backs(s, t, i, c)
  }

  /** Every table but the root is pointed to by exactly one entry. */
  ghost predicate Tree(r: Realm, s: State) {
    && (forall c {:trigger HasParent(s, c)} :: c in s.tables && c != r.root ==> HasParent(s, c))
    && (forall t, i, t', i', c :: PointsTo(s, t, i, c) && PointsTo(s, t', i', c) ==> t == t' && i == i')
  }

  /** A table's reference count is its number of live entries. */
  ghost predicate Counted(s: State) {
    forall t :: t in s.tables ==> t in s.granules && s.granules[t].refcount == Live(s.tables[t])
  }

  /** Every data granule is assigned by exactly one entry, and only data granules are assigned. */
  ghost predicate DataOwned(s: State) {
    && (forall t, i, g :: Covers(s, t, i, g) ==> Is(s, g, Data))
    && (forall t, i, t', i', g :: Covers(s, t, i, g) && Covers(s, t', i', g) ==> t == t' && i == i')
    && (forall g {:trigger HasOwner(s, g)} :: Is(s, g, Data) ==> HasOwner(s, g))
  }

  /** Every cached translation is still given by a table entry. */
  ghost predicate TlbBacked(s: State) {
    forall c {:trigger HasSource(s, c)} :: c in s.tlb ==> HasSource(s, c)
  }

  ghost predicate Inv(r: Realm, s: State) {
    ValidRealm(r) && Shape(r, s) && Linked(r, s) && Tree(r, s) && Counted(s) && DataOwned(s) && TlbBacked(s)
  }

  // ---- The walk ------------------------------------------------------------------------

  /** Walks towards the target level and stops early at an entry that is no table. */
  function WalkTo(r: Realm, s: State, t: nat, ipa: nat, target: int): (w: nat)
    requires Shape(r, s) && Linked(r, s) && t in s.tables
    requires s.places[t].level <= target <= PAGE_LEVEL
    ensures w in s.tables && s.places[t].level <= s.places[w].level <= target
    ensures s.places[w].level == target || !s.tables[w][Index(ipa, s.places[w].level)].Table?
    decreases PAGE_LEVEL - s.places[t].level
  {
    var level := s.places[t].level;
    var i := Index(ipa, level);
    var e := s.tables[t][i];
    if level == target || !e.Table? then t
    else
      assert PointsTo(s, t, i, e.pa);
      WalkTo(r, s, e.pa, ipa, target)
  }

  /** An address lies in the range a table translates. */
  predicate InTable(s: State, t: nat, ipa: nat) {
    t in s.places
    && s.places[t].base <= ipa < s.places[t].base + TableSize(s.places[t].level)
  }

  /** The index of an address is its distance from the table's start, in entries. */
  lemma IndexInTable(base: nat, ipa: nat, level: int)
    requires Multiple(base, TableSize(level)) && base <= ipa < base + TableSize(level)
    ensures base + Offset(Index(ipa, level), MapSize(level)) <= ipa
                < base + Offset(Index(ipa, level), MapSize(level)) + MapSize(level)
  {
    MultipleIsAligned(base, TableSize(level));
    IndexBySize(base, ipa, MapSize(level));
    OffsetIsProduct(Index(ipa, level), MapSize(level));
  }
}
