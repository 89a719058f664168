/** Every command keeps the invariant of the translation tables. */
module RttSafety {
  import opened Arithmetic
  import opened Strides
  import opened RttModel
  import opened RttCommands

  // ---- Where a walk ends -------------------------------------------------------------

  lemma RootCovers(r: Realm, s: State, ipa: nat)
    requires ValidRealm(r) && Shape(r, s) && ipa < r.ipaSize
    ensures InTable(s, r.root, ipa)
  {
  }

  lemma StepDown(r: Realm, s: State, t: nat, ipa: nat)
    requires ValidRealm(r) && Shape(r, s) && Linked(r, s) && t in s.tables && InTable(s, t, ipa)
    requires s.tables[t][Index(ipa, s.places[t].level)].Table?
    ensures var c := s.tables[t][Index(ipa, s.places[t].level)].pa;
            c in s.tables && s.places[c].level == s.places[t].level + 1 && InTable(s, c, ipa)
  {
    var level := s.places[t].level;
    var i := Index(ipa, level);
    IndexInTable(s.places[t].base, ipa, level);
    assert At(s, t, i) && PointsTo(s, t, i, s.tables[t][i].pa);
    NextSize(level + 1);
  }

  /** The table a walk ends in translates the address. */
  lemma {:induction false} WalkReaches(r: Realm, s: State, t: nat, ipa: nat, target: int)
    requires ValidRealm(r) && Shape(r, s) && Linked(r, s) && t in s.tables && InTable(s, t, ipa)
    requires s.places[t].level <= target <= PAGE_LEVEL
    ensures InTable(s, WalkTo(r, s, t, ipa, target), ipa)
    decreases PAGE_LEVEL - s.places[t].level
  {
    var i := Index(ipa, s.places[t].level);
    if s.places[t].level != target && s.tables[t][i].Table? {
      StepDown(r, s, t, ipa);
      WalkReaches(r, s, s.tables[t][i].pa, ipa, target);
    }
  }

  /** An aligned address is the first one of the entry the walk found. */
  lemma FoundEntry(r: Realm, s: State, ipa: nat, target: int) returns (t: nat, i: nat)
    requires ValidRealm(r) && Shape(r, s) && Linked(r, s) && ipa < r.ipaSize
    requires r.startLevel <= target <= PAGE_LEVEL
    ensures t == WalkTo(r, s, r.root, ipa, target) && i == Index(ipa, s.places[t].level)
    ensures At(s, t, i)
    ensures EntryBase(s, t, i) <= ipa < EntryBase(s, t, i) + MapSize(s.places[t].level)
    ensures Aligned(ipa, s.places[t].level) ==> EntryBase(s, t, i) == ipa
  {
    RootCovers(r, s, ipa);
    WalkReaches(r, s, r.root, ipa, target);
    t := WalkTo(r, s, r.root, ipa, target);
    i := Index(ipa, s.places[t].level);
    IndexInTable(s.places[t].base, ipa, s.places[t].level);
    BaseAligned(s.places[t].base, i, s.places[t].level);
    SameEntry(EntryBase(s, t, i), ipa, s.places[t].level);
  }

  lemma BaseAligned(base: nat, i: nat, level: int)
    requires Multiple(base, TableSize(level))
    ensures Multiple(base + Offset(i, MapSize(level)), MapSize(level))
  {
    var size := MapSize(level);
    MultipleIsAligned(base, TableSize(level));
    var k := base / TableSize(level);
    MulAssoc(k, 512, size);
    ModOfMultiple(k * 512, size);
    OffsetIsProduct(i, size);
    ModAddMultiple(base, i, size);
    MultipleIsAligned(base + Offset(i, size), size);
  }

  lemma SameEntry(base: nat, ipa: nat, level: int)
    requires Multiple(base, MapSize(level)) && base <= ipa < base + MapSize(level)
    ensures Aligned(ipa, level) ==> base == ipa
  {
    if Aligned(ipa, level) {
      MultipleIsAligned(base, MapSize(level));
      SmallMod(ipa - base, MapSize(level));
      SmallMod(0, MapSize(level));
      CongruentSub(ipa, 0, base, 0, MapSize(level));
    }
  }

  // ---- Writing a leaf entry -------------------------------------------------------------

  /** The state differs from another in one leaf entry, and in granules and TLB as stated elsewhere. */
  ghost predicate Wrote(s: State, s': State, t: nat, i: nat, e: Entry) {
    At(s, t, i) && s'.tables == s.tables[t := s.tables[t][i := e]] && s'.places == s.places
  }

  lemma WriteKeepsShape(r: Realm, s: State, s': State, t: nat, i: nat, e: Entry)
    requires Shape(r, s) && Wrote(s, s', t, i, e)
    requires EntryOk(r, e, s.places[t].level, EntryBase(s, t, i))
    requires forall g :: Is(s', g, Rtt) <==> Is(s, g, Rtt)
    requires s'.granules.Keys == s.granules.Keys
    requires forall g :: Is(s', g, Delegated) || Is(s', g, Data) ==> s'.granules[g].refcount == 0
    ensures Shape(r, s')
  {
    forall u, j | At(s', u, j) ensures EntryOk(r, s'.tables[u][j], s'.places[u].level, EntryBase(s', u, j)) {
      assert At(s, u, j) && EntryBase(s', u, j) == EntryBase(s, u, j);
      if u != t || j != i {
        assert s'.tables[u][j] == s.tables[u][j];
      }
    }
  }

  lemma WriteKeepsTree(r: Realm, s: State, s': State, t: nat, i: nat, e: Entry)
    requires Linked(r, s) && Tree(r, s) && Wrote(s, s', t, i, e)
    requires !e.Table? && !s.tables[t][i].Table?
    ensures Linked(r, s') && Tree(r, s')
  {
    forall u, j, c ensures PointsTo(s', u, j, c) <==> PointsTo(s, u, j, c) {}
    forall u, j, c | PointsTo(s', u, j, c)
      ensures c in s'.tables && c in s'.places && c != r.root
        && s'.places[c] == Place(s'.places[u].level + 1, EntryBase(s', u, j))
    {
      assert PointsTo(s, u, j, c);
    }
    forall c | c in s'.tables && c != r.root ensures HasParent(s', c) {
      assert HasParent(s, c);
      var u, j :| PointsTo(s, u, j, c);
      assert PointsTo(s', u, j, c);
    }
  }

  /** Only the written entry can cover other granules than before. */
  lemma WriteCovers(s: State, s': State, t: nat, i: nat, e: Entry)
    requires Wrote(s, s', t, i, e)
    ensures forall u, j, g :: (u != t || j != i) ==> (Covers(s', u, j, g) <==> Covers(s, u, j, g))
  {
  }

  /** A write that assigns nothing new keeps data ownership. */
  lemma WriteKeepsOwner(s: State, s': State, t: nat, i: nat, e: Entry)
    requires DataOwned(s) && Wrote(s, s', t, i, e)
    requires e.Assigned? == s.tables[t][i].Assigned? && (e.Assigned? ==> e.pa == s.tables[t][i].pa)
    requires forall g :: Is(s', g, Data) <==> Is(s, g, Data)
    ensures DataOwned(s')
  {
    forall u, j, g ensures Covers(s', u, j, g) <==> Covers(s, u, j, g) {}
    forall g | Is(s', g, Data) ensures HasOwner(s', g) {
      assert HasOwner(s, g);
      var u, j :| Covers(s, u, j, g);
      assert Covers(s', u, j, g);
    }
  }

  lemma WriteCounts(s: State, s': State, t: nat, i: nat, e: Entry)
    requires Counted(s) && Wrote(s, s', t, i, e)
    requires forall u :: u in s.tables && u != t ==>
      u in s'.granules && s'.granules[u].refcount == s.granules[u].refcount
    requires t in s'.granules && s'.granules[t].refcount
      == s.granules[t].refcount - (if s.tables[t][i].Live() then 1 else 0) + (if e.Live() then 1 else 0)
    ensures Counted(s')
  {
    LiveUpdate(s.tables[t], i, e);
  }

  /** Cached translations survive a write unless they came from a valid entry that changed. */
  lemma WriteKeepsTlb(s: State, s': State, t: nat, i: nat, e: Entry)
    requires TlbBacked(s) && Wrote(s, s', t, i, e)
    requires s'.tlb <= s.tlb
    requires !s.tables[t][i].Valid()
      || (e.Valid() && e.pa == s.tables[t][i].pa)
      || (forall c :: c in s'.tlb ==> !(c.base <= EntryBase(s, t, i) < c.base + MapSize(c.level)))
    ensures TlbBacked(s')
  {
    forall c | c in s'.tlb ensures HasSource(s', c) {
      assert HasSource(s, c);
      var u, j :| Backs(s, u, j, c);
      assert Backs(s', u, j, c);
    }
  }

  /** A write at an aligned address of a leaf without a change of reference count or granules. */
  lemma PlainWrite(r: Realm, s: State, s': State, t: nat, i: nat, e: Entry)
    requires Inv(r, s) && Wrote(s, s', t, i, e) && s'.granules == s.granules
    requires !e.Table? && !s.tables[t][i].Table?
    requires EntryOk(r, e, s.places[t].level, EntryBase(s, t, i))
    requires e.Assigned? == s.tables[t][i].Assigned? && (e.Assigned? ==> e.pa == s.tables[t][i].pa)
    requires s'.tlb <= s.tlb
    requires !s.tables[t][i].Valid()
      || (e.Valid() && e.pa == s.tables[t][i].pa)
      || (forall c :: c in s'.tlb ==> !(c.base <= EntryBase(s, t, i) < c.base + MapSize(c.level)))
    ensures Inv(r, s')
  {
    WriteKeepsShape(r, s, s', t, i, e);
    WriteKeepsTree(r, s, s', t, i, e);
    WriteKeepsOwner(s, s', t, i, e);
    WriteCounts(s, s', t, i, e);
    WriteKeepsTlb(s, s', t, i, e);
  }

  lemma MapNsKeeps(r: Realm, s: State, rd: nat, ipa: nat, level: int, pa: nat)
    requires Inv(r, s)
    ensures Inv(r, MapNs(r, s, rd, ipa, level, pa).0)
  {
    if MapNs(r, s, rd, ipa, level, pa).1 == Success {
      var t, i := FoundEntry(r, s, ipa, level);
      PlainWrite(r, s, MapNs(r, s, rd, ipa, level, pa).0, t, i, AssignedNs(pa));
    }
  }

  lemma UnmapNsKeeps(r: Realm, s: State, rd: nat, ipa: nat, level: int)
    requires Inv(r, s)
    ensures Inv(r, UnmapNs(r, s, rd, ipa, level).0)
  {
    if UnmapNs(r, s, rd, ipa, level).1 == Success {
      var t, i := FoundEntry(r, s, ipa, level);
      PlainWrite(r, s, UnmapNs(r, s, rd, ipa, level).0, t, i, UnassignedNs);
    }
  }

  lemma SetBlockedKeeps(r: Realm, s: State, rd: nat, ipa: nat, blocked: bool)
    requires Inv(r, s)
    ensures Inv(r, SetBlocked(r, s, rd, ipa, blocked).0)
  {
    var s' := SetBlocked(r, s, rd, ipa, blocked).0;
    if SetBlocked(r, s, rd, ipa, blocked).1 == Success {
      var t, i := FoundEntry(r, s, ipa, PAGE_LEVEL);
      PlainWrite(r, s, s', t, i, s.tables[t][i].(blocked := blocked));
    }
  }

  /** Granule g changes state, the reference count of table t changes by n, and nothing else does. */
  ghost predicate Moved(s: State, s': State, g: nat, state: GranuleState, t: nat, n: int) {
    && s'.granules.Keys == s.granules.Keys && g in s.granules && t in s.granules && g != t
    && (forall x :: x in s.granules && x != g ==> s'.granules[x].state == s.granules[x].state)
    && (forall x :: x in s.granules && x != t ==> s'.granules[x].refcount == s.granules[x].refcount)
    && s'.granules[g].state == state && s'.granules[t].refcount == s.granules[t].refcount + n
  }

  lemma MovedBy(s: State, t: nat, i: nat, e: Entry, g: nat, state: GranuleState, n: int)
    requires At(s, t, i) && g in s.granules && t in s.granules && g != t
    ensures Moved(s, AddRef(SetState(SetEntry(s, t, i, e), g, state), t, n), g, state, t, n)
    ensures Wrote(s, AddRef(SetState(SetEntry(s, t, i, e), g, state), t, n), t, i, e)
  {
  }

  /** The parts of the invariant a data command touches. */
  lemma MovedKeeps(r: Realm, s: State, s': State, t: nat, i: nat, e: Entry, g: nat, state: GranuleState, n: int)
    requires Shape(r, s) && Linked(r, s) && Tree(r, s) && Counted(s)
    requires Wrote(s, s', t, i, e) && Moved(s, s', g, state, t, n)
    requires !e.Table? && !s.tables[t][i].Table?
    requires EntryOk(r, e, s.places[t].level, EntryBase(s, t, i))
    requires Is(s, g, Delegated) || Is(s, g, Data)
    requires state == Delegated || state == Data
    requires n == (if e.Live() then 1 else 0) - (if s.tables[t][i].Live() then 1 else 0)
    ensures Shape(r, s') && Linked(r, s') && Tree(r, s') && Counted(s')
  {
    assert Is(s, t, Rtt);
    forall x ensures Is(s', x, Rtt) <==> Is(s, x, Rtt) {}
    WriteKeepsShape(r, s, s', t, i, e);
    WriteKeepsTree(r, s, s', t, i, e);
    forall u | u in s.tables && u != t ensures u in s'.granules && s'.granules[u].refcount == s.granules[u].refcount {
      assert Is(s, u, Rtt);
    }
    WriteCounts(s, s', t, i, e);
  }

  /** Assigning a fresh data granule at page level gives it its one owner. */
  lemma WriteAssigns(s: State, s': State, t: nat, i: nat, e: Entry)
    requires DataOwned(s) && Wrote(s, s', t, i, e) && s.places[t].level == PAGE_LEVEL
    requires e.Assigned? && !s.tables[t][i].Assigned? && Multiple(e.pa, GRANULE_SIZE)
    requires !Is(s, e.pa, Data) && Is(s', e.pa, Data)
    requires forall g :: g != e.pa ==> (Is(s', g, Data) <==> Is(s, g, Data))
    ensures DataOwned(s')
  {
    WriteCovers(s, s', t, i, e);
    assert Covers(s', t, i, e.pa);
    forall g | Covers(s', t, i, g) ensures g == e.pa {
      MultipleIsAligned(g, GRANULE_SIZE);
      SameEntry(e.pa, g, PAGE_LEVEL);
    }
    forall g | Is(s', g, Data) ensures HasOwner(s', g) {
      if g != e.pa {
        assert HasOwner(s, g);
        var u, j :| Covers(s, u, j, g);
        assert Covers(s', u, j, g);
      }
    }
  }

  /** Releasing an assigned page takes away its granule's one owner. */
  lemma WriteReleases(s: State, s': State, t: nat, i: nat, e: Entry)
    requires DataOwned(s) && Wrote(s, s', t, i, e) && s.places[t].level == PAGE_LEVEL
    requires !e.Assigned? && s.tables[t][i].Assigned? && Multiple(s.tables[t][i].pa, GRANULE_SIZE)
    requires !Is(s', s.tables[t][i].pa, Data)
    requires forall g :: g != s.tables[t][i].pa ==> (Is(s', g, Data) <==> Is(s, g, Data))
    ensures DataOwned(s')
  {
    var pa := s.tables[t][i].pa;
    WriteCovers(s, s', t, i, e);
    assert Covers(s, t, i, pa);
    forall u, j, g | Covers(s', u, j, g) ensures g != pa && Is(s', g, Data) {
      assert Covers(s, u, j, g);
    }
    forall g | Is(s', g, Data) ensures HasOwner(s', g) {
      assert HasOwner(s, g);
      var u, j :| Covers(s, u, j, g);
      if u == t && j == i {
        MultipleIsAligned(g, GRANULE_SIZE);
        SameEntry(pa, g, PAGE_LEVEL);
      }
      assert Covers(s', u, j, g);
    }
  }

  lemma DataCreateKeeps(r: Realm, s: State, rd: nat, data: nat, ipa: nat, source: Source, isNew: bool)
    requires Inv(r, s)
    ensures Inv(r, DataCreate(r, s, rd, data, ipa, source, isNew).0)
  {
    var s' := DataCreate(r, s, rd, data, ipa, source, isNew).0;
    if DataCreate(r, s, rd, data, ipa, source, isNew).1 == Success {
      var t, i := FoundEntry(r, s, ipa, PAGE_LEVEL);
      DataCreateWrites(r, s, s', t, i, data, s'.tables[t][i]);
    }
  }

  lemma DataCreateWrites(r: Realm, s: State, s': State, t: nat, i: nat, data: nat, e: Entry)
    requires Inv(r, s) && At(s, t, i) && s.places[t].level == PAGE_LEVEL && Is(s, data, Delegated)
    requires EntryBase(s, t, i) < r.parSize && !s.tables[t][i].Live() && e.Assigned? && e.pa == data
    requires s' == AddRef(SetState(SetEntry(s, t, i, e), data, Data), t, 1)
    ensures Inv(r, s')
  {
    assert Is(s, t, Rtt) && t != data;
    assert EntryOk(r, s.tables[t][i], PAGE_LEVEL, EntryBase(s, t, i));
    MovedBy(s, t, i, e, data, Data, 1);
    MovedKeeps(r, s, s', t, i, e, data, Data, 1);
    WriteKeepsTlb(s, s', t, i, e);
    WriteAssigns(s, s', t, i, e);
  }

  lemma DataDestroyKeeps(r: Realm, s: State, rd: nat, ipa: nat)
    requires Inv(r, s)
    ensures Inv(r, DataDestroy(r, s, rd, ipa).0)
    ensures DataDestroy(r, s, rd, ipa).1 != AssertFails
  {
    var s' := DataDestroy(r, s, rd, ipa).0;
    var outcome := DataDestroy(r, s, rd, ipa).1;
    if outcome == Success || outcome == AssertFails {
      var t, i := FoundEntry(r, s, ipa, PAGE_LEVEL);
      var pa := s.tables[t][i].pa;
      assert EntryOk(r, s.tables[t][i], PAGE_LEVEL, EntryBase(s, t, i));
      assert Covers(s, t, i, pa);
      DataDestroyWrites(r, s, s', t, i, s'.tables[t][i]);
    }
  }

  lemma DataDestroyWrites(r: Realm, s: State, s': State, t: nat, i: nat, e: Entry)
    requires Inv(r, s) && At(s, t, i) && s.places[t].level == PAGE_LEVEL && s.tables[t][i].Assigned?
    requires e.Unassigned? && Is(s, s.tables[t][i].pa, Data)
    requires s'.tlb <= s.tlb && s'
      == AddRef(SetState(SetEntry(s, t, i, e), s.tables[t][i].pa, Delegated), t, -1).(tlb := s'.tlb)
    requires s.tables[t][i].ripas == Ram ==>
      forall c :: c in s'.tlb ==> !(c.base <= EntryBase(s, t, i) < c.base + MapSize(c.level))
    ensures Inv(r, s')
  {
    var pa := s.tables[t][i].pa;
    assert Is(s, t, Rtt) && t != pa;
    assert EntryOk(r, s.tables[t][i], PAGE_LEVEL, EntryBase(s, t, i));
    MovedBy(s, t, i, e, pa, Delegated, -1);
    MovedKeeps(r, s, s', t, i, e, pa, Delegated, -1);
    WriteKeepsTlb(s, s', t, i, e);
    WriteReleases(s, s', t, i, e);
  }
}
