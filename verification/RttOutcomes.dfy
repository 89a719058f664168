/**
 * When every command succeeds, what it answers otherwise, and exactly what it
 * leaves behind: the entry each address is translated by, its level, and the
 * cached translations.
 */
module RttOutcomes {
  import opened Strides
  import opened RttModel
  import opened RttCommands
  import opened RttSafety
  import opened RttTree
  import opened RttView
  import opened RttRipas
  import opened RttRuns
  import opened RttEffects

  // ---- The entry an address is translated by -----------------------------------------------

  function LeafTable(r: Realm, s: State, ipa: nat): nat
    requires Inv(r, s)
  {
    WalkTo(r, s, r.root, ipa, PAGE_LEVEL)
  }

  function LeafLevel(r: Realm, s: State, ipa: nat): int
    requires Inv(r, s)
  {
    s.places[LeafTable(r, s, ipa)].level
  }

  function Leaf(r: Realm, s: State, ipa: nat): Entry
    requires Inv(r, s)
  {
    s.tables[LeafTable(r, s, ipa)][Index(ipa, LeafLevel(r, s, ipa))]
  }

  /** An address in the range of an entry that is no table is translated by it. */
  lemma LeafIs(r: Realm, s: State, t: nat, i: nat, ipa: nat)
    requires Inv(r, s) && At(s, t, i) && !s.tables[t][i].Table?
    requires Inside(ipa, EntryBase(s, t, i), s.places[t].level)
    ensures LeafTable(r, s, ipa) == t && Leaf(r, s, ipa) == s.tables[t][i] && LeafLevel(r, s, ipa) == s.places[t].level
    ensures Sees(r, s, ipa) == EntryMeaning(s.tables[t][i], s.places[t].level, ipa)
    ensures i == Index(ipa, s.places[t].level)
  {
    hide Tree, DataOwned, Counted, TlbBacked, View;
    EntryRange(s.places[t].base, i, s.places[t].level, ipa);
    WalkThrough(r, s, t, ipa, PAGE_LEVEL);
    WriteInside(r, s, t, i, ipa);
  }

  /** Every address of the realm is translated by some entry. */
  lemma LeafFound(r: Realm, s: State, ipa: nat) returns (t: nat, i: nat)
    requires Inv(r, s) && ipa < r.ipaSize
    ensures At(s, t, i) && !s.tables[t][i].Table? && Inside(ipa, EntryBase(s, t, i), s.places[t].level)
    ensures t == LeafTable(r, s, ipa) && Leaf(r, s, ipa) == s.tables[t][i] && LeafLevel(r, s, ipa) == s.places[t].level
    ensures EntryOk(r, s.tables[t][i], s.places[t].level, EntryBase(s, t, i))
    ensures Sees(r, s, ipa) == EntryMeaning(s.tables[t][i], s.places[t].level, ipa)
  {
    hide Tree, DataOwned, Counted, TlbBacked, View;
    t, i := FoundEntry(r, s, ipa, PAGE_LEVEL);
    assert EntryOk(r, s.tables[t][i], s.places[t].level, EntryBase(s, t, i));
    LeafIs(r, s, t, i, ipa);
  }

  /** A walk stops at the leaf, or above it at an entry that leads to a table. */
  lemma WalkStops(r: Realm, s: State, ipa: nat, target: int) returns (w: nat, i: nat)
    requires Inv(r, s) && ipa < r.ipaSize && r.startLevel <= target <= PAGE_LEVEL
    ensures w == WalkTo(r, s, r.root, ipa, target) && i == Index(ipa, s.places[w].level) && At(s, w, i)
    ensures EntryBase(s, w, i) <= ipa < EntryBase(s, w, i) + MapSize(s.places[w].level)
    ensures Aligned(ipa, s.places[w].level) ==> EntryBase(s, w, i) == ipa
    ensures if LeafLevel(r, s, ipa) <= target
      then s.places[w].level == LeafLevel(r, s, ipa) && s.tables[w][i] == Leaf(r, s, ipa) && !s.tables[w][i].Table?
      else s.places[w].level == target && s.tables[w][i].Table?
    ensures EntryOk(r, s.tables[w][i], s.places[w].level, EntryBase(s, w, i))
  {
    hide Tree, DataOwned, Counted, TlbBacked, View;
    w, i := FoundEntry(r, s, ipa, target);
    assert EntryOk(r, s.tables[w][i], s.places[w].level, EntryBase(s, w, i));
    if s.tables[w][i].Table? {
      DeeperLeaf(r, s, w, i, ipa);
    } else {
      LeafIs(r, s, w, i, ipa);
    }
  }

  lemma DeeperLeaf(r: Realm, s: State, w: nat, i: nat, ipa: nat)
    requires Inv(r, s) && At(s, w, i) && s.tables[w][i].Table? && Inside(ipa, EntryBase(s, w, i), s.places[w].level)
    ensures LeafLevel(r, s, ipa) > s.places[w].level
  {
    hide Tree, DataOwned, Counted, TlbBacked, View;
    assert EntryOk(r, s.tables[w][i], s.places[w].level, EntryBase(s, w, i));
    EntryRange(s.places[w].base, i, s.places[w].level, ipa);
    WalkThrough(r, s, w, ipa, PAGE_LEVEL);
    assert PointsTo(s, w, i, s.tables[w][i].pa);
  }

  /** Writing a leaf entry changes what exactly its addresses are translated by. */
  lemma LeafWrite(r: Realm, s: State, s': State, t: nat, i: nat, e: Entry, ipa: nat)
    requires Inv(r, s) && Inv(r, s') && Wrote(s, s', t, i, e) && ipa < r.ipaSize
    requires !e.Table? && !s.tables[t][i].Table?
    ensures LeafLevel(r, s', ipa) == LeafLevel(r, s, ipa)
    ensures Leaf(r, s', ipa) == if Inside(ipa, EntryBase(s, t, i), s.places[t].level) then e else Leaf(r, s, ipa)
    ensures Inside(ipa, EntryBase(s, t, i), s.places[t].level) ==> LeafLevel(r, s, ipa) == s.places[t].level
  {
    hide Inv, View, WalkTo;
    var u, j := LeafFound(r, s, ipa);
    if Inside(ipa, EntryBase(s, t, i), s.places[t].level) {
      LeafIs(r, s, t, i, ipa);
      assert EntryBase(s', t, i) == EntryBase(s, t, i);
      LeafIs(r, s', t, i, ipa);
    } else {
      assert s'.tables[u][j] == s.tables[u][j] && EntryBase(s', u, j) == EntryBase(s, u, j);
      LeafIs(r, s', u, j, ipa);
    }
  }

  /** Cached translations that contain the address are gone, all others stay. */
  ghost predicate Flushed(s: State, s': State, ipa: nat) {
    forall c :: c in s'.tlb <==> c in s.tlb && !(c.base <= ipa < c.base + MapSize(c.level))
  }

  /** Those that start in the range are gone, all others stay. */
  ghost predicate FlushedRange(s: State, s': State, ipa: nat, size: nat) {
    forall c :: c in s'.tlb <==> c in s.tlb && !(ipa <= c.base < ipa + size)
  }

  // ---- Unprotected mappings ---------------------------------------------------------------

  lemma MapNsOutcome(r: Realm, s: State, rd: nat, at: nat, level: int, pa: nat)
    requires Inv(r, s)
    ensures MapNs(r, s, rd, at, level, pa).1 ==
      if (level != 2 && level != 3) || pa % MapSize(level) != 0 || !Is(s, rd, Descriptor)
         || at >= r.ipaSize || at % MapSize(level) != 0 || at < r.parSize then ErrorInput
      else if LeafLevel(r, s, at) < level then ErrorRtt(LeafLevel(r, s, at))
      else if LeafLevel(r, s, at) == level && Sees(r, s, at) == HoleNs then Success
      else ErrorRtt(level)
  {
    hide Inv, View, WalkTo, Sees, Multiple;
    MultipleIsAligned(pa, MapSize(level));
    if (level == 2 || level == 3) && at < r.ipaSize {
      StartLevels(r, s);
      var w, i := WalkStops(r, s, at, level);
      var t, j := LeafFound(r, s, at);
    }
  }

  lemma StartLevels(r: Realm, s: State)
    requires Inv(r, s)
    ensures 0 <= r.startLevel <= 2
  {
  }

  lemma MapNsLeaves(r: Realm, s: State, rd: nat, at: nat, level: int, pa: nat, ipa: nat)
    requires Inv(r, s) && MapNs(r, s, rd, at, level, pa).1 == Success && ipa < r.ipaSize
    ensures var s' := MapNs(r, s, rd, at, level, pa).0;
      Inv(r, s') && s'.granules == s.granules && s'.tlb == s.tlb
      && LeafLevel(r, s', ipa) == LeafLevel(r, s, ipa)
      && Leaf(r, s', ipa) == (if Inside(ipa, at, level) then AssignedNs(pa) else Leaf(r, s, ipa))
  {
    hide Inv, View, WalkTo, Sees, Leaf, LeafLevel;
    MapNsKeeps(r, s, rd, at, level, pa);
    StartLevels(r, s);
    var w, i := WalkStops(r, s, at, level);
    LeafWrite(r, s, MapNs(r, s, rd, at, level, pa).0, w, i, AssignedNs(pa), ipa);
  }

  lemma UnmapNsOutcome(r: Realm, s: State, rd: nat, at: nat, level: int)
    requires Inv(r, s)
    ensures UnmapNs(r, s, rd, at, level).1 ==
      if (level != 2 && level != 3) || !Is(s, rd, Descriptor)
         || at >= r.ipaSize || at % MapSize(level) != 0 || at < r.parSize then ErrorInput
      else if LeafLevel(r, s, at) < level then ErrorRtt(LeafLevel(r, s, at))
      else if LeafLevel(r, s, at) == level && Sees(r, s, at).PageNs? then Success
      else ErrorRtt(level)
  {
    hide Inv, View, WalkTo, Sees;
    if (level == 2 || level == 3) && at < r.ipaSize {
      StartLevels(r, s);
      var w, i := WalkStops(r, s, at, level);
      var t, j := LeafFound(r, s, at);
    }
  }

  lemma UnmapNsLeaves(r: Realm, s: State, rd: nat, at: nat, level: int, ipa: nat)
    requires Inv(r, s) && UnmapNs(r, s, rd, at, level).1 == Success && ipa < r.ipaSize
    ensures var s' := UnmapNs(r, s, rd, at, level).0;
      Inv(r, s') && s'.granules == s.granules && Flushed(s, s', at)
      && LeafLevel(r, s', ipa) == LeafLevel(r, s, ipa)
      && Leaf(r, s', ipa) == (if Inside(ipa, at, level) then UnassignedNs else Leaf(r, s, ipa))
  {
    hide Inv, View, WalkTo, Sees, Leaf, LeafLevel;
    UnmapNsKeeps(r, s, rd, at, level);
    StartLevels(r, s);
    var w, i := WalkStops(r, s, at, level);
    LeafWrite(r, s, UnmapNs(r, s, rd, at, level).0, w, i, UnassignedNs, ipa);
  }

  // ---- Data ------------------------------------------------------------------------------------

  lemma DataCreateOutcome(r: Realm, s: State, rd: nat, data: nat, at: nat, source: Source, isNew: bool)
    requires Inv(r, s)
    ensures DataCreate(r, s, rd, data, at, source, isNew).1 ==
      if data == rd || !Is(s, data, Delegated) || !Is(s, rd, Descriptor) then ErrorInput
      else if source.Copied? && !isNew then ErrorRealm
      else if at >= r.parSize || at % 0x1000 != 0 then ErrorInput
      else if LeafLevel(r, s, at) < 3 then ErrorRtt(LeafLevel(r, s, at))
      else if !Sees(r, s, at).Hole? then ErrorRtt(3)
      else if source == Copied(false) then ErrorInput
      else Success
  {
    hide Inv, View, WalkTo, Sees;
    StartLevels(r, s);
    ProtectedInside(r, s);
    if at < r.ipaSize {
      var w, i := WalkStops(r, s, at, 3);
      var t, j := LeafFound(r, s, at);
    }
  }

  lemma ProtectedInside(r: Realm, s: State)
    requires Inv(r, s)
    ensures r.parSize <= r.ipaSize
  {
  }

  lemma DataCreateLeaves(r: Realm, s: State, rd: nat, data: nat, at: nat, source: Source, isNew: bool, ipa: nat)
    requires Inv(r, s) && DataCreate(r, s, rd, data, at, source, isNew).1 == Success && ipa < r.ipaSize
    ensures var s' := DataCreate(r, s, rd, data, at, source, isNew).0;
      Inv(r, s') && s'.tlb == s.tlb && Is(s', data, Data)
      && LeafLevel(r, s', ipa) == LeafLevel(r, s, ipa)
      && (if Inside(ipa, at, 3)
          then Leaf(r, s, ipa).Unassigned?
            && Leaf(r, s', ipa) == Assigned(if source.Copied? then Ram else Leaf(r, s, ipa).ripas, data, false)
          else Leaf(r, s', ipa) == Leaf(r, s, ipa))
  {
    hide Inv, View, WalkTo, Sees, Leaf, LeafLevel;
    DataCreateKeeps(r, s, rd, data, at, source, isNew);
    StartLevels(r, s);
    ProtectedInside(r, s);
    var w, i := WalkStops(r, s, at, 3);
    IsTable(r, s, w);
    var s' := DataCreate(r, s, rd, data, at, source, isNew).0;
    LeafWrite(r, s, s', w, i, s'.tables[w][i], ipa);
    if Inside(ipa, at, 3) {
      LeafIs(r, s, w, i, ipa);
    }
  }

  lemma IsTable(r: Realm, s: State, t: nat)
    requires Inv(r, s) && t in s.tables
    ensures Is(s, t, Rtt)
  {
  }

  lemma DataDestroyOutcome(r: Realm, s: State, rd: nat, at: nat)
    requires Inv(r, s)
    ensures DataDestroy(r, s, rd, at).1 ==
      if !Is(s, rd, Descriptor) || at >= r.parSize || at % 0x1000 != 0 then ErrorInput
      else if LeafLevel(r, s, at) < 3 then ErrorRtt(LeafLevel(r, s, at))
      else if Sees(r, s, at).Page? then Success
      else ErrorRtt(3)
  {
    DataDestroyKeeps(r, s, rd, at);
    hide Inv, View, WalkTo, Sees;
    StartLevels(r, s);
    ProtectedInside(r, s);
    if at < r.ipaSize {
      var w, i := WalkStops(r, s, at, 3);
      var t, j := LeafFound(r, s, at);
    }
  }

  lemma DataDestroyLeaves(r: Realm, s: State, rd: nat, at: nat, ipa: nat)
    requires Inv(r, s) && DataDestroy(r, s, rd, at).1 == Success && ipa < r.ipaSize
    ensures var s' := DataDestroy(r, s, rd, at).0;
      Inv(r, s') && Leaf(r, s, at).Assigned? && Is(s', Leaf(r, s, at).pa, Delegated)
      && (if Leaf(r, s, at).ripas == Ram then Flushed(s, s', at) else s'.tlb == s.tlb)
      && LeafLevel(r, s', ipa) == LeafLevel(r, s, ipa)
      && Leaf(r, s', ipa) == (if Inside(ipa, at, 3)
                              then Unassigned(if Leaf(r, s, at).ripas == Empty then Empty else Destroyed)
                              else Leaf(r, s, ipa))
  {
    hide Inv, View, WalkTo, Sees, Leaf, LeafLevel;
    DataDestroyKeeps(r, s, rd, at);
    StartLevels(r, s);
    ProtectedInside(r, s);
    var w, i := WalkStops(r, s, at, 3);
    IsTable(r, s, w);
    var s' := DataDestroy(r, s, rd, at).0;
    LeafWrite(r, s, s', w, i, s'.tables[w][i], ipa);
  }

  // ---- Access -----------------------------------------------------------------------------------

  lemma SetBlockedOutcome(r: Realm, s: State, rd: nat, at: nat, blocked: bool)
    requires Inv(r, s)
    ensures SetBlocked(r, s, rd, at, blocked).1 ==
      if !Is(s, rd, Descriptor) || at >= r.ipaSize || at % 0x1000 != 0 then ErrorInput
      else if LeafLevel(r, s, at) == 3 && Sees(r, s, at).Page? && Sees(r, s, at).ripas == Ram then Success
      else ErrorRtt(0)
  {
    hide Inv, View, WalkTo, Sees;
    StartLevels(r, s);
    if at < r.ipaSize {
      var w, i := WalkStops(r, s, at, 3);
      var t, j := LeafFound(r, s, at);
    }
  }

  /** Exactly the page's entry is closed or opened, and its translation leaves the cache. */
  lemma SetBlockedLeaves(r: Realm, s: State, rd: nat, at: nat, blocked: bool, ipa: nat)
    requires Inv(r, s) && SetBlocked(r, s, rd, at, blocked).1 == Success && ipa < r.ipaSize
    ensures var s' := SetBlocked(r, s, rd, at, blocked).0;
      Inv(r, s') && s'.granules == s.granules && Flushed(s, s', at)
      && LeafLevel(r, s', ipa) == LeafLevel(r, s, ipa)
      && (if Inside(ipa, at, 3)
          then Leaf(r, s, ipa).Assigned? && Leaf(r, s', ipa) == Assigned(Ram, Leaf(r, s, ipa).pa, blocked)
          else Leaf(r, s', ipa) == Leaf(r, s, ipa))
  {
    hide Inv, View, WalkTo, Sees, Leaf, LeafLevel;
    SetBlockedKeeps(r, s, rd, at, blocked);
    StartLevels(r, s);
    var w, i := WalkStops(r, s, at, 3);
    var s' := SetBlocked(r, s, rd, at, blocked).0;
    LeafWrite(r, s, s', w, i, s'.tables[w][i], ipa);
    if Inside(ipa, at, 3) {
      LeafIs(r, s, w, i, ipa);
    }
  }

  /** Opening a page again after closing it gives the state in which it was opened at once. */
  lemma BlockThenUnblock(r: Realm, s: State, rd: nat, at: nat)
    requires Inv(r, s) && SetBlocked(r, s, rd, at, true).1 == Success
    ensures Inv(r, SetBlocked(r, s, rd, at, true).0)
    ensures SetBlocked(r, SetBlocked(r, s, rd, at, true).0, rd, at, false) == SetBlocked(r, s, rd, at, false)
    ensures !Leaf(r, s, at).blocked ==> var s' := SetBlocked(r, s, rd, at, false).0; s' == s.(tlb := s'.tlb)
  {
    hide Inv, View, WalkTo, Sees, Leaf, LeafLevel, Flushed, SetBlocked;
    SetBlockedKeeps(r, s, rd, at, true);
    var w, i := BlockedEntry(r, s, rd, at, true);
    var s1 := SetBlocked(r, s, rd, at, true).0;
    BlockedState(r, s, rd, at, false, w, i);
    assert EntryBase(s1, w, i) == EntryBase(s, w, i);
    LeafIs(r, s, w, i, at);
    LeafIs(r, s1, w, i, at);
    BlockedState(r, s1, rd, at, false, w, i);
    OneWrite(s.tables[w], i, s1.tables[w][i], s.tables[w][i].(blocked := false));
    assert InvalidateEntry(InvalidateEntry(s.tlb, at), at) == InvalidateEntry(s.tlb, at);
    assert s1.tables[w := s1.tables[w][i := s.tables[w][i].(blocked := false)]]
      == s.tables[w := s.tables[w][i := s.tables[w][i].(blocked := false)]];
  }

  /** Where a page's entry stands when it can be closed or opened. */
  lemma BlockedEntry(r: Realm, s: State, rd: nat, at: nat, blocked: bool) returns (w: nat, i: nat)
    requires Inv(r, s) && SetBlocked(r, s, rd, at, blocked).1 == Success
    ensures At(s, w, i) && EntryBase(s, w, i) == at && s.places[w].level == 3 && s.tables[w][i].Assigned?
    ensures s.tables[w][i].ripas == Ram && at < r.ipaSize && at % 0x1000 == 0 && Is(s, rd, Descriptor)
    ensures SetBlocked(r, s, rd, at, blocked).0
      == SetEntry(s, w, i, s.tables[w][i].(blocked := blocked)).(tlb := InvalidateEntry(s.tlb, at))
  {
    hide Inv, View, WalkTo, Sees, Leaf, LeafLevel;
    StartLevels(r, s);
    w, i := WalkStops(r, s, at, 3);
  }

  lemma BlockedState(r: Realm, s: State, rd: nat, at: nat, blocked: bool, w: nat, i: nat)
    requires Inv(r, s) && At(s, w, i) && EntryBase(s, w, i) == at && s.places[w].level == 3
    requires s.tables[w][i].Assigned? && s.tables[w][i].ripas == Ram && at < r.ipaSize && at % 0x1000 == 0
    requires Is(s, rd, Descriptor)
    ensures SetBlocked(r, s, rd, at, blocked)
      == (SetEntry(s, w, i, s.tables[w][i].(blocked := blocked)).(tlb := InvalidateEntry(s.tlb, at)), Success)
  {
    hide Inv, View, WalkTo, Sees;
    StartLevels(r, s);
    LeafIs(r, s, w, i, at);
    var w1, i1 := WalkStops(r, s, at, 3);
  }

  lemma OneWrite(es: seq<Entry>, i: nat, e: Entry, e': Entry)
    requires i < |es|
    ensures es[i := e][i := e'] == es[i := e'] && es[i := es[i]] == es
  {
  }

  // ---- Other steps -----------------------------------------------------------------------------

  /** A fresh realm is empty below the protected boundary and unmapped above it. */
  lemma FreshSees(r: Realm, x: System, ipa: nat)
    requires Initial(r, x) && ipa < r.ipaSize
    ensures Inv(r, x.s) && Sees(r, x.s, ipa) == if ipa < r.parSize then Hole(Empty) else HoleNs
  {
    InitialKeeps(r, x);
    hide Tree, DataOwned, Counted, TlbBacked, Linked, View, WalkTo;
    var t, i := LeafFound(r, x.s, ipa);
    BaseAligned(x.s.places[t].base, i, r.startLevel);
    ParBoundary(r, EntryBase(x.s, t, i), r.startLevel);
  }

  /** The hardware can cache exactly the valid entries. */
  lemma FillExactly(r: Realm, s: State, t: nat, i: nat, c: Cached)
    requires c !in s.tlb
    ensures c in FillTlb(s, t, i).tlb <==> Backs(s, t, i, c)
  {
  }

  /** Exactly the granules in the one state that nothing holds change to the other, and they alone. */
  lemma HandsOver(s: State, g: nat, from: GranuleState, to: GranuleState, x: nat)
    requires from != to
    ensures Is(HandOver(s, g, from, to), g, to) <==> (Is(s, g, from) && s.granules[g].refcount == 0) || Is(s, g, to)
    ensures x != g && x in s.granules ==>
      x in HandOver(s, g, from, to).granules && HandOver(s, g, from, to).granules[x] == s.granules[x]
  {
  }
}
