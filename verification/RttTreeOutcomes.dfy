/** When tables can be created, folded and destroyed, and exactly what each of these leaves behind. */
module RttTreeOutcomes {
  import Arithmetic
  import opened Strides
  import opened RttModel
  import opened RttCommands
  import opened RttSafety
  import opened RttTree
  import opened RttView
  import opened RttRuns
  import opened RttEffects
  import opened RttOutcomes

  // ---- Creation -------------------------------------------------------------------------

  predicate StructureArguments(r: Realm, s: State, rd: nat, at: nat, level: int) {
    && Is(s, rd, Descriptor) && r.startLevel + 1 <= level <= 3 && at < r.ipaSize && at % MapSize(level - 1) == 0
  }

  lemma CreateOutcome(r: Realm, s: State, rd: nat, c: nat, at: nat, level: int)
    requires Inv(r, s)
    ensures Create(r, s, rd, c, at, level).1 ==
      if c == rd || !Is(s, c, Delegated) || !StructureArguments(r, s, rd, at, level) then ErrorInput
      else if LeafLevel(r, s, at) < level - 1 then ErrorRtt(LeafLevel(r, s, at))
      else if LeafLevel(r, s, at) >= level then ErrorRtt(level - 1)
      else if level <= 2 && Sees(r, s, at).PageNs? then AssertFails
      else Success
  {
    hide Inv, View, WalkTo, Sees;
    if StructureArguments(r, s, rd, at, level) {
      StartLevels(r, s);
      var w, i := WalkStops(r, s, at, level - 1);
      var t, j := LeafFound(r, s, at);
    }
  }

  /** The part of an entry's block that an address lies in, one level down. */
  predicate UnfoldsTo(e: Entry, at: nat, level: int, ipa: nat, leaf: Entry) {
    match e
    case Assigned(ripas, pa, _) => pa + (ipa - at) - ipa % MapSize(level) >= 0
      && leaf == Assigned(ripas, pa + (ipa - at) - ipa % MapSize(level), false)
    case AssignedNs(pa) => pa + (ipa - at) - ipa % MapSize(level) >= 0
      && leaf == AssignedNs(pa + (ipa - at) - ipa % MapSize(level))
    case _ => leaf == e
  }

  lemma CreateLeaves(r: Realm, s: State, rd: nat, c: nat, at: nat, level: int, ipa: nat)
    requires Inv(r, s) && Create(r, s, rd, c, at, level).1 == Success && ipa < r.ipaSize
    ensures var s' := Create(r, s, rd, c, at, level).0;
      Inv(r, s') && Is(s', c, Rtt)
      && (if Leaf(r, s, at).Valid() then Flushed(s, s', at) else s'.tlb == s.tlb)
      && (if Inside(ipa, at, level - 1)
          then LeafLevel(r, s', ipa) == level && UnfoldsTo(Leaf(r, s, at), at, level, ipa, Leaf(r, s', ipa))
          else LeafLevel(r, s', ipa) == LeafLevel(r, s, ipa) && Leaf(r, s', ipa) == Leaf(r, s, ipa))
  {
    hide Tree, DataOwned, Counted, TlbBacked, View, WalkTo, Sees, Create, Leaf, LeafLevel, LeafTable;
    CreateKeeps(r, s, rd, c, at, level);
    var p, i := CreateDone(r, s, rd, c, at, level);
    var s' := Create(r, s, rd, c, at, level).0;
    Attachable(r, s, p, i, c);
    AttachDiffers(s, p, i, c);
    StartLevels(r, s);
    LeafIs(r, s, p, i, at);
    if Inside(ipa, at, level - 1) {
      UnfoldedLeaf(r, s, s', p, i, c, ipa);
    } else {
      KeptLeaf(r, s, s', p, i, ipa);
    }
  }

  /** Entries elsewhere go on translating what they did. */
  lemma KeptLeaf(r: Realm, s: State, s': State, p: nat, i: nat, ipa: nat)
    requires Inv(r, s) && Inv(r, s') && At(s, p, i) && ipa < r.ipaSize
    requires !Inside(ipa, EntryBase(s, p, i), s.places[p].level)
    requires forall t, j :: At(s, t, j) && (t != p || j != i) && !s.tables[t][j].Table? && t == LeafTable(r, s, ipa) ==>
      At(s', t, j) && s'.tables[t][j] == s.tables[t][j] && s'.places[t] == s.places[t]
    ensures LeafLevel(r, s', ipa) == LeafLevel(r, s, ipa) && Leaf(r, s', ipa) == Leaf(r, s, ipa)
  {
    hide Inv, View, WalkTo, Sees, Leaf, LeafLevel, LeafTable;
    var u, j := LeafFound(r, s, ipa);
    assert EntryBase(s', u, j) == EntryBase(s, u, j);
    LeafIs(r, s', u, j, ipa);
  }

  /** An address of the unfolded entry is translated by the new table. */
  lemma UnfoldedLeaf(r: Realm, s: State, s': State, p: nat, i: nat, c: nat, ipa: nat)
    requires Inv(r, s) && CanAttach(r, s, p, i, c) && p in s.granules && c in s.granules && c != p
    requires s' == Attach(s, p, i, c) && Inv(r, s') && Inside(ipa, EntryBase(s, p, i), s.places[p].level)
    ensures LeafLevel(r, s', ipa) == s.places[p].level + 1
    ensures UnfoldsTo(s.tables[p][i], EntryBase(s, p, i), s.places[p].level + 1, ipa, Leaf(r, s', ipa))
  {
    hide Tree, DataOwned, Counted, TlbBacked, View, WalkTo, Sees, Leaf, LeafLevel, LeafTable, Linked;
    var at, level := EntryBase(s, p, i), s.places[p].level + 1;
    var j := Index(ipa, level);
    assert r.startLevel <= s.places[p].level;
    NextSize(level);
    BaseAligned(s.places[p].base, i, level - 1);
    IndexInTable(at, ipa, level);
    assert At(s', c, j) && EntryBase(s', c, j) == at + Offset(j, MapSize(level));
    LeafIs(r, s', c, j, ipa);
    SubAligned(at, j, level);
    EntryStart(at + Offset(j, MapSize(level)), ipa, level);
  }

  lemma EntryStart(base: nat, ipa: nat, level: int)
    requires Multiple(base, MapSize(level)) && base <= ipa < base + MapSize(level)
    ensures ipa - ipa % MapSize(level) == base
  {
    MultipleIsAligned(base, MapSize(level));
    var k := base / MapSize(level);
    Arithmetic.DivModUnique(ipa, MapSize(level), k, ipa - base);
  }

  // ---- Tables and what they fold into ------------------------------------------------------

  /** The table of the level that an address is walked through. */
  function TableOf(r: Realm, s: State, at: nat, level: int): nat
    requires Inv(r, s) && r.startLevel <= level <= PAGE_LEVEL
  {
    WalkTo(r, s, r.root, at, level)
  }

  function Opened(e: Entry): Entry {
    if e.Assigned? then e.(blocked := false) else e
  }

  /** Apart from closed access, the entries are the parts of one entry that may stand a level up. */
  ghost predicate FoldsTo(es: seq<Entry>, e: Entry, level: int) {
    && |es| == ENTRIES && !e.Table? && (e.Assigned? ==> level > 2 && !e.blocked)
    && (e.Assigned? || e.AssignedNs? ==> e.pa % MapSize(level - 1) == 0)
    && forall j :: 0 <= j < ENTRIES ==> Opened(es[j]) == UnfoldEntry(e, level, j)
  }

  /** A table folds into an entry exactly if its entries are the parts of that entry. */
  lemma FoldExactly(es: seq<Entry>, level: int, e: Entry)
    requires |es| == ENTRIES && 1 <= level <= 3
    ensures FoldInto(es, Live(es), level) == Into(e) <==> FoldsTo(es, e, level)
  {
    hide Multiple, MapSize, Offset;
    if FoldInto(es, Live(es), level) == Into(e) {
      FoldedParts(es, level, e);
    }
    if FoldsTo(es, e, level) {
      PartsFold(es, level, e);
    }
  }

  lemma FoldedParts(es: seq<Entry>, level: int, e: Entry)
    requires |es| == ENTRIES && 1 <= level <= 3 && FoldInto(es, Live(es), level) == Into(e)
    ensures FoldsTo(es, e, level)
  {
    hide Multiple, MapSize, Offset;
    if e.Assigned? || e.AssignedNs? {
      MultipleIsAligned(e.pa, MapSize(level - 1));
    }
    forall j | 0 <= j < ENTRIES ensures Opened(es[j]) == UnfoldEntry(e, level, j) {
    }
  }

  lemma PartsFold(es: seq<Entry>, level: int, e: Entry)
    requires |es| == ENTRIES && 1 <= level <= 3 && FoldsTo(es, e, level)
    ensures FoldInto(es, Live(es), level) == Into(e)
  {
    hide Multiple, MapSize;
    assert Offset(0, MapSize(level)) == 0;
    hide Offset;
    assert Opened(es[0]) == UnfoldEntry(e, level, 0);
    if e.Assigned? {
      MultipleIsAligned(e.pa, MapSize(level - 1));
      forall j | 0 <= j < ENTRIES ensures es[j].Live() && es[j].Assigned? && es[j].ripas == e.ripas
        && es[j].pa == e.pa + Offset(j, MapSize(level))
      {
        assert Opened(es[j]) == UnfoldEntry(e, level, j);
      }
      LiveAll(es);
      assert MapsBlock(es, level, e.ripas);
    } else {
      forall j | 0 <= j < ENTRIES ensures !es[j].Live() && es[j] == UnfoldEntry(e, level, j) {
        assert Opened(es[j]) == UnfoldEntry(e, level, j);
      }
      LiveNone(es);
      if e.AssignedNs? {
        MultipleIsAligned(e.pa, MapSize(level - 1));
        assert MapsNsBlock(es, level);
      } else {
        UniformFolds(es, e, level);
      }
    }
  }

  lemma UniformFolds(es: seq<Entry>, e: Entry, level: int)
    requires |es| == ENTRIES && (e.Unassigned? || e.UnassignedNs?) && AllAre(es, e)
    ensures FoldInto(es, 0, level) == Into(e)
  {
    AllAreOne(es, e, Unassigned(Destroyed));
    AllAreOne(es, e, Unassigned(Empty));
    AllAreOne(es, e, Unassigned(Ram));
    AllAreOne(es, e, UnassignedNs);
    hide AllAre, MapsNsBlock;
    if e.Unassigned? {
      assert e.ripas == Destroyed || e.ripas == Empty || e.ripas == Ram;
    }
  }

  lemma {:induction false} LiveFull(es: seq<Entry>)
    ensures Live(es) <= |es|
    ensures Live(es) == |es| ==> forall j :: 0 <= j < |es| ==> es[j].Live()
  {
    if es == [] {
    } else {
      LiveFull(es[..|es| - 1]);
      if Live(es) == |es| {
        forall j | 0 <= j < |es| ensures es[j].Live() {
          if j < |es| - 1 {
            assert es[..|es| - 1][j].Live();
          }
        }
      }
    }
  }

  ghost predicate AllLive(es: seq<Entry>) {
    forall j :: 0 <= j < |es| ==> es[j].Live()
  }

  ghost predicate NoneLive(es: seq<Entry>) {
    forall j :: 0 <= j < |es| ==> !es[j].Live()
  }

  /** A full table is refused exactly at the levels whose parents hold no assigned block. */
  lemma TooHighExactly(es: seq<Entry>, level: int)
    requires |es| == ENTRIES
    ensures FoldInto(es, Live(es), level) == TooHigh <==> level <= 2 && AllLive(es)
  {
    hide Multiple, MapSize, Offset, MapsBlock, MapsNsBlock, AllAre;
    LiveFull(es);
    if AllLive(es) {
      LiveAll(es);
    }
  }

  // ---- The table below an entry ---------------------------------------------------------------

  /** Where the walk finds a table one level above, that table starts at the address. */
  lemma TableBelow(r: Realm, s: State, at: nat, level: int) returns (p: nat, i: nat, c: nat)
    requires Inv(r, s) && at < r.ipaSize && r.startLevel + 1 <= level <= 3 && at % MapSize(level - 1) == 0
    requires LeafLevel(r, s, at) >= level
    ensures p == WalkTo(r, s, r.root, at, level - 1) && i == Index(at, level - 1) && PointsTo(s, p, i, c)
    ensures s.places[p].level == level - 1 && EntryBase(s, p, i) == at && c == TableOf(r, s, at, level)
    ensures c in s.tables && |s.tables[c]| == ENTRIES && s.places[c] == Place(level, at)
    ensures c in s.granules && s.granules[c].refcount == Live(s.tables[c])
    ensures c in s.places && p in s.granules && c != p && 0 <= s.places[p].level < 3
  {
    hide Tree, DataOwned, TlbBacked, View, Sees;
    p, i := WalkStops(r, s, at, level - 1);
    c := s.tables[p][i].pa;
    assert PointsTo(s, p, i, c);
    WalkThrough(r, s, c, at, level);
    assert Is(s, p, Rtt) && Is(s, c, Rtt);
  }

  lemma FoldOutcome(r: Realm, s: State, rd: nat, at: nat, level: int)
    requires Inv(r, s)
    ensures Fold(r, s, rd, at, level).1 ==
      if !StructureArguments(r, s, rd, at, level) then ErrorInput
      else if LeafLevel(r, s, at) < level then ErrorRtt(LeafLevel(r, s, at))
      else if level <= 2 && AllLive(s.tables[TableOf(r, s, at, level)]) then ErrorRtt(level - 1)
      else if exists e :: FoldsTo(s.tables[TableOf(r, s, at, level)], e, level) then Success
      else ErrorRtt(level)
  {
    hide Inv, View, WalkTo, Sees, FoldInto, FoldsTo, AllLive, TableOf;
    if StructureArguments(r, s, rd, at, level) {
      StartLevels(r, s);
      var w, k := WalkStops(r, s, at, level - 1);
      if LeafLevel(r, s, at) >= level {
        var p, i, c := TableBelow(r, s, at, level);
        var es := s.tables[c];
        TooHighExactly(es, level);
        forall e ensures FoldInto(es, Live(es), level) == Into(e) <==> FoldsTo(es, e, level) {
          FoldExactly(es, level, e);
        }
      }
    }
  }

  /** The folded table's place afterwards. */
  lemma FoldLeaves(r: Realm, s: State, rd: nat, at: nat, level: int, ipa: nat) returns (e: Entry)
    requires Inv(r, s) && Fold(r, s, rd, at, level).1 == Success && ipa < r.ipaSize
    ensures r.startLevel <= level <= PAGE_LEVEL && FoldsTo(s.tables[TableOf(r, s, at, level)], e, level)
    ensures var s' := Fold(r, s, rd, at, level).0;
      Inv(r, s') && Is(s', TableOf(r, s, at, level), Delegated)
      && (if e.Valid() then FlushedRange(s, s', at, MapSize(level - 1)) else Flushed(s, s', at))
      && (if Inside(ipa, at, level - 1) then LeafLevel(r, s', ipa) == level - 1 && Leaf(r, s', ipa) == e
          else LeafLevel(r, s', ipa) == LeafLevel(r, s, ipa) && Leaf(r, s', ipa) == Leaf(r, s, ipa))
  {
    hide Inv, View, WalkTo, Sees, FoldInto, FoldsTo, TableOf, Leaf, LeafLevel, LeafTable;
    FoldKeeps(r, s, rd, at, level);
    FoldOutcome(r, s, rd, at, level);
    var p, i, c := TableBelow(r, s, at, level);
    var es, s' := s.tables[c], Fold(r, s, rd, at, level).0;
    StartLevels(r, s);
    e := FoldInto(es, Live(es), level).e;
    FoldExactly(es, level, e);
    NoTable(es, e, level);
    DetachedLeaves(r, s, p, i, c, e, FoldTlb(s, e, at, level), s', ipa);
  }

  lemma NoTable(es: seq<Entry>, e: Entry, level: int)
    requires FoldsTo(es, e, level)
    ensures !e.Table?
  {
  }

  /** Replacing a table by an entry: the addresses below are translated by it, all others as before. */
  lemma DetachedLeaves(r: Realm, s: State, p: nat, i: nat, c: nat, e: Entry, tlb: set<Cached>, s': State, ipa: nat)
    requires Inv(r, s) && PointsTo(s, p, i, c) && c in s.tables && c in s.places && !e.Table?
    requires s.places[c] == Place(s.places[p].level + 1, EntryBase(s, p, i)) && 0 <= s.places[p].level < 3
    requires p in s.granules && c in s.granules && c != p
    requires s' == Detach(s, p, i, c, e, tlb) && Inv(r, s') && ipa < r.ipaSize
    ensures if Inside(ipa, EntryBase(s, p, i), s.places[p].level)
      then LeafLevel(r, s', ipa) == s.places[p].level && Leaf(r, s', ipa) == e
      else LeafLevel(r, s', ipa) == LeafLevel(r, s, ipa) && Leaf(r, s', ipa) == Leaf(r, s, ipa)
  {
    hide Inv, View, WalkTo, Sees, Leaf, LeafLevel, LeafTable;
    DetachDiffers(s, p, i, c, e, tlb);
    assert EntryBase(s', p, i) == EntryBase(s, p, i);
    if Inside(ipa, EntryBase(s, p, i), s.places[p].level) {
      LeafIs(r, s', p, i, ipa);
    } else {
      var u, j := LeafFound(r, s, ipa);
      NextSize(s.places[c].level);
      if u == c {
        EntryLength(r, s, c);
        SubRange(s.places[c].base, j, s.places[c].level);
      }
      KeptLeaf(r, s, s', p, i, ipa);
    }
  }

  lemma EntryLength(r: Realm, s: State, t: nat)
    requires Inv(r, s) && t in s.tables
    ensures |s.tables[t]| == ENTRIES
  {
  }

  // ---- Destroying a table ----------------------------------------------------------------------

  lemma DestroyOutcome(r: Realm, s: State, rd: nat, at: nat, level: int)
    requires Inv(r, s)
    ensures Destroy(r, s, rd, at, level).1 ==
      if !StructureArguments(r, s, rd, at, level) then ErrorInput
      else if LeafLevel(r, s, at) < level then ErrorRtt(LeafLevel(r, s, at))
      else if NoneLive(s.tables[TableOf(r, s, at, level)]) then Success
      else ErrorRtt(level)
  {
    hide Inv, View, WalkTo, Sees, TableOf;
    if StructureArguments(r, s, rd, at, level) {
      StartLevels(r, s);
      var w, k := WalkStops(r, s, at, level - 1);
      if LeafLevel(r, s, at) >= level {
        var p, i, c := TableBelow(r, s, at, level);
        LiveNone(s.tables[c]);
      }
    }
  }

  lemma DestroyLeaves(r: Realm, s: State, rd: nat, at: nat, level: int, ipa: nat)
    requires Inv(r, s) && Destroy(r, s, rd, at, level).1 == Success && ipa < r.ipaSize
    ensures r.startLevel <= level <= PAGE_LEVEL
    ensures var s' := Destroy(r, s, rd, at, level).0;
      Inv(r, s') && Is(s', TableOf(r, s, at, level), Delegated)
      && (if at < r.parSize then Flushed(s, s', at) else FlushedRange(s, s', at, MapSize(level - 1)))
      && (if Inside(ipa, at, level - 1)
          then LeafLevel(r, s', ipa) == level - 1
            && Leaf(r, s', ipa) == (if at < r.parSize then Unassigned(Destroyed) else UnassignedNs)
          else LeafLevel(r, s', ipa) == LeafLevel(r, s, ipa) && Leaf(r, s', ipa) == Leaf(r, s, ipa))
  {
    hide Inv, View, WalkTo, Sees, TableOf, Leaf, LeafLevel, LeafTable;
    DestroyKeeps(r, s, rd, at, level);
    DestroyOutcome(r, s, rd, at, level);
    var p, i, c := TableBelow(r, s, at, level);
    var e := if InPar(r, at) then Unassigned(Destroyed) else UnassignedNs;
    DetachedLeaves(r, s, p, i, c, e, DestroyTlb(r, s, at, level), Destroy(r, s, rd, at, level).0, ipa);
  }
}
