/** What every address means to the realm, and that folding and unfolding tables never changes it. */
module RttView {
  import opened Arithmetic
  import opened Strides
  import opened RttModel
  import opened RttCommands
  import opened RttSafety
  import opened RttTree

  /** The state an address is in: its host and realm state and the physical address behind it. */
  datatype Meaning = Hole(ripas: Ripas) | HoleNs | Page(ripas: Ripas, pa: nat) | PageNs(pa: nat)

  function EntryMeaning(e: Entry, level: int, ipa: nat): Meaning
    requires !e.Table?
  {
    match e
    case Unassigned(ripas) => Hole(ripas)
    case UnassignedNs => HoleNs
    case Assigned(ripas, pa, _) => Page(ripas, pa + ipa % MapSize(level))
    case AssignedNs(pa) => PageNs(pa + ipa % MapSize(level))
  }

  /** The meaning of an address, walking down from table t. */
  function View(r: Realm, s: State, t: nat, ipa: nat): Meaning
    requires Shape(r, s) && Linked(r, s) && t in s.tables
    decreases PAGE_LEVEL - s.places[t].level
  {
    var level := s.places[t].level;
    var i := Index(ipa, level);
    assert At(s, t, i);
    var e := s.tables[t][i];
    if e.Table? then
      assert PointsTo(s, t, i, e.pa);
      View(r, s, e.pa, ipa)
    else EntryMeaning(e, level, ipa)
  }

  /** The meaning of an address to the realm. */
  function Sees(r: Realm, s: State, ipa: nat): Meaning
    requires Inv(r, s)
  {
    View(r, s, r.root, ipa)
  }

  // ---- Unfolding and folding ------------------------------------------------------------

  /** An unfolded entry means what the entry above meant. */
  lemma UnfoldMeaning(e: Entry, level: int, ipa: nat)
    requires !e.Table? && 1 <= level <= 3
    ensures EntryMeaning(UnfoldEntry(e, level, Index(ipa, level)), level, ipa) == EntryMeaning(e, level - 1, ipa)
  {
    NextSize(level);
    DivDiv(ipa, MapSize(level), 512);
    OffsetIsProduct(Index(ipa, level), MapSize(level));
  }

  /** Two trees differ in that the leaf entry i of table p is, in the bigger one, a table c that means the same. */
  ghost predicate Expands(r: Realm, small: State, big: State, p: nat, i: nat, c: nat) {
    && Shape(r, small) && Linked(r, small) && Shape(r, big) && Linked(r, big)
    && At(small, p, i) && !small.tables[p][i].Table? && PointsTo(big, p, i, c)
    && 0 <= small.places[p].level
    && (forall t :: t in small.tables ==> t in big.tables && big.places[t] == small.places[t])
    && (forall t, j :: At(small, t, j) && (t != p || j != i) ==> big.tables[t][j] == small.tables[t][j])
    && SameMeanings(big, c, small.tables[p][i], small.places[p].level + 1)
  }

  /** Every entry of table c means what the entry it stands for means. */
  ghost predicate SameMeanings(s: State, c: nat, e: Entry, level: int)
    requires !e.Table?
  {
    c in s.tables
    && forall j :: 0 <= j < |s.tables[c]| ==> MeansUnfolded(s.tables[c][j], e, level, j)
  }

  ghost predicate MeansUnfolded(e': Entry, e: Entry, level: int, j: nat)
    requires !e.Table?
  {
    !e'.Table?
    && forall ipa :: EntryMeaning(e', level, ipa) == EntryMeaning(UnfoldEntry(e, level, j), level, ipa)
  }

  lemma {:induction false} ExpandView(r: Realm, small: State, big: State, p: nat, i: nat, c: nat, t: nat, ipa: nat)
    requires Expands(r, small, big, p, i, c) && t in small.tables
    ensures t in big.tables && View(r, big, t, ipa) == View(r, small, t, ipa)
    decreases PAGE_LEVEL - small.places[t].level
  {
    var level := small.places[t].level;
    var k := Index(ipa, level);
    assert At(small, t, k) && At(big, t, k);
    if t == p && k == i {
      ExpandedEntry(r, small, big, p, i, c, ipa);
    } else if small.tables[t][k].Table? {
      var x := small.tables[t][k].pa;
      assert PointsTo(small, t, k, x) && PointsTo(big, t, k, x);
      ExpandView(r, small, big, p, i, c, x, ipa);
    }
  }

  lemma ExpandedEntry(r: Realm, small: State, big: State, p: nat, i: nat, c: nat, ipa: nat)
    requires Expands(r, small, big, p, i, c) && i == Index(ipa, small.places[p].level)
    ensures View(r, big, p, ipa) == View(r, small, p, ipa)
  {
    var level := small.places[p].level;
    var e := small.tables[p][i];
    assert At(big, p, i) && PointsTo(big, p, i, c);
    var j := Index(ipa, level + 1);
    assert At(big, c, j);
    assert MeansUnfolded(big.tables[c][j], e, level + 1, j);
    assert View(r, big, c, ipa) == EntryMeaning(big.tables[c][j], level + 1, ipa);
    UnfoldMeaning(e, level + 1, ipa);
  }

  lemma AttachDiffers(s: State, p: nat, i: nat, c: nat)
    requires At(s, p, i) && !s.tables[p][i].Table? && p in s.granules && c in s.granules && c != p
    requires c !in s.tables && c !in s.places
    ensures var s' := Attach(s, p, i, c);
      PointsTo(s', p, i, c) && c in s'.tables
      && s'.tables[c] == Unfold(s.tables[p][i], s.places[p].level + 1)
      && (forall t :: t in s.tables ==> t in s'.tables)
      && (forall t :: t in s.places ==> t in s'.places && s'.places[t] == s.places[t])
      && (forall t, j :: At(s, t, j) && (t != p || j != i) ==> s'.tables[t][j] == s.tables[t][j])
  {
  }

  lemma AttachExpands(r: Realm, s: State, p: nat, i: nat, c: nat)
    requires ValidRealm(r) && Shape(r, s) && Linked(r, s) && CanAttach(r, s, p, i, c)
    ensures p in s.granules && c in s.granules && c != p && Expands(r, s, Attach(s, p, i, c), p, i, c)
  {
    Attachable(r, s, p, i, c);
    AttachKeepsShape(r, s, p, i, c);
    AttachKeepsLinks(r, s, p, i, c);
    AttachDiffers(s, p, i, c);
    assert r.startLevel <= s.places[p].level;
    var es := Unfold(s.tables[p][i], s.places[p].level + 1);
    assert forall j :: 0 <= j < |es| ==> MeansUnfolded(es[j], s.tables[p][i], s.places[p].level + 1, j);
  }

  /** Creating a table changes the meaning of no address. */
  lemma CreatePreservesView(r: Realm, s: State, rd: nat, c: nat, at: nat, level: int, ipa: nat)
    requires Inv(r, s)
    ensures Inv(r, Create(r, s, rd, c, at, level).0)
    ensures Sees(r, Create(r, s, rd, c, at, level).0, ipa) == Sees(r, s, ipa)
  {
    CreateKeeps(r, s, rd, c, at, level);
    if Create(r, s, rd, c, at, level).1 == Success {
      var p, i := CreateDone(r, s, rd, c, at, level);
      AttachExpands(r, s, p, i, c);
      ExpandView(r, s, Attach(s, p, i, c), p, i, c, r.root, ipa);
    }
  }

  lemma FoldedMeanings(es: seq<Entry>, refcount: int, level: int)
    requires |es| == ENTRIES && FoldInto(es, refcount, level).Into?
    ensures forall j :: 0 <= j < ENTRIES ==> MeansUnfolded(es[j], FoldInto(es, refcount, level).e, level, j)
  {
  }

  lemma DetachDiffers(s: State, p: nat, i: nat, c: nat, e: Entry, tlb: set<Cached>)
    requires At(s, p, i) && p in s.granules && c in s.granules && c != p
    ensures var s' := Detach(s, p, i, c, e, tlb);
      At(s', p, i) && s'.tables[p][i] == e
      && (forall t :: t in s'.tables && t in s'.places ==>
            t in s.tables && t in s.places && s.places[t] == s'.places[t])
      && (forall t, j :: At(s', t, j) && (t != p || j != i) ==> s.tables[t][j] == s'.tables[t][j])
  {
  }

  lemma DetachExpands(r: Realm, s: State, p: nat, i: nat, c: nat, e: Entry, tlb: set<Cached>)
    requires ValidRealm(r) && Shape(r, s) && Linked(r, s) && Tree(r, s) && Counted(s) && CanDetach(r, s, p, i, c, e)
    requires SameMeanings(s, c, e, s.places[p].level + 1)
    ensures p in s.granules && c in s.granules && c != p
    ensures Expands(r, Detach(s, p, i, c, e, tlb), s, p, i, c)
  {
    hide GranulesOk, EntriesOk, Counted, SameMeanings, EntryOk;
    DetachKeepsShape(r, s, p, i, c, e, tlb);
    DetachedAlone(r, s, p, i, c, e);
    DetachKeepsLinks(r, s, p, i, c, e, tlb);
    DetachDiffers(s, p, i, c, e, tlb);
    assert p in s.tables && r.startLevel <= s.places[p].level;
  }

  /** Folding a table changes the meaning of no address. */
  lemma FoldPreservesView(r: Realm, s: State, rd: nat, at: nat, level: int, ipa: nat)
    requires Inv(r, s)
    ensures Inv(r, Fold(r, s, rd, at, level).0)
    ensures Sees(r, Fold(r, s, rd, at, level).0, ipa) == Sees(r, s, ipa)
  {
    hide Tree, DataOwned, Counted, TlbBacked, View, FoldInto, FoldTlb, Live;
    FoldKeeps(r, s, rd, at, level);
    if Fold(r, s, rd, at, level).1 == Success {
      var p, i, c, e := FoldDone(r, s, rd, at, level);
      var tlb := FoldTlb(s, e, at, level);
      FoldedMeanings(s.tables[c], s.granules[c].refcount, level);
      DetachExpands(r, s, p, i, c, e, tlb);
      ExpandView(r, Detach(s, p, i, c, e, tlb), s, p, i, c, r.root, ipa);
    }
  }

  lemma AllAreOne(es: seq<Entry>, e: Entry, e': Entry)
    requires |es| > 0 && AllAre(es, e)
    ensures AllAre(es, e') <==> e == e'
  {
    assert es[0] == e;
  }

  lemma FoldUniform(e: Entry, level: int)
    requires e.Unassigned? || e.UnassignedNs?
    ensures FoldInto(Unfold(e, level), 0, level) == Into(e)
  {
    var es := Unfold(e, level);
    assert AllAre(es, e);
    AllAreOne(es, e, Unassigned(Destroyed));
    AllAreOne(es, e, Unassigned(Empty));
    AllAreOne(es, e, Unassigned(Ram));
    AllAreOne(es, e, UnassignedNs);
    if e.Unassigned? {
      assert e.ripas == Destroyed || e.ripas == Empty || e.ripas == Ram;
    }
  }

  lemma UnfoldMaps(e: Entry, level: int)
    requires (e.Assigned? || e.AssignedNs?) && Multiple(e.pa, MapSize(level - 1))
    ensures Unfold(e, level)[0].pa == e.pa
    ensures e.Assigned? ==> MapsBlock(Unfold(e, level), level, e.ripas)
    ensures e.AssignedNs? ==> MapsNsBlock(Unfold(e, level), level)
  {
    assert Offset(0, MapSize(level)) == 0;
    assert Unfold(e, level)[0] == UnfoldEntry(e, level, 0);
  }

  lemma FoldBlock(es: seq<Entry>, level: int, ripas: Ripas)
    requires |es| == ENTRIES && MapsBlock(es, level, ripas) && level > MIN_BLOCK_LEVEL
    ensures FoldInto(es, ENTRIES, level) == Into(Assigned(ripas, es[0].pa, false))
  {
    assert es[0].ripas == ripas;
  }

  lemma FoldNsBlock(es: seq<Entry>, level: int)
    requires |es| == ENTRIES && MapsNsBlock(es, level)
    ensures FoldInto(es, 0, level) == Into(AssignedNs(es[0].pa))
  {
  }

  /** An unfolded entry folds back into itself. */
  lemma UnfoldFolds(r: Realm, e: Entry, level: int, base: nat)
    requires 1 <= level <= 3 && EntryOk(r, e, level - 1, base) && !e.Table?
    ensures FoldInto(Unfold(e, level), if e.Assigned? then ENTRIES else 0, level) == Into(e)
  {
    if e.Assigned? {
      UnfoldMaps(e, level);
      FoldBlock(Unfold(e, level), level, e.ripas);
    } else if e.AssignedNs? {
      UnfoldMaps(e, level);
      FoldNsBlock(Unfold(e, level), level);
    } else {
      FoldUniform(e, level);
    }
  }

  lemma AttachDetach(r: Realm, s: State, p: nat, i: nat, c: nat, tlb: set<Cached>)
    requires Shape(r, s) && CanAttach(r, s, p, i, c) && p in s.granules && c in s.granules && c != p
    ensures At(Attach(s, p, i, c), p, i)
    ensures Detach(Attach(s, p, i, c), p, i, c, s.tables[p][i], tlb) == s.(tlb := tlb)
  {
    Attachable(r, s, p, i, c);
    hide Shape, Offset, MapSize, Unfold;
    var e := s.tables[p][i];
    var s' := Detach(Attach(s, p, i, c), p, i, c, e, tlb);
    assert s.tables[p][i := Table(c)][i := e] == s.tables[p];
    assert s'.tables == s.tables;
    assert s'.places == s.places;
    assert s.granules[c] == Granule(Delegated, 0);
    assert s'.granules == s.granules;
  }

  /** A fold right after a creation succeeds and restores everything but the TLB. */
  lemma CreateThenFold(r: Realm, s: State, rd: nat, c: nat, ipa: nat, level: int)
    requires Inv(r, s) && Create(r, s, rd, c, ipa, level).1 == Success
    ensures Inv(r, Create(r, s, rd, c, ipa, level).0)
    ensures Fold(r, Create(r, s, rd, c, ipa, level).0, rd, ipa, level).1 == Success
    ensures var s2 := Fold(r, Create(r, s, rd, c, ipa, level).0, rd, ipa, level).0; s2 == s.(tlb := s2.tlb)
  {
    var s1 := Create(r, s, rd, c, ipa, level).0;
    CreateKeeps(r, s, rd, c, ipa, level);
    var p, i := CreateDone(r, s, rd, c, ipa, level);
    CreatedFolds(r, s, s1, rd, c, ipa, level, p, i);
    AttachDetach(r, s, p, i, c, FoldTlb(s1, s.tables[p][i], ipa, level));
  }

  lemma CreatedFolds(r: Realm, s: State, s1: State, rd: nat, c: nat, ipa: nat, level: int, p: nat, i: nat)
    requires Shape(r, s) && Linked(r, s) && Is(s, rd, Descriptor) && ValidStructure(r, ipa, level)
    requires CanAttach(r, s, p, i, c) && p in s.granules && c in s.granules && c != p
    requires s1 == Attach(s, p, i, c) && Inv(r, s1)
    requires s.places[p].level == level - 1 && EntryBase(s, p, i) == ipa
    requires p == WalkTo(r, s, r.root, ipa, level - 1) && i == Index(ipa, level - 1)
    ensures At(s1, p, i)
    ensures Fold(r, s1, rd, ipa, level)
      == (Detach(s1, p, i, c, s.tables[p][i], FoldTlb(s1, s.tables[p][i], ipa, level)), Success)
  {
    hide Tree, DataOwned, Counted, TlbBacked, FoldInto, Unfold;
    Attachable(r, s, p, i, c);
    var e := s.tables[p][i];
    assert EntryOk(r, e, level - 1, ipa);
    AttachWalk(r, s, p, i, c, r.root, ipa, level - 1);
    UnfoldFolds(r, e, level, ipa);
    assert Is(s1, rd, Descriptor);
    assert WalkTo(r, s1, r.root, ipa, level - 1) == p && s1.places[p].level == level - 1;
    assert s1.tables[p][i] == Table(c) && s1.tables[c] == Unfold(e, level);
    assert FoldInto(s1.tables[c], s1.granules[c].refcount, level) == Into(e);
  }

  /** A walk to the level of the attached entry, or above, ends where it did before. */
  lemma {:induction false} AttachWalk(r: Realm, s: State, p: nat, i: nat, c: nat, t: nat, ipa: nat, target: int)
    requires Shape(r, s) && Linked(r, s) && CanAttach(r, s, p, i, c) && t in s.tables
    requires p in s.granules && c in s.granules && c != p
    requires Shape(r, Attach(s, p, i, c)) && Linked(r, Attach(s, p, i, c))
    requires s.places[t].level <= target <= s.places[p].level
    ensures WalkTo(r, Attach(s, p, i, c), t, ipa, target) == WalkTo(r, s, t, ipa, target)
    decreases PAGE_LEVEL - s.places[t].level
  {
    Attachable(r, s, p, i, c);
    AttachDiffers(s, p, i, c);
    var k := Index(ipa, s.places[t].level);
    assert At(s, t, k);
    if s.places[t].level != target && s.tables[t][k].Table? {
      assert PointsTo(s, t, k, s.tables[t][k].pa);
      AttachWalk(r, s, p, i, c, s.tables[t][k].pa, ipa, target);
    }
  }

  // ---- Leaf writes --------------------------------------------------------------------------

  /** An address in the range of a table is translated by that table. */
  lemma {:induction false} ViewFrom(r: Realm, s: State, t: nat, ipa: nat)
    requires Inv(r, s) && t in s.tables && InTable(s, t, ipa)
    ensures View(r, s, r.root, ipa) == View(r, s, t, ipa)
    decreases s.places[t].level - r.startLevel
  {
    if t != r.root {
      assert HasParent(s, t);
      var p, i :| PointsTo(s, p, i, t);
      assert At(s, p, i) && EntryOk(r, s.tables[p][i], s.places[p].level, EntryBase(s, p, i));
      var level := s.places[p].level;
      ParentRange(s.places[p].base, i, level, ipa);
      ViewFrom(r, s, p, ipa);
    }
  }

  /** The range of an entry lies in the range of its table and has the entry's index. */
  lemma ParentRange(base: nat, i: nat, level: int, ipa: nat)
    requires 0 <= level < 3 && i < ENTRIES && Multiple(base, TableSize(level))
    requires base + Offset(i, MapSize(level)) <= ipa < base + Offset(i, MapSize(level)) + TableSize(level + 1)
    ensures base <= ipa < base + TableSize(level) && Index(ipa, level) == i
  {
    NextSize(level + 1);
    EntryRange(base, i, level, ipa);
  }

  lemma EntryRange(base: nat, i: nat, level: int, ipa: nat)
    requires i < ENTRIES && Multiple(base, TableSize(level))
    requires base + Offset(i, MapSize(level)) <= ipa < base + Offset(i, MapSize(level)) + MapSize(level)
    ensures base <= ipa < base + TableSize(level) && Index(ipa, level) == i
  {
    OffsetIsProduct(i, MapSize(level));
    MulNonNegative(i, MapSize(level));
    MulMonotone(i, 511, MapSize(level));
    IndexInTable(base, ipa, level);
    OneIndex(base, ipa, MapSize(level), i, Index(ipa, level));
  }

  /** A leaf write gives the addresses of its entry their new meaning. */
  lemma WriteInside(r: Realm, s: State, t: nat, i: nat, ipa: nat)
    requires Inv(r, s) && At(s, t, i) && !s.tables[t][i].Table?
    requires EntryBase(s, t, i) <= ipa < EntryBase(s, t, i) + MapSize(s.places[t].level)
    ensures Sees(r, s, ipa) == EntryMeaning(s.tables[t][i], s.places[t].level, ipa)
  {
    EntryRange(s.places[t].base, i, s.places[t].level, ipa);
    ViewFrom(r, s, t, ipa);
  }

  /** A leaf write changes the meaning of no address outside its entry. */
  lemma {:induction false} WriteOutside(r: Realm, s: State, s': State, t: nat, i: nat, e: Entry, u: nat, ipa: nat)
    requires Shape(r, s) && Linked(r, s) && Shape(r, s') && Linked(r, s') && ValidRealm(r)
    requires Wrote(s, s', t, i, e) && u in s.tables && InTable(s, u, ipa)
    requires !e.Table? && !s.tables[t][i].Table?
    requires !(EntryBase(s, t, i) <= ipa < EntryBase(s, t, i) + MapSize(s.places[t].level))
    ensures View(r, s', u, ipa) == View(r, s, u, ipa)
    decreases PAGE_LEVEL - s.places[u].level
  {
    var k := Index(ipa, s.places[u].level);
    assert At(s, u, k);
    IndexInTable(s.places[u].base, ipa, s.places[u].level);
    assert s'.tables[u][k] == s.tables[u][k];
    if s.tables[u][k].Table? {
      assert PointsTo(s, u, k, s.tables[u][k].pa) && PointsTo(s', u, k, s.tables[u][k].pa);
      StepDown(r, s, u, ipa);
      WriteOutside(r, s, s', t, i, e, s.tables[u][k].pa, ipa);
    }
  }

  /** What a leaf write does to every address of the realm. */
  lemma WriteSees(r: Realm, s: State, s': State, t: nat, i: nat, e: Entry, ipa: nat)
    requires Inv(r, s) && Inv(r, s') && Wrote(s, s', t, i, e) && ipa < r.ipaSize
    requires !e.Table? && !s.tables[t][i].Table?
    ensures Sees(r, s', ipa)
      == if EntryBase(s, t, i) <= ipa < EntryBase(s, t, i) + MapSize(s.places[t].level)
         then EntryMeaning(e, s.places[t].level, ipa)
         else Sees(r, s, ipa)
  {
    RootCovers(r, s, ipa);
    if EntryBase(s, t, i) <= ipa < EntryBase(s, t, i) + MapSize(s.places[t].level) {
      assert At(s', t, i) && EntryBase(s', t, i) == EntryBase(s, t, i);
      WriteInside(r, s', t, i, ipa);
    } else {
      WriteOutside(r, s, s', t, i, e, r.root, ipa);
    }
  }
}
