/** Unfolding and folding tables keep the invariant: the tree, the counts, the owners and the TLB. */
module RttTree {
  import opened Arithmetic
  import opened Strides
  import opened RttModel
  import opened RttCommands
  import opened RttSafety

  // ---- Ranges of entries and of the entries below them --------------------------------

  /** Entry j of the level below stays inside the range of the entry above. */
  lemma SubRange(base: nat, j: nat, level: int)
    requires 1 <= level <= 3 && j < ENTRIES
    ensures base <= base + Offset(j, MapSize(level))
    ensures base + Offset(j, MapSize(level)) + MapSize(level) <= base + MapSize(level - 1)
  {
    NextSize(level);
    OffsetIsProduct(j, MapSize(level));
    MulNonNegative(j, MapSize(level));
    MulMonotone(j, 511, MapSize(level));
  }

  /** The entry below that contains an address of the range above. */
  lemma SubIndex(base: nat, a: nat, level: int) returns (j: nat)
    requires 1 <= level <= 3 && base <= a < base + MapSize(level - 1)
    ensures j < ENTRIES
    ensures base + Offset(j, MapSize(level)) <= a < base + Offset(j, MapSize(level)) + MapSize(level)
  {
    var size := MapSize(level);
    NextSize(level);
    var k := (a - base) / size;
    if k < 0 {
      MulMonotone(k, -1, size);
      assert false;
    }
    if k >= ENTRIES {
      MulMonotone(ENTRIES, k, size);
      assert false;
    }
    j := k;
    OffsetIsProduct(j, size);
  }

  lemma SubAligned(a: nat, j: nat, level: int)
    requires 1 <= level <= 3 && Multiple(a, MapSize(level - 1))
    ensures Multiple(a + Offset(j, MapSize(level)), MapSize(level))
  {
    NextSize(level);
    BaseAligned(a, j, level);
  }

  /** An aligned range never straddles the protected boundary. */
  lemma ParBoundary(r: Realm, base: nat, level: int)
    requires ValidRealm(r) && r.startLevel <= level <= PAGE_LEVEL && Multiple(base, MapSize(level))
    ensures base < r.parSize ==> base + MapSize(level) <= r.parSize
  {
    CoarserAligned(r.parSize, r.startLevel, level);
    NextMultiple(base, r.parSize, MapSize(level));
  }

  lemma {:induction false} CoarserAligned(a: nat, coarse: int, fine: int)
    requires 0 <= coarse <= fine <= 3 && Multiple(a, MapSize(coarse))
    ensures Multiple(a, MapSize(fine))
    decreases fine - coarse
  {
    if coarse == fine {
    } else {
      NextSize(coarse + 1);
      SubAligned(a, 0, coarse + 1);
      CoarserAligned(a, coarse + 1, fine);
    }
  }

  lemma {:induction false} NextMultiple(a: nat, b: nat, size: nat)
    requires size > 0 && Multiple(a, size) && Multiple(b, size)
    ensures a < b ==> a + size <= b
  {
    if a >= size && b >= size {
      NextMultiple(a - size, b - size, size);
    }
  }

  // ---- Attaching an unfolded table -------------------------------------------------------

  /** Entry i of table p can be replaced by the table granule c. */
  ghost predicate CanAttach(r: Realm, s: State, p: nat, i: nat, c: nat) {
    At(s, p, i) && !s.tables[p][i].Table? && s.places[p].level < PAGE_LEVEL && Is(s, c, Delegated)
  }

  lemma Attachable(r: Realm, s: State, p: nat, i: nat, c: nat)
    requires Shape(r, s) && CanAttach(r, s, p, i, c)
    ensures p in s.granules && c in s.granules && c != p && c !in s.tables && c !in s.places
    ensures s.granules[c].refcount == 0
  {
    assert Is(s, p, Rtt);
    assert !Is(s, c, Rtt);
  }

  lemma UnfoldOk(r: Realm, e: Entry, base: nat, level: int, j: nat)
    requires ValidRealm(r) && r.startLevel < level <= 3 && 0 <= j < ENTRIES && !e.Table?
    requires Multiple(base, MapSize(level - 1)) && EntryOk(r, e, level - 1, base)
    ensures EntryOk(r, UnfoldEntry(e, level, j), level, base + Offset(j, MapSize(level)))
  {
    SubRange(base, j, level);
    ParBoundary(r, base, level - 1);
    if e.Assigned? || e.AssignedNs? {
      SubAligned(e.pa, j, level);
    }
  }

  lemma AttachKeepsGranules(s: State, p: nat, i: nat, c: nat)
    requires GranulesOk(s) && At(s, p, i) && !s.tables[p][i].Table? && Is(s, c, Delegated) && p in s.tables
    ensures p in s.granules && c in s.granules && c != p && GranulesOk(Attach(s, p, i, c))
  {
    assert Is(s, p, Rtt) && !Is(s, c, Rtt);
    var s' := Attach(s, p, i, c);
    forall t ensures t in s'.tables <==> Is(s', t, Rtt) {
      assert t in s.tables <==> Is(s, t, Rtt);
    }
    forall g | Is(s', g, Delegated) || Is(s', g, Data) ensures s'.granules[g].refcount == 0 {
      assert Is(s, g, Delegated) || Is(s, g, Data);
    }
  }

  lemma AttachKeepsEntries(r: Realm, s: State, p: nat, i: nat, c: nat)
    requires ValidRealm(r) && PlacesOk(r, s) && EntriesOk(r, s) && CanAttach(r, s, p, i, c)
    requires p in s.granules && c in s.granules && c != p && c !in s.tables
    ensures PlacesOk(r, Attach(s, p, i, c)) && EntriesOk(r, Attach(s, p, i, c))
  {
    var s' := Attach(s, p, i, c);
    var e, base, level := s.tables[p][i], EntryBase(s, p, i), s.places[p].level + 1;
    NextSize(level);
    BaseAligned(s.places[p].base, i, level - 1);
    forall t, j | At(s', t, j) ensures EntryOk(r, s'.tables[t][j], s'.places[t].level, EntryBase(s', t, j)) {
      if t == c {
        assert At(s, p, i);
        UnfoldOk(r, e, base, level, j);
      } else {
        assert At(s, t, j) && EntryBase(s', t, j) == EntryBase(s, t, j);
      }
    }
  }

  lemma AttachKeepsShape(r: Realm, s: State, p: nat, i: nat, c: nat)
    requires ValidRealm(r) && Shape(r, s) && CanAttach(r, s, p, i, c)
    ensures p in s.granules && c in s.granules && c != p && Shape(r, Attach(s, p, i, c))
  {
    hide GranulesOk, PlacesOk, EntriesOk, Attach;
    Attachable(r, s, p, i, c);
    AttachKeepsGranules(s, p, i, c);
    AttachKeepsEntries(r, s, p, i, c);
  }

  /** The new entry is the one pointer to the new table; all others are as before. */
  lemma AttachPoints(r: Realm, s: State, p: nat, i: nat, c: nat)
    requires Shape(r, s) && CanAttach(r, s, p, i, c)
    ensures p in s.granules && c in s.granules && c != p
    ensures forall t, j, x :: PointsTo(Attach(s, p, i, c), t, j, x)
              <==> (t == p && j == i && x == c) || PointsTo(s, t, j, x)
  {
    Attachable(r, s, p, i, c);
  }

  lemma AttachKeepsLinks(r: Realm, s: State, p: nat, i: nat, c: nat)
    requires Shape(r, s) && Linked(r, s) && CanAttach(r, s, p, i, c)
    ensures p in s.granules && c in s.granules && c != p && Linked(r, Attach(s, p, i, c))
  {
    Attachable(r, s, p, i, c);
    AttachPoints(r, s, p, i, c);
    var s' := Attach(s, p, i, c);
    forall t, j, x | PointsTo(s', t, j, x)
      ensures x in s'.tables && x in s'.places && x != r.root
        && s'.places[x] == Place(s'.places[t].level + 1, EntryBase(s', t, j))
    {
      if PointsTo(s, t, j, x) {
        assert At(s, t, j) && x != c;
      }
    }
  }

  lemma AttachKeepsTree(r: Realm, s: State, p: nat, i: nat, c: nat)
    requires Shape(r, s) && Linked(r, s) && Tree(r, s) && CanAttach(r, s, p, i, c)
    ensures p in s.granules && c in s.granules && c != p && Tree(r, Attach(s, p, i, c))
  {
    Attachable(r, s, p, i, c);
    AttachPoints(r, s, p, i, c);
    var s' := Attach(s, p, i, c);
    forall x | x in s'.tables && x != r.root ensures HasParent(s', x) {
      if x == c {
        assert PointsTo(s', p, i, c);
      } else {
        assert HasParent(s, x);
        var t, j :| PointsTo(s, t, j, x);
        assert PointsTo(s', t, j, x);
      }
    }
    forall t, j, t', j', x | PointsTo(s', t, j, x) && PointsTo(s', t', j', x) ensures t == t' && j == j' {
      if x == c {
        assert !PointsTo(s, t, j, c) && !PointsTo(s, t', j', c);
      }
    }
  }

  lemma UnfoldLive(e: Entry, level: int)
    requires !e.Table?
    ensures Live(Unfold(e, level)) == if e.Assigned? then ENTRIES else 0
  {
    if e.Assigned? {
      LiveAll(Unfold(e, level));
    } else {
      LiveNone(Unfold(e, level));
    }
  }

  lemma AttachCounts(r: Realm, s: State, p: nat, i: nat, c: nat)
    requires Shape(r, s) && Counted(s) && CanAttach(r, s, p, i, c)
    ensures p in s.granules && c in s.granules && c != p && Counted(Attach(s, p, i, c))
  {
    Attachable(r, s, p, i, c);
    LiveUpdate(s.tables[p], i, Table(c));
    UnfoldLive(s.tables[p][i], s.places[p].level + 1);
  }

  /** The unfolded entries assign exactly the granules the entry above assigned. */
  lemma AttachCovers(r: Realm, s: State, p: nat, i: nat, c: nat)
    requires Shape(r, s) && CanAttach(r, s, p, i, c) && 0 <= s.places[p].level
    ensures p in s.granules && c in s.granules && c != p
    ensures forall t, j, g :: t != c && (t != p || j != i) ==>
              (Covers(Attach(s, p, i, c), t, j, g) <==> Covers(s, t, j, g))
    ensures forall g :: !Covers(Attach(s, p, i, c), p, i, g)
    ensures forall j, g :: Covers(Attach(s, p, i, c), c, j, g) ==> Covers(s, p, i, g)
    ensures forall j, j', g :: Covers(Attach(s, p, i, c), c, j, g) && Covers(Attach(s, p, i, c), c, j', g) ==> j == j'
    ensures forall g :: Covers(s, p, i, g) ==> exists j :: Covers(Attach(s, p, i, c), c, j, g)
  {
    Attachable(r, s, p, i, c);
    var s' := Attach(s, p, i, c);
    var e, level := s.tables[p][i], s.places[p].level + 1;
    forall j, g | Covers(s', c, j, g) ensures Covers(s, p, i, g) {
      SubRange(e.pa, j, level);
    }
    forall j, j', g | Covers(s', c, j, g) && Covers(s', c, j', g) ensures j == j' {
      OneIndex(e.pa, g, MapSize(level), j, j');
    }
    forall g | Covers(s, p, i, g) ensures exists j :: Covers(s', c, j, g) {
      var j := SubIndex(e.pa, g, level);
      assert Covers(s', c, j, g);
    }
  }

  lemma AttachKeepsOwner(r: Realm, s: State, p: nat, i: nat, c: nat)
    requires ValidRealm(r) && Shape(r, s) && DataOwned(s) && CanAttach(r, s, p, i, c)
    ensures p in s.granules && c in s.granules && c != p && DataOwned(Attach(s, p, i, c))
  {
    Attachable(r, s, p, i, c);
    AttachCovers(r, s, p, i, c);
    var s' := Attach(s, p, i, c);
    assert Is(s, p, Rtt);
    forall g ensures Is(s', g, Data) <==> Is(s, g, Data) {}
    forall g | Is(s', g, Data) ensures HasOwner(s', g) {
      assert HasOwner(s, g);
      var t, j :| Covers(s, t, j, g);
      if t == p && j == i {
        var j' :| Covers(s', c, j', g);
      } else {
        assert Covers(s', t, j, g);
      }
    }
  }

  lemma AttachKeepsTlb(r: Realm, s: State, p: nat, i: nat, c: nat)
    requires Shape(r, s) && TlbBacked(s) && CanAttach(r, s, p, i, c)
    ensures p in s.granules && c in s.granules && c != p && TlbBacked(Attach(s, p, i, c))
  {
    Attachable(r, s, p, i, c);
    var s' := Attach(s, p, i, c);
    forall x | x in s'.tlb ensures HasSource(s', x) {
      assert HasSource(s, x);
      var t, j :| Backs(s, t, j, x);
      assert Backs(s', t, j, x);
    }
  }

  lemma AttachKeeps(r: Realm, s: State, p: nat, i: nat, c: nat)
    requires Inv(r, s) && CanAttach(r, s, p, i, c)
    ensures p in s.granules && c in s.granules && c != p && Inv(r, Attach(s, p, i, c))
  {
    AttachKeepsShape(r, s, p, i, c);
    AttachKeepsLinks(r, s, p, i, c);
    AttachKeepsTree(r, s, p, i, c);
    AttachCounts(r, s, p, i, c);
    AttachKeepsOwner(r, s, p, i, c);
    AttachKeepsTlb(r, s, p, i, c);
  }

  /** What a successful creation did. */
  lemma CreateDone(r: Realm, s: State, rd: nat, c: nat, ipa: nat, level: int) returns (p: nat, i: nat)
    requires Inv(r, s) && Create(r, s, rd, c, ipa, level).1 == Success
    ensures ValidStructure(r, ipa, level) && Is(s, rd, Descriptor)
    ensures CanAttach(r, s, p, i, c) && p in s.granules && c in s.granules && c != p
    ensures p == WalkTo(r, s, r.root, ipa, level - 1) && i == Index(ipa, level - 1)
    ensures s.places[p].level == level - 1 && EntryBase(s, p, i) == ipa
    ensures Create(r, s, rd, c, ipa, level).0 == Attach(s, p, i, c)
  {
    p, i := FoundEntry(r, s, ipa, level - 1);
    Attachable(r, s, p, i, c);
  }

  lemma CreateKeeps(r: Realm, s: State, rd: nat, c: nat, ipa: nat, level: int)
    requires Inv(r, s)
    ensures Inv(r, Create(r, s, rd, c, ipa, level).0)
  {
    if Create(r, s, rd, c, ipa, level).1 == Success {
      var p, i := CreateDone(r, s, rd, c, ipa, level);
      AttachKeeps(r, s, p, i, c);
    }
  }

  // ---- Detaching a table ----------------------------------------------------------------------

  /** Table c, below entry i of table p, can give way to entry e. */
  ghost predicate CanDetach(r: Realm, s: State, p: nat, i: nat, c: nat, e: Entry) {
    && PointsTo(s, p, i, c) && c in s.tables && c in s.places && |s.tables[c]| == ENTRIES
    && !e.Table? && EntryOk(r, e, s.places[p].level, EntryBase(s, p, i))
    && (if e.Assigned?
        then forall j :: 0 <= j < ENTRIES ==>
          s.tables[c][j].Assigned? && s.tables[c][j].pa == e.pa + Offset(j, MapSize(s.places[c].level))
        else forall j :: 0 <= j < ENTRIES ==> !s.tables[c][j].Live())
  }

  lemma Detachable(r: Realm, s: State, p: nat, i: nat, c: nat, e: Entry)
    requires Shape(r, s) && Linked(r, s) && Counted(s) && CanDetach(r, s, p, i, c, e)
    ensures p in s.granules && c in s.granules && c != p && c != r.root
    ensures Is(s, p, Rtt) && Is(s, c, Rtt)
    ensures s.places[c] == Place(s.places[p].level + 1, EntryBase(s, p, i))
    ensures s.granules[c].refcount == if e.Assigned? then ENTRIES else 0
  {
    if e.Assigned? {
      LiveAll(s.tables[c]);
    } else {
      LiveNone(s.tables[c]);
    }
  }

  lemma DetachKeepsGranules(s: State, p: nat, i: nat, c: nat, e: Entry, tlb: set<Cached>)
    requires GranulesOk(s) && At(s, p, i) && c != p && p in s.tables && Is(s, c, Rtt)
    requires s.granules[c].refcount == if e.Assigned? then ENTRIES else 0
    ensures p in s.granules && GranulesOk(Detach(s, p, i, c, e, tlb))
  {
    assert Is(s, p, Rtt);
    var s' := Detach(s, p, i, c, e, tlb);
    forall t ensures t in s'.tables <==> Is(s', t, Rtt) {
      assert t in s.tables <==> Is(s, t, Rtt);
    }
    forall g | Is(s', g, Delegated) || Is(s', g, Data) ensures s'.granules[g].refcount == 0 {
      if g != c {
        assert Is(s, g, Delegated) || Is(s, g, Data);
      }
    }
  }

  lemma DetachKeepsEntries(r: Realm, s: State, p: nat, i: nat, c: nat, e: Entry, tlb: set<Cached>)
    requires PlacesOk(r, s) && EntriesOk(r, s) && At(s, p, i) && c != r.root && c != p
    requires p in s.granules && c in s.granules && EntryOk(r, e, s.places[p].level, EntryBase(s, p, i))
    ensures PlacesOk(r, Detach(s, p, i, c, e, tlb)) && EntriesOk(r, Detach(s, p, i, c, e, tlb))
  {
    var s' := Detach(s, p, i, c, e, tlb);
    forall t, j | At(s', t, j) ensures EntryOk(r, s'.tables[t][j], s'.places[t].level, EntryBase(s', t, j)) {
      assert At(s, t, j) && EntryBase(s', t, j) == EntryBase(s, t, j);
    }
  }

  lemma DetachKeepsShape(r: Realm, s: State, p: nat, i: nat, c: nat, e: Entry, tlb: set<Cached>)
    requires Shape(r, s) && Linked(r, s) && Counted(s) && CanDetach(r, s, p, i, c, e)
    ensures p in s.granules && c in s.granules && c != p && Shape(r, Detach(s, p, i, c, e, tlb))
  {
    hide GranulesOk, PlacesOk, EntriesOk, Detach;
    Detachable(r, s, p, i, c, e);
    DetachKeepsGranules(s, p, i, c, e, tlb);
    DetachKeepsEntries(r, s, p, i, c, e, tlb);
  }

  /** Only the pointer to the detached table goes. */
  lemma DetachPoints(r: Realm, s: State, p: nat, i: nat, c: nat, e: Entry, tlb: set<Cached>)
    requires Shape(r, s) && Linked(r, s) && Counted(s) && CanDetach(r, s, p, i, c, e)
    ensures p in s.granules && c in s.granules && c != p
    ensures forall t, j, x :: PointsTo(Detach(s, p, i, c, e, tlb), t, j, x)
              <==> (t != p || j != i) && PointsTo(s, t, j, x)
  {
    Detachable(r, s, p, i, c, e);
    hide GranulesOk, EntriesOk, Counted, Linked;
  }

  /** No remaining pointer leads to the detached table. */
  lemma DetachedAlone(r: Realm, s: State, p: nat, i: nat, c: nat, e: Entry)
    requires Tree(r, s) && CanDetach(r, s, p, i, c, e)
    ensures forall t, j, x :: PointsTo(s, t, j, x) && (t != p || j != i) ==> x != c
  {
  }

  lemma DetachKeepsLinks(r: Realm, s: State, p: nat, i: nat, c: nat, e: Entry, tlb: set<Cached>)
    requires Shape(r, s) && Linked(r, s) && Counted(s) && CanDetach(r, s, p, i, c, e)
    requires forall t, j, x :: PointsTo(s, t, j, x) && (t != p || j != i) ==> x != c
    ensures p in s.granules && c in s.granules && c != p && Linked(r, Detach(s, p, i, c, e, tlb))
  {
    hide GranulesOk, EntriesOk, Counted, EntryOk;
    Detachable(r, s, p, i, c, e);
    DetachPoints(r, s, p, i, c, e, tlb);
    var s' := Detach(s, p, i, c, e, tlb);
    forall t, j, x | PointsTo(s', t, j, x)
      ensures x in s'.tables && x in s'.places && x != r.root
        && s'.places[x] == Place(s'.places[t].level + 1, EntryBase(s', t, j))
    {
      assert PointsTo(s, t, j, x) && At(s, t, j) && t != c;
    }
  }

  lemma DetachKeepsTree(r: Realm, s: State, p: nat, i: nat, c: nat, e: Entry, tlb: set<Cached>)
    requires Shape(r, s) && Linked(r, s) && Tree(r, s) && Counted(s) && CanDetach(r, s, p, i, c, e)
    ensures p in s.granules && c in s.granules && c != p && Tree(r, Detach(s, p, i, c, e, tlb))
  {
    Detachable(r, s, p, i, c, e);
    DetachPoints(r, s, p, i, c, e, tlb);
    var s' := Detach(s, p, i, c, e, tlb);
    forall x | x in s'.tables && x != r.root ensures HasParent(s', x) {
      assert HasParent(s, x);
      var t, j :| PointsTo(s, t, j, x);
      assert PointsTo(s', t, j, x);
    }
    forall t, j, t', j', x | PointsTo(s', t, j, x) && PointsTo(s', t', j', x) ensures t == t' && j == j' {
      assert PointsTo(s, t, j, x) && PointsTo(s, t', j', x);
    }
  }

  lemma DetachCounts(r: Realm, s: State, p: nat, i: nat, c: nat, e: Entry, tlb: set<Cached>)
    requires Shape(r, s) && Linked(r, s) && Counted(s) && CanDetach(r, s, p, i, c, e)
    ensures p in s.granules && c in s.granules && c != p && Counted(Detach(s, p, i, c, e, tlb))
  {
    Detachable(r, s, p, i, c, e);
    LiveUpdate(s.tables[p], i, e);
  }

  /** Some entry of table t assigns the granule. */
  ghost predicate CoveredBy(s: State, t: nat, g: nat) {
    exists j :: Covers(s, t, j, g)
  }

  /** The entries that stay assign what they did. */
  lemma DetachCovers(s: State, p: nat, i: nat, c: nat, e: Entry, tlb: set<Cached>)
    requires At(s, p, i) && p in s.granules && c in s.granules && c != p
    ensures forall t, j, g :: t != p || j != i ==>
      (Covers(Detach(s, p, i, c, e, tlb), t, j, g) <==> t != c && Covers(s, t, j, g))
  {
  }

  /** The new entry assigns what the table below it did. */
  lemma FoldedCovers(s: State, s': State, p: nat, i: nat, c: nat, e: Entry, g: nat)
    requires At(s', p, i) && s'.tables[p][i] == e && p in s.places && s'.places[p] == s.places[p]
    requires At(s, c, 0) && |s.tables[c]| == ENTRIES && s.places[c].level == s.places[p].level + 1
    requires 1 <= s.places[c].level <= 3
    requires if e.Assigned?
      then forall j :: 0 <= j < ENTRIES ==>
        s.tables[c][j].Assigned? && s.tables[c][j].pa == e.pa + Offset(j, MapSize(s.places[c].level))
      else forall j :: 0 <= j < ENTRIES ==> !s.tables[c][j].Live()
    ensures Covers(s', p, i, g) <==> CoveredBy(s, c, g)
  {
    hide Multiple, Offset, MapSize;
    if Covers(s', p, i, g) {
      var j := SubIndex(e.pa, g, s.places[c].level);
      assert Covers(s, c, j, g);
    }
    if CoveredBy(s, c, g) {
      var j :| Covers(s, c, j, g);
      assert s.tables[c][j].Live();
      SubRange(e.pa, j, s.places[c].level);
    }
  }

  lemma DetachKeepsOwner(r: Realm, s: State, p: nat, i: nat, c: nat, e: Entry, tlb: set<Cached>)
    requires ValidRealm(r) && Shape(r, s) && Linked(r, s) && Counted(s) && DataOwned(s) && CanDetach(r, s, p, i, c, e)
    ensures p in s.granules && c in s.granules && c != p && DataOwned(Detach(s, p, i, c, e, tlb))
  {
    Detachable(r, s, p, i, c, e);
    var s' := Detach(s, p, i, c, e, tlb);
    assert At(s, c, 0) && At(s, p, i) && 0 <= s.places[p].level;
    forall g ensures Is(s', g, Data) <==> Is(s, g, Data) {}
    DetachCovers(s, p, i, c, e, tlb);
    forall g ensures Covers(s', p, i, g) <==> CoveredBy(s, c, g) {
      FoldedCovers(s, s', p, i, c, e, g);
    }
    forall g ensures !Covers(s, p, i, g) {}
    hide Shape, Linked, Counted, CanDetach, Detach, Covers;
    OwnersKept(s, s', p, i, c);
  }

  /** Entry i of table p has taken over what the entries of table c assigned. */
  ghost predicate TakesOver(s: State, s': State, p: nat, i: nat, c: nat) {
    && c != p && (forall g :: Is(s', g, Data) <==> Is(s, g, Data))
    && (forall t, j, g :: t != p || j != i ==> (Covers(s', t, j, g) <==> t != c && Covers(s, t, j, g)))
    && (forall g :: Covers(s', p, i, g) <==> CoveredBy(s, c, g))
    && (forall g :: !Covers(s, p, i, g))
  }

  lemma OldOwner(s: State, s': State, p: nat, i: nat, c: nat, t: nat, j: int, g: nat) returns (u: nat, k: int)
    requires TakesOver(s, s', p, i, c) && Covers(s', t, j, g)
    ensures Covers(s, u, k, g) && if t == p && j == i then u == c else u == t && k == j && t != c
  {
    hide Covers, Is;
    if t == p && j == i {
      u := c;
      k :| Covers(s, c, k, g);
    } else {
      u, k := t, j;
    }
  }

  /** Then every granule still has its one owner. */
  lemma OwnersKept(s: State, s': State, p: nat, i: nat, c: nat)
    requires DataOwned(s) && TakesOver(s, s', p, i, c)
    ensures DataOwned(s')
  {
    hide Covers, Is;
    forall t, j, g | Covers(s', t, j, g) ensures Is(s', g, Data) {
      var u, k := OldOwner(s, s', p, i, c, t, j, g);
    }
    forall t, j, t', j', g | Covers(s', t, j, g) && Covers(s', t', j', g) ensures t == t' && j == j' {
      var u, k := OldOwner(s, s', p, i, c, t, j, g);
      var u', k' := OldOwner(s, s', p, i, c, t', j', g);
    }
    forall g | Is(s', g, Data) ensures HasOwner(s', g) {
      assert HasOwner(s, g);
      var t, j :| Covers(s, t, j, g);
      if t == c {
        assert CoveredBy(s, c, g) && Covers(s', p, i, g);
      } else {
        assert Covers(s', t, j, g);
      }
    }
  }

  /** Cached translations survive if those of the detached table are invalidated with it. */
  lemma DetachKeepsTlb(r: Realm, s: State, p: nat, i: nat, c: nat, e: Entry, tlb: set<Cached>)
    requires Shape(r, s) && Linked(r, s) && Counted(s) && TlbBacked(s) && CanDetach(r, s, p, i, c, e)
    requires tlb <= s.tlb
    requires (forall j :: 0 <= j < ENTRIES ==> !s.tables[c][j].Valid())
      || (forall x :: x in tlb ==>
            !(EntryBase(s, p, i) <= x.base < EntryBase(s, p, i) + MapSize(s.places[p].level)))
    requires 0 <= s.places[p].level
    ensures p in s.granules && c in s.granules && c != p && TlbBacked(Detach(s, p, i, c, e, tlb))
  {
    hide GranulesOk, EntriesOk, Counted, Linked, EntryOk, Offset;
    Detachable(r, s, p, i, c, e);
    var s' := Detach(s, p, i, c, e, tlb);
    assert At(s, c, 0);
    forall x | x in s'.tlb ensures HasSource(s', x) {
      assert HasSource(s, x);
      var t, j :| Backs(s, t, j, x);
      if t == c {
        SubRange(s.places[c].base, j, s.places[c].level);
        assert false;
      }
      assert Backs(s', t, j, x);
    }
  }

  lemma DetachKeeps(r: Realm, s: State, p: nat, i: nat, c: nat, e: Entry, tlb: set<Cached>)
    requires Inv(r, s) && CanDetach(r, s, p, i, c, e) && tlb <= s.tlb
    requires (forall j :: 0 <= j < ENTRIES ==> !s.tables[c][j].Valid())
      || (forall x :: x in tlb ==>
            !(EntryBase(s, p, i) <= x.base < EntryBase(s, p, i) + MapSize(s.places[p].level)))
    ensures p in s.granules && c in s.granules && c != p && Inv(r, Detach(s, p, i, c, e, tlb))
  {
    DetachKeepsShape(r, s, p, i, c, e, tlb);
    DetachedAlone(r, s, p, i, c, e);
    DetachKeepsLinks(r, s, p, i, c, e, tlb);
    DetachKeepsTree(r, s, p, i, c, e, tlb);
    DetachCounts(r, s, p, i, c, e, tlb);
    DetachKeepsOwner(r, s, p, i, c, e, tlb);
    DetachKeepsTlb(r, s, p, i, c, e, tlb);
  }

  /** The first entry of a table stands at the address of the entry that points to it. */
  lemma FirstEntryOk(r: Realm, s: State, p: nat, i: nat, c: nat)
    requires Shape(r, s) && Linked(r, s) && PointsTo(s, p, i, c)
    ensures c in s.tables && c in s.places && |s.tables[c]| == ENTRIES
    ensures s.places[c] == Place(s.places[p].level + 1, EntryBase(s, p, i))
    ensures EntryOk(r, s.tables[c][0], s.places[p].level + 1, EntryBase(s, p, i))
  {
    assert At(s, c, 0) && EntryBase(s, c, 0) == EntryBase(s, p, i);
  }

  /** A folded entry is allowed where the first entry of the table was, one level up. */
  lemma FoldedEntry(r: Realm, es: seq<Entry>, refcount: int, level: int, base: nat)
    requires |es| == ENTRIES && FoldInto(es, refcount, level).Into? && refcount == Live(es)
    requires EntryOk(r, es[0], level, base)
    ensures var e := FoldInto(es, refcount, level).e;
      !e.Table? && EntryOk(r, e, level - 1, base)
      && (if e.Assigned?
          then forall j :: 0 <= j < ENTRIES ==> es[j].Assigned? && es[j].pa == e.pa + Offset(j, MapSize(level))
          else forall j :: 0 <= j < ENTRIES ==> !es[j].Live())
  {
    if refcount == 0 {
      LiveNone(es);
    }
  }

  /** Every entry a table folds into may stand in its parent. */
  lemma FoldedOk(r: Realm, s: State, p: nat, i: nat, c: nat, level: int)
    requires Inv(r, s) && PointsTo(s, p, i, c) && c in s.granules && c in s.tables
    requires s.places[p].level == level - 1
    requires FoldInto(s.tables[c], s.granules[c].refcount, level).Into?
    ensures CanDetach(r, s, p, i, c, FoldInto(s.tables[c], s.granules[c].refcount, level).e)
  {
    FirstEntryOk(r, s, p, i, c);
    FoldedEntry(r, s.tables[c], s.granules[c].refcount, level, EntryBase(s, p, i));
  }

  /** What a successful fold did. */
  lemma FoldDone(r: Realm, s: State, rd: nat, ipa: nat, level: int) returns (p: nat, i: nat, c: nat, e: Entry)
    requires Inv(r, s) && Fold(r, s, rd, ipa, level).1 == Success
    ensures CanDetach(r, s, p, i, c, e) && p in s.granules && c in s.granules && c != p
    ensures s.places[p].level == level - 1 && EntryBase(s, p, i) == ipa
    ensures FoldInto(s.tables[c], s.granules[c].refcount, level) == Into(e)
    ensures Fold(r, s, rd, ipa, level).0 == Detach(s, p, i, c, e, FoldTlb(s, e, ipa, level))
  {
    p, i := FoundEntry(r, s, ipa, level - 1);
    c := s.tables[p][i].pa;
    assert PointsTo(s, p, i, c) && Is(s, c, Rtt);
    FoldedOk(r, s, p, i, c, level);
    e := FoldInto(s.tables[c], s.granules[c].refcount, level).e;
  }

  lemma FoldKeeps(r: Realm, s: State, rd: nat, ipa: nat, level: int)
    requires Inv(r, s)
    ensures Inv(r, Fold(r, s, rd, ipa, level).0)
  {
    if Fold(r, s, rd, ipa, level).1 == Success {
      var p, i, c, e := FoldDone(r, s, rd, ipa, level);
      FoldedValid(s.tables[c], s.granules[c].refcount, level);
      DetachKeeps(r, s, p, i, c, e, FoldTlb(s, e, ipa, level));
    }
  }

  /** A table folds into a valid entry exactly when its entries are valid. */
  lemma FoldedValid(es: seq<Entry>, refcount: int, level: int)
    requires |es| == ENTRIES && FoldInto(es, refcount, level).Into?
    ensures forall j :: 0 <= j < ENTRIES ==> (es[j].Valid() <==> FoldInto(es, refcount, level).e.Valid())
  {
  }

  /** What a successful destruction did; the table it drops holds no live entry. */
  lemma DestroyDone(r: Realm, s: State, rd: nat, ipa: nat, level: int) returns (p: nat, i: nat, c: nat, e: Entry)
    requires Inv(r, s) && Destroy(r, s, rd, ipa, level).1 == Success
    ensures CanDetach(r, s, p, i, c, e) && p in s.granules && c in s.granules && c != p
    ensures s.places[p].level == level - 1 && EntryBase(s, p, i) == ipa
    ensures forall j :: 0 <= j < ENTRIES ==> !s.tables[c][j].Live()
    ensures e == if InPar(r, ipa) then Unassigned(Destroyed) else UnassignedNs
    ensures Destroy(r, s, rd, ipa, level).0 == Detach(s, p, i, c, e, DestroyTlb(r, s, ipa, level))
  {
    p, i := FoundEntry(r, s, ipa, level - 1);
    c := s.tables[p][i].pa;
    assert PointsTo(s, p, i, c) && Is(s, c, Rtt);
    LiveNone(s.tables[c]);
    e := if InPar(r, ipa) then Unassigned(Destroyed) else UnassignedNs;
  }

  lemma DestroyKeeps(r: Realm, s: State, rd: nat, ipa: nat, level: int)
    requires Inv(r, s)
    ensures Inv(r, Destroy(r, s, rd, ipa, level).0)
  {
    if Destroy(r, s, rd, ipa, level).1 == Success {
      var p, i, c, e := DestroyDone(r, s, rd, ipa, level);
      if InPar(r, ipa) {
        ProtectedTable(r, s, p, i, c);
      }
      DetachKeeps(r, s, p, i, c, e, DestroyTlb(r, s, ipa, level));
    }
  }

  /** Below a protected entry nothing is unprotected. */
  lemma ProtectedTable(r: Realm, s: State, p: nat, i: nat, c: nat)
    requires Inv(r, s) && PointsTo(s, p, i, c) && EntryBase(s, p, i) < r.parSize
    ensures c in s.tables && forall j :: 0 <= j < ENTRIES ==> !s.tables[c][j].AssignedNs?
  {
    var level := s.places[p].level + 1;
    BaseAligned(s.places[p].base, i, level - 1);
    assert At(s, p, i) && EntryOk(r, s.tables[p][i], level - 1, EntryBase(s, p, i));
    ParBoundary(r, EntryBase(s, p, i), level - 1);
    forall j | 0 <= j < ENTRIES ensures !s.tables[c][j].AssignedNs? {
      assert At(s, c, j);
      SubRange(EntryBase(s, p, i), j, level);
    }
  }
}
