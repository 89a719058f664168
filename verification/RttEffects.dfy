/** What every mapping command does to the meaning of every address, and to the granule it takes or returns. */
module RttEffects {
  import opened RttModel
  import opened RttCommands
  import opened RttSafety
  import opened RttTree
  import opened RttView
  import opened RttRipas
  import opened RttRuns

  /** The address lies in the entry that starts at another. */
  predicate Inside(ipa: nat, base: nat, level: int) {
    base <= ipa < base + MapSize(level)
  }

  /** Mapping unprotected memory gives exactly the addresses of the entry, all unmapped before, their new page. */
  lemma MapNsSees(r: Realm, s: State, rd: nat, at: nat, level: int, pa: nat, ipa: nat)
    requires Inv(r, s) && ipa < r.ipaSize
    ensures var (s', outcome) := MapNs(r, s, rd, at, level, pa);
      Inv(r, s') && (outcome != Success ==> s' == s)
      && (outcome == Success ==>
            Sees(r, s', ipa) == (if Inside(ipa, at, level) then PageNs(pa + ipa % MapSize(level)) else Sees(r, s, ipa))
            && (Inside(ipa, at, level) ==> Sees(r, s, ipa) == HoleNs))
  {
    hide Tree, DataOwned, Counted, TlbBacked, View;
    MapNsKeeps(r, s, rd, at, level, pa);
    if MapNs(r, s, rd, at, level, pa).1 == Success {
      var s' := MapNs(r, s, rd, at, level, pa).0;
      var t, i := FoundEntry(r, s, at, level);
      WriteSees(r, s, s', t, i, AssignedNs(pa), ipa);
      if Inside(ipa, at, level) {
        WriteInside(r, s, t, i, ipa);
      }
    }
  }

  /** Unmapping unprotected memory takes exactly the addresses of the entry away. */
  lemma UnmapNsSees(r: Realm, s: State, rd: nat, at: nat, level: int, ipa: nat)
    requires Inv(r, s) && ipa < r.ipaSize
    ensures var (s', outcome) := UnmapNs(r, s, rd, at, level);
      Inv(r, s') && (outcome != Success ==> s' == s)
      && (outcome == Success ==>
            Sees(r, s', ipa) == (if Inside(ipa, at, level) then HoleNs else Sees(r, s, ipa))
            && (Inside(ipa, at, level) ==> Sees(r, s, ipa).PageNs?))
  {
    hide Tree, DataOwned, Counted, TlbBacked, View;
    UnmapNsKeeps(r, s, rd, at, level);
    if UnmapNs(r, s, rd, at, level).1 == Success {
      var s' := UnmapNs(r, s, rd, at, level).0;
      var t, i := FoundEntry(r, s, at, level);
      WriteSees(r, s, s', t, i, UnassignedNs, ipa);
      if Inside(ipa, at, level) {
        WriteInside(r, s, t, i, ipa);
      }
    }
  }

  /**
   * Creating data puts the granule behind the page at the address, which was a
   * hole before: as RAM if it was copied, and otherwise in the hole's own state.
   */
  lemma DataCreateSees(r: Realm, s: State, rd: nat, data: nat, at: nat, source: Source, isNew: bool, ipa: nat)
    requires Inv(r, s) && ipa < r.ipaSize
    ensures var (s', outcome) := DataCreate(r, s, rd, data, at, source, isNew);
      Inv(r, s') && (outcome != Success ==> s' == s)
      && (outcome == Success ==>
            (if Inside(ipa, at, PAGE_LEVEL)
             then Sees(r, s, ipa).Hole? && Sees(r, s', ipa)
               == Page(if source.Copied? then Ram else Sees(r, s, ipa).ripas, data + ipa % GRANULE_SIZE)
             else Sees(r, s', ipa) == Sees(r, s, ipa))
            && Is(s, data, Delegated) && Is(s', data, Data))
  {
    hide Tree, DataOwned, Counted, TlbBacked, View;
    DataCreateKeeps(r, s, rd, data, at, source, isNew);
    if DataCreate(r, s, rd, data, at, source, isNew).1 == Success {
      var s' := DataCreate(r, s, rd, data, at, source, isNew).0;
      var t, i := FoundEntry(r, s, at, PAGE_LEVEL);
      assert EntryOk(r, s.tables[t][i], PAGE_LEVEL, EntryBase(s, t, i));
      WriteSees(r, s, s', t, i, s'.tables[t][i], ipa);
      if Inside(ipa, at, PAGE_LEVEL) {
        WriteInside(r, s, t, i, ipa);
      }
      assert Is(s, t, Rtt);
    }
  }

  /** Destroying data leaves a hole at the page and returns the granule that was behind it. */
  lemma DataDestroySees(r: Realm, s: State, rd: nat, at: nat, ipa: nat)
    requires Inv(r, s) && ipa < r.ipaSize
    ensures var (s', outcome) := DataDestroy(r, s, rd, at);
      Inv(r, s') && (outcome != Success ==> s' == s)
      && (outcome == Success ==>
            if Inside(ipa, at, PAGE_LEVEL)
            then Sees(r, s, ipa).Page?
              && Sees(r, s', ipa) == Hole(if Sees(r, s, ipa).ripas == Empty then Empty else Destroyed)
              && (ipa == at ==> Is(s, Sees(r, s, ipa).pa, Data) && Is(s', Sees(r, s, ipa).pa, Delegated))
            else Sees(r, s', ipa) == Sees(r, s, ipa))
  {
    hide Tree, DataOwned, Counted, TlbBacked, View;
    DataDestroyKeeps(r, s, rd, at);
    if DataDestroy(r, s, rd, at).1 == Success {
      var s' := DataDestroy(r, s, rd, at).0;
      var t, i := FoundEntry(r, s, at, PAGE_LEVEL);
      assert Is(s, t, Rtt);
      WriteSees(r, s, s', t, i, s'.tables[t][i], ipa);
      if Inside(ipa, at, PAGE_LEVEL) {
        WriteInside(r, s, t, i, ipa);
      }
    }
  }

  /** Closing or opening the access to a page changes what no address means. */
  lemma SetBlockedSees(r: Realm, s: State, rd: nat, at: nat, blocked: bool, ipa: nat)
    requires Inv(r, s) && ipa < r.ipaSize
    ensures var (s', outcome) := SetBlocked(r, s, rd, at, blocked);
      Inv(r, s') && (outcome != Success ==> s' == s) && Sees(r, s', ipa) == Sees(r, s, ipa)
      && (outcome == Success && Inside(ipa, at, PAGE_LEVEL) ==> Sees(r, s, ipa).Page? && Sees(r, s, ipa).ripas == Ram)
  {
    hide Tree, DataOwned, Counted, TlbBacked, View;
    SetBlockedKeeps(r, s, rd, at, blocked);
    if SetBlocked(r, s, rd, at, blocked).1 == Success {
      var s' := SetBlocked(r, s, rd, at, blocked).0;
      var t, i := FoundEntry(r, s, at, PAGE_LEVEL);
      WriteSees(r, s, s', t, i, s.tables[t][i].(blocked := blocked), ipa);
      if Inside(ipa, at, PAGE_LEVEL) {
        WriteInside(r, s, t, i, ipa);
      }
    }
  }

  // ---- Serving a request ------------------------------------------------------------------

  /** Calls that serve the pending request, and steps beside them that neither ask anew nor map or unmap. */
  predicate MayServe(step: Step) {
    step.DoSetRipas? || step.DoCreate? || step.DoFold? || step.DoSetBlocked? || step.Delegate? || step.Undelegate?
    || step.Fill? || step.Evict?
  }

  lemma {:induction false} SameTablesView(r: Realm, s: State, s': State, t: nat, ipa: nat)
    requires Shape(r, s) && Linked(r, s) && Shape(r, s') && Linked(r, s') && t in s.tables
    requires s'.tables == s.tables && s'.places == s.places
    ensures View(r, s', t, ipa) == View(r, s, t, ipa)
    decreases PAGE_LEVEL - s.places[t].level
  {
    var i := Index(ipa, s.places[t].level);
    assert At(s, t, i);
    if s.tables[t][i].Table? {
      assert PointsTo(s, t, i, s.tables[t][i].pa);
      SameTablesView(r, s, s', s.tables[t][i].pa, ipa);
    }
  }

  lemma SameTablesSee(r: Realm, s: State, s': State, ipa: nat)
    requires Inv(r, s) && Inv(r, s') && s'.tables == s.tables && s'.places == s.places
    ensures Sees(r, s', ipa) == Sees(r, s, ipa)
  {
    SameTablesView(r, s, s', r.root, ipa);
  }

  /** Unfolding, folding, access changes, granules changing hands and the cache change no meaning. */
  lemma StepSees(r: Realm, x: System, step: Step, ipa: nat)
    requires Inv(r, x.s) && ValidRequest(r, x.q) && MayServe(step) && !step.DoSetRipas? && ipa < r.ipaSize
    ensures Inv(r, Take(r, x, step).0.s) && Take(r, x, step).0.q == x.q
    ensures Sees(r, Take(r, x, step).0.s, ipa) == Sees(r, x.s, ipa)
  {
    hide Create, Fold, SetBlocked, View, Shape, Linked, Tree, Counted, DataOwned, TlbBacked;
    TakeKeeps(r, x, step);
    if step.DoCreate? {
      CreatePreservesView(r, x.s, step.rd, step.c, step.ipa, step.level, ipa);
    } else if step.DoFold? {
      FoldPreservesView(r, x.s, step.rd, step.ipa, step.level, ipa);
    } else if step.DoSetBlocked? {
      SetBlockedSees(r, x.s, step.rd, step.ipa, step.blocked, ipa);
    } else {
      SameTablesSee(r, x.s, Take(r, x, step).0.s, ipa);
    }
  }

  /** What one step does to the progress of the request and to an address. */
  lemma StepServes(r: Realm, x: System, step: Step, ipa: nat) returns (y: System)
    requires Inv(r, x.s) && ValidRequest(r, x.q) && MayServe(step) && ipa < r.ipaSize
    ensures y == Take(r, x, step).0 && Inv(r, y.s) && ValidRequest(r, y.q)
    ensures y.q == x.q.(addr := y.q.addr) && x.q.addr <= y.q.addr
    ensures ServedAs(Sees(r, x.s, ipa), Sees(r, y.s, ipa), x.q.addr <= ipa < y.q.addr, x.q.ripas, x.q.changeDestroyed)
  {
    hide Inv, SetRipas;
    TakeKeeps(r, x, step);
    y := Take(r, x, step).0;
    if step.DoSetRipas? {
      var call := step.call;
      CallKept(r, x.s, x.q, call);
      var s', q', outcome := CallServes(r, x.s, call.rd, call.rec, x.q, call.base, call.top, ipa);
    } else {
      StepSees(r, x, step, ipa);
    }
  }

  /**
   * Over any run that serves one request, with tables unfolded and folded in
   * between, the chunks tile the range served so far: every address of it has the
   * requested state, keeps its mapping, and was not destroyed unless that was
   * permitted; every other address is unchanged, and the top is never passed.
   */
  lemma {:induction false} RunServes(r: Realm, x: System, steps: seq<Step>, ipa: nat) returns (y: System)
    requires Inv(r, x.s) && ValidRequest(r, x.q) && ipa < r.ipaSize
    requires forall k :: 0 <= k < |steps| ==> MayServe(steps[k])
    ensures y == Run(r, x, steps) && Inv(r, y.s)
    ensures y.q == x.q.(addr := y.q.addr) && x.q.addr <= y.q.addr <= x.q.top
    ensures ServedAs(Sees(r, x.s, ipa), Sees(r, y.s, ipa), x.q.addr <= ipa < y.q.addr, x.q.ripas, x.q.changeDestroyed)
    decreases |steps|
  {
    hide Inv, Sees, Take, MayServe;
    if steps == [] {
      y := x;
    } else {
      var next := StepServes(r, x, steps[0], ipa);
      y := RunServes(r, next, steps[1..], ipa);
    }
  }

  // ---- Destroying a table ---------------------------------------------------------------

  /** Detaching a table changes the meaning of no address outside its range. */
  lemma {:induction false} DetachOutside(r: Realm, s: State, p: nat, i: nat, c: nat, e: Entry, tlb: set<Cached>,
                                         u: nat, ipa: nat)
    requires ValidRealm(r) && Shape(r, s) && Linked(r, s) && Tree(r, s) && CanDetach(r, s, p, i, c, e)
    requires p in s.granules && c in s.granules && c != p
    requires Shape(r, Detach(s, p, i, c, e, tlb)) && Linked(r, Detach(s, p, i, c, e, tlb))
    requires u in s.tables && u != c && InTable(s, u, ipa)
    requires !Inside(ipa, EntryBase(s, p, i), s.places[p].level)
    ensures u in Detach(s, p, i, c, e, tlb).tables
    ensures View(r, Detach(s, p, i, c, e, tlb), u, ipa) == View(r, s, u, ipa)
    decreases PAGE_LEVEL - s.places[u].level
  {
    var s' := Detach(s, p, i, c, e, tlb);
    var k := Index(ipa, s.places[u].level);
    assert At(s, u, k);
    IndexInTable(s.places[u].base, ipa, s.places[u].level);
    DetachDiffers(s, p, i, c, e, tlb);
    DetachedAlone(r, s, p, i, c, e);
    assert u != p || k != i;
    assert At(s', u, k) && s'.tables[u][k] == s.tables[u][k];
    if s.tables[u][k].Table? {
      var x := s.tables[u][k].pa;
      assert PointsTo(s, u, k, x) && PointsTo(s', u, k, x);
      StepDown(r, s, u, ipa);
      DetachOutside(r, s, p, i, c, e, tlb, x, ipa);
    }
  }

  /**
   * Destroying a table turns exactly its range into a hole, of destroyed or of
   * unprotected addresses; no address of it had a page of the realm behind it.
   */
  lemma DestroySees(r: Realm, s: State, rd: nat, at: nat, level: int, ipa: nat)
    requires Inv(r, s) && ipa < r.ipaSize
    ensures var (s', outcome) := Destroy(r, s, rd, at, level);
      Inv(r, s') && (outcome != Success ==> s' == s)
      && (outcome == Success ==>
            if Inside(ipa, at, level - 1)
            then Sees(r, s', ipa) == (if InPar(r, at) then Hole(Destroyed) else HoleNs) && !Sees(r, s, ipa).Page?
            else Sees(r, s', ipa) == Sees(r, s, ipa))
  {
    DestroyKeeps(r, s, rd, at, level);
    if Destroy(r, s, rd, at, level).1 == Success {
      var p, i, c, e := DestroyDone(r, s, rd, at, level);
      DestroyedView(r, s, p, i, c, e, DestroyTlb(r, s, at, level), ipa);
    }
  }

  lemma DestroyedView(r: Realm, s: State, p: nat, i: nat, c: nat, e: Entry, tlb: set<Cached>, ipa: nat)
    requires Inv(r, s) && CanDetach(r, s, p, i, c, e) && p in s.granules && c in s.granules && c != p
    requires (e.Unassigned? || e.UnassignedNs?) && Inv(r, Detach(s, p, i, c, e, tlb)) && ipa < r.ipaSize
    requires forall j :: 0 <= j < ENTRIES ==> !s.tables[c][j].Live()
    ensures var s' := Detach(s, p, i, c, e, tlb);
      if Inside(ipa, EntryBase(s, p, i), s.places[p].level)
      then Sees(r, s', ipa) == EntryMeaning(e, s.places[p].level, ipa) && !Sees(r, s, ipa).Page?
      else Sees(r, s', ipa) == Sees(r, s, ipa)
  {
    var s' := Detach(s, p, i, c, e, tlb);
    DetachDiffers(s, p, i, c, e, tlb);
    Detachable(r, s, p, i, c, e);
    if Inside(ipa, EntryBase(s, p, i), s.places[p].level) {
      assert EntryBase(s', p, i) == EntryBase(s, p, i);
      WriteInside(r, s', p, i, ipa);
      NextSize(s.places[c].level);
      ViewFrom(r, s, c, ipa);
      assert !s.tables[c][Index(ipa, s.places[c].level)].Live();
    } else {
      RootCovers(r, s, ipa);
      DetachOutside(r, s, p, i, c, e, tlb, r.root, ipa);
    }
  }

  // ---- What one command undoes -------------------------------------------------------------

  /** The walk finds a written entry again. */
  lemma FoundAgain(r: Realm, s: State, s': State, t: nat, i: nat, e: Entry, at: nat, level: int)
    requires Inv(r, s) && Inv(r, s') && Wrote(s, s', t, i, e) && at < r.ipaSize && s.places[t].level == level
    requires EntryBase(s, t, i) == at
    ensures t == WalkTo(r, s', r.root, at, level) && i == Index(at, level) && s'.tables[t][i] == e
  {
    EntryRange(s.places[t].base, i, level, at);
    WalkThrough(r, s', t, at, level);
  }

  /** Unmapping right after mapping succeeds and restores everything but the translation cache. */
  lemma MapThenUnmap(r: Realm, s: State, rd: nat, at: nat, level: int, pa: nat)
    requires Inv(r, s) && MapNs(r, s, rd, at, level, pa).1 == Success
    ensures Inv(r, MapNs(r, s, rd, at, level, pa).0)
    ensures var (s2, outcome) := UnmapNs(r, MapNs(r, s, rd, at, level, pa).0, rd, at, level);
      outcome == Success && s2 == s.(tlb := s2.tlb)
  {
    hide Tree, DataOwned, Counted, TlbBacked;
    MapNsKeeps(r, s, rd, at, level, pa);
    var t, i := FoundEntry(r, s, at, level);
    var s1 := MapNs(r, s, rd, at, level, pa).0;
    FoundAgain(r, s, s1, t, i, AssignedNs(pa), at, level);
    assert s.tables[t][i := AssignedNs(pa)][i := UnassignedNs] == s.tables[t];
    assert s.tables[t := s1.tables[t]][t := s.tables[t]] == s.tables;
  }

  /** Destroying data right after creating it succeeds and gives back the granule and the table's reference. */
  lemma CreateThenDestroyData(r: Realm, s: State, rd: nat, data: nat, at: nat, source: Source, isNew: bool)
    requires Inv(r, s) && DataCreate(r, s, rd, data, at, source, isNew).1 == Success
    ensures Inv(r, DataCreate(r, s, rd, data, at, source, isNew).0)
    ensures var (s2, outcome) := DataDestroy(r, DataCreate(r, s, rd, data, at, source, isNew).0, rd, at);
      outcome == Success && s2.granules == s.granules && s2.places == s.places
  {
    hide Inv, DataCreate, DataDestroy, Wrote;
    DataCreateKeeps(r, s, rd, data, at, source, isNew);
    var t, i, ripas := DataCreated(r, s, rd, data, at, source, isNew);
    var s1 := DataCreate(r, s, rd, data, at, source, isNew).0;
    DataDestroyed(r, s, s1, t, i, Assigned(ripas, data, false), rd, at);
    GranulesBack(s, s1, t, i, data, DataDestroy(r, s1, rd, at).0);
  }

  /** The entry that creating data writes. */
  lemma DataCreated(r: Realm, s: State, rd: nat, data: nat, at: nat, source: Source, isNew: bool)
    returns (t: nat, i: nat, ripas: Ripas)
    requires Inv(r, s) && DataCreate(r, s, rd, data, at, source, isNew).1 == Success
    ensures At(s, t, i) && s.places[t].level == PAGE_LEVEL && EntryBase(s, t, i) == at
    ensures InPar(r, at) && ValidMapAddr(r, at, PAGE_LEVEL)
    ensures t != data && t in s.granules && Is(s, data, Delegated) && Is(s, rd, Descriptor)
    ensures var s1 := DataCreate(r, s, rd, data, at, source, isNew).0;
      Wrote(s, s1, t, i, Assigned(ripas, data, false)) && Is(s1, data, Data) && Is(s1, rd, Descriptor)
      && s1.granules == s.granules[data := Granule(Data, s.granules[data].refcount)]
                                  [t := Granule(s.granules[t].state, s.granules[t].refcount + 1)]
  {
    hide Linked, Tree, DataOwned, Counted, TlbBacked;
    t, i := FoundEntry(r, s, at, PAGE_LEVEL);
    assert Is(s, t, Rtt);
    var s1 := DataCreate(r, s, rd, data, at, source, isNew).0;
    ripas := s1.tables[t][i].ripas;
    MovedBy(s, t, i, Assigned(ripas, data, false), data, Data, 1);
  }

  /** Destroying the data behind an entry just written. */
  lemma DataDestroyed(r: Realm, s: State, s1: State, t: nat, i: nat, e: Entry, rd: nat, at: nat)
    requires Inv(r, s) && Inv(r, s1) && Wrote(s, s1, t, i, e) && e.Assigned? && Is(s1, e.pa, Data)
    requires s.places[t].level == PAGE_LEVEL && EntryBase(s, t, i) == at
    requires Is(s1, rd, Descriptor) && InPar(r, at) && ValidMapAddr(r, at, PAGE_LEVEL) && t in s1.granules
    ensures var (s2, outcome) := DataDestroy(r, s1, rd, at);
      outcome == Success && s2.places == s.places
      && s2.granules == SetState(s1, e.pa, Delegated).granules[t :=
           Granule(SetState(s1, e.pa, Delegated).granules[t].state, SetState(s1, e.pa,
               Delegated).granules[t].refcount - 1)]
  {
    hide Shape, Linked, Tree, DataOwned, Counted, TlbBacked;
    FoundAgain(r, s, s1, t, i, e, at, PAGE_LEVEL);
  }

  /** What creating data does to the granules, destroying it undoes. */
  lemma GranulesBack(s: State, s1: State, t: nat, i: nat, data: nat, s2: State)
    requires Is(s, data, Delegated) && t in s.granules && t != data
    requires s1.granules == s.granules[data := Granule(Data, s.granules[data].refcount)]
                              [t := Granule(s.granules[t].state, s.granules[t].refcount + 1)]
    requires s2.granules == s1.granules[data := Granule(Delegated, s1.granules[data].refcount)]
                              [t := Granule(s1.granules[t].state, s1.granules[t].refcount - 1)]
    ensures s2.granules == s.granules
  {
    forall g | g in s.granules ensures s2.granules[g] == s.granules[g] {}
  }
}
