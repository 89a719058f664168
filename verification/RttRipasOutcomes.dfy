/** When a call that changes realm state succeeds, which entries it accepts, and where it stops. */
module RttRipasOutcomes {
  import Arithmetic
  import opened Strides
  import opened RttModel
  import opened RttCommands
  import opened RttSafety
  import opened RttView
  import opened RttRipas
  import opened RttEffects
  import opened RttOutcomes

  /**
   * An entry is accepted exactly if it is a protected hole or page whose change
   * is permitted; it then gets the requested state, an open access if that is a
   * change, and leaves the cache if a page stops being RAM or destroyed.
   */
  lemma UpdateExactly(e: Entry, ripas: Ripas, change: bool, level: int, ipa: nat)
    requires !e.Table?
    ensures UpdateRipas(e, ripas, change).Written? <==> Permitted(EntryMeaning(e, level, ipa), ripas, change)
    ensures UpdateRipas(e, ripas, change).Written? ==>
      (e.Unassigned? || e.Assigned?)
      && UpdateRipas(e, ripas, change) == Written(
           if ripas == Destroyed || e.ripas == ripas then e
           else if e.Unassigned? then Unassigned(ripas) else Assigned(ripas, e.pa, false),
           e.Assigned? && ripas == Empty && e.ripas != Empty)
  {
  }

  /** The loop stops at the end of the table, or at an entry that it may not take; if it takes one, it moves on. */
  lemma {:induction false} RangeStops(s: State, t: nat, i: nat, addr: nat, top: nat, ripas: Ripas, change: bool)
    returns (s': State, addr': nat, j: nat)
    requires t in s.tables && t in s.places && i <= |s.tables[t]|
    ensures (s', addr') == SetRange(s, t, i, addr, top, ripas, change)
    ensures s'.places == s.places && t in s'.tables && |s'.tables[t]| == |s.tables[t]| && i <= j <= |s.tables[t]|
    ensures addr' + Offset(i, MapSize(s.places[t].level)) == addr + Offset(j, MapSize(s.places[t].level))
    ensures j == |s.tables[t]| || !Continues(s', t, j, addr', top, ripas, change)
    ensures if Continues(s, t, i, addr, top, ripas, change) then addr' > addr else addr' == addr && s' == s
    decreases |s.tables[t]| - i
  {
    if Continues(s, t, i, addr, top, ripas, change) {
      var size := MapSize(s.places[t].level);
      var s1 := AfterEntry(s, t, i, addr, ripas, change);
      s', addr', j := RangeStops(s1, t, i + 1, addr + size, top, ripas, change);
      OffsetsGrow(i + 1, j, size);
    } else {
      s', addr', j := s, addr, i;
    }
  }

  lemma {:induction false} OffsetsGrow(i: nat, j: nat, size: nat)
    requires i <= j
    ensures Offset(i, size) <= Offset(j, size)
  {
    if i == j {
    } else {
      OffsetsGrow(i, j - 1, size);
    }
  }

  /** Whether the loop may take the entry at the base of a call. */
  predicate MayTake(r: Realm, s: State, base: nat, top: nat, q: Request)
    requires Inv(r, s)
  {
    base + MapSize(LeafLevel(r, s, base)) <= top && Permitted(Sees(r, s, base), q.ripas, q.changeDestroyed)
  }

  /**
   * A call with valid arguments succeeds exactly if its base starts the entry
   * that the walk finds there, that entry ends by the top, and it is a protected
   * hole or page whose change is permitted.
   */
  lemma SetRipasOutcome(r: Realm, s: State, rd: nat, rec: nat, q: Request, base: nat, top: nat)
    requires Inv(r, s) && ValidRequest(r, q)
    ensures SetRipas(r, s, rd, rec, q, base, top).2 ==
      if top <= base || rec == rd || !Is(s, rd, Descriptor) || !Is(s, rec, Context) then ErrorInput
      else if s.granules[rec].refcount != 0 || q.rd != rd then ErrorRec
      else if base != q.addr || top > q.top then ErrorInput
      else if base % MapSize(LeafLevel(r, s, base)) == 0 && MayTake(r, s, base, top, q) then Success
      else ErrorRtt(LeafLevel(r, s, base))
  {
    hide Inv, View, WalkTo, Sees, SetRange, UpdateRipas, Permitted;
    if top > base == q.addr && top <= q.top {
      ProtectedInside(r, s);
      StartLevels(r, s);
      var t, i := LeafFound(r, s, base);
      LeafIs(r, s, t, i, base);
      TableLength(r, s, t);
      var s', addr', j := RangeStops(s, t, i, base, top, q.ripas, q.changeDestroyed);
      UpdateExactly(s.tables[t][i], q.ripas, q.changeDestroyed, s.places[t].level, base);
    }
  }

  lemma TableLength(r: Realm, s: State, t: nat)
    requires Inv(r, s) && t in s.tables
    ensures |s.tables[t]| == ENTRIES
  {
  }

  /**
   * A call that succeeds goes on until the end of its table, an entry that would
   * pass the top, a table, or an entry whose change is not permitted.
   */
  lemma CallStops(r: Realm, s: State, rd: nat, rec: nat, q: Request, base: nat, top: nat)
    requires Inv(r, s) && ValidRequest(r, q) && SetRipas(r, s, rd, rec, q, base, top).2 == Success
    ensures var (s', q', outcome) := SetRipas(r, s, rd, rec, q, base, top);
      var level := LeafLevel(r, s, base);
      Inv(r, s') && base < q'.addr
      && (q'.addr % TableSize(level) == 0 || q'.addr + MapSize(level) > top || LeafLevel(r, s', q'.addr) > level
          || !Permitted(Sees(r, s', q'.addr), q.ripas, q.changeDestroyed))
  {
    hide Inv, View, WalkTo, Sees, SetRange, UpdateRipas, Permitted, LeafLevel;
    var s', q', outcome := CallKeeps(r, s, rd, rec, q, base, top);
    ProtectedInside(r, s);
    var t, i := LeafFound(r, s, base);
    LeafIs(r, s, t, i, base);
    StartOfEntry(r, s, t, i, base);
    TableLength(r, s, t);
    var s1, addr1, j := RangeStops(s, t, i, base, top, q.ripas, q.changeDestroyed);
    AtRange(r, s, rd, rec, q, base, top, t, i);
    if j == ENTRIES {
      TableEnd(r, s, t, addr1);
    } else if addr1 + MapSize(s.places[t].level) <= top {
      StopsAt(r, s', t, j, addr1, top, q);
    }
  }

  lemma StartOfEntry(r: Realm, s: State, t: nat, i: nat, base: nat)
    requires Inv(r, s) && At(s, t, i) && Inside(base, EntryBase(s, t, i), s.places[t].level)
    ensures base % MapSize(s.places[t].level) == 0 ==> EntryBase(s, t, i) == base
  {
    hide Tree, DataOwned, Counted, TlbBacked, Linked;
    BaseAligned(s.places[t].base, i, s.places[t].level);
    SameEntry(EntryBase(s, t, i), base, s.places[t].level);
  }

  /** The loop that a successful call runs. */
  lemma AtRange(r: Realm, s: State, rd: nat, rec: nat, q: Request, base: nat, top: nat, t: nat, i: nat)
    requires Inv(r, s) && SetRipas(r, s, rd, rec, q, base, top).2 == Success
    requires At(s, t, i) && t == LeafTable(r, s, base) && i == Index(base, s.places[t].level)
    ensures base % MapSize(s.places[t].level) == 0 && base == q.addr && |s.tables[t]| == ENTRIES
    ensures var (s', q', _) := SetRipas(r, s, rd, rec, q, base, top);
      (s', q'.addr) == SetRange(s, t, i, base, top, q.ripas, q.changeDestroyed)
  {
    hide Linked, Tree, DataOwned, Counted, TlbBacked, View, SetRange;
  }

  lemma TableEnd(r: Realm, s: State, t: nat, addr: nat)
    requires Inv(r, s) && t in s.tables && t in s.places
    requires addr == s.places[t].base + Offset(ENTRIES, MapSize(s.places[t].level))
    ensures addr % TableSize(s.places[t].level) == 0
  {
    hide Linked, Tree, DataOwned, Counted, TlbBacked;
    var size := MapSize(s.places[t].level);
    OffsetIsProduct(ENTRIES, size);
    MultipleIsAligned(s.places[t].base, TableSize(s.places[t].level));
    Arithmetic.ModAddMultiple(s.places[t].base, 1, TableSize(s.places[t].level));
  }

  /** Below the top the loop stops at a table or at an entry that it may not take. */
  lemma StopsAt(r: Realm, s: State, t: nat, j: nat, addr: nat, top: nat, q: Request)
    requires Inv(r, s) && At(s, t, j) && addr == EntryBase(s, t, j)
    requires !Continues(s, t, j, addr, top, q.ripas, q.changeDestroyed) && addr + MapSize(s.places[t].level) <= top
    ensures LeafLevel(r, s, addr) > s.places[t].level || !Permitted(Sees(r, s, addr), q.ripas, q.changeDestroyed)
  {
    hide Inv, View, WalkTo, Sees, UpdateRipas, Permitted, LeafLevel;
    if s.tables[t][j].Table? {
      DeeperLeaf(r, s, t, j, addr);
    } else {
      LeafIs(r, s, t, j, addr);
      UpdateExactly(s.tables[t][j], q.ripas, q.changeDestroyed, s.places[t].level, addr);
    }
  }
}
