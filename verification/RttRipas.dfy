/** Changing the realm state of an address range, chunk by chunk, on behalf of one request. */
module RttRipas {
  import opened Strides
  import opened RttModel
  import opened RttCommands
  import opened RttSafety
  import opened RttView

  /** The pending request of an execution context: addr is how far it has been served. */
  datatype Request = Request(rd: nat, addr: nat, top: nat, ripas: Ripas, changeDestroyed: bool)

  /** The verdict on one entry: refused, or written with or without a TLB flush. */
  datatype Update = Refused | Written(e: Entry, flush: bool)

  function UpdateRipas(e: Entry, ripas: Ripas, changeDestroyed: bool): Update {
    if !(e.Unassigned? || e.Assigned?) then Refused
    else if ripas == Ram then
      if e == Unassigned(Empty) then Written(Unassigned(Ram), false)
      else if e == Unassigned(Destroyed) then
        if changeDestroyed then Written(Unassigned(Ram), false) else Refused
      else if e.Assigned? && e.ripas == Empty then Written(Assigned(Ram, e.pa, false), false)
      else if e.Assigned? && e.ripas == Destroyed then
        if changeDestroyed then Written(Assigned(Ram, e.pa, false), false) else Refused
      else Written(e, false)
    else if ripas == Empty then
      if e == Unassigned(Ram) then Written(Unassigned(Empty), false)
      else if e == Unassigned(Destroyed) then
        if changeDestroyed then Written(Unassigned(Empty), false) else Refused
      else if e.Assigned? && e.ripas == Ram then Written(Assigned(Empty, e.pa, false), true)
      else if e.Assigned? && e.ripas == Destroyed then
        if changeDestroyed then Written(Assigned(Empty, e.pa, false), true) else Refused
      else Written(e, false)
    else Written(e, false)
  }

  /** One accepted entry, at its address. */
  function UpdateEntry(s: State, t: nat, i: nat, addr: nat, e: Entry, flush: bool): State
    requires At(s, t, i)
  {
    SetEntry(s, t, i, e).(tlb := if flush then InvalidateEntry(s.tlb, addr) else s.tlb)
  }

  /** Entry i is next, stays below the top and is not refused. */
  predicate Continues(s: State, t: nat, i: nat, addr: nat, top: nat, ripas: Ripas, change: bool) {
    At(s, t, i) && addr + MapSize(s.places[t].level) <= top && UpdateRipas(s.tables[t][i], ripas, change).Written?
  }

  /** The state after one more entry. */
  function AfterEntry(s: State, t: nat, i: nat, addr: nat, ripas: Ripas, change: bool): (s1: State)
    requires At(s, t, i) && UpdateRipas(s.tables[t][i], ripas, change).Written?
    ensures s1.places == s.places && s1.tables.Keys == s.tables.Keys && |s1.tables[t]| == |s.tables[t]|
  {
    var u := UpdateRipas(s.tables[t][i], ripas, change);
    UpdateEntry(s, t, i, addr, u.e, u.flush)
  }

  /** Updates entries from index i on, until one is refused or would pass the top; also returns where it stopped. */
  function SetRange(s: State, t: nat, i: nat, addr: nat, top: nat, ripas: Ripas, change: bool): (State, nat)
    requires t in s.tables && t in s.places && i <= |s.tables[t]|
    decreases |s.tables[t]| - i
  {
    if Continues(s, t, i, addr, top, ripas, change) then
      SetRange(AfterEntry(s, t, i, addr, ripas, change), t, i + 1, addr + MapSize(s.places[t].level), top, ripas,
          change)
    else (s, addr)
  }

  function SetRipas(r: Realm, s: State, rd: nat, rec: nat, q: Request, base: nat, top: nat): (State, Request, Outcome)
    requires Inv(r, s)
  {
    if top <= base then (s, q, ErrorInput)
    else if rec == rd || !Is(s, rd, Descriptor) || !Is(s, rec, Context) then (s, q, ErrorInput)
    else if s.granules[rec].refcount != 0 || q.rd != rd then (s, q, ErrorRec)
    else if base != q.addr || top > q.top then (s, q, ErrorInput)
    else if !ValidMapAddr(r, base, PAGE_LEVEL) then (s, q, AssertFails)
    else
      var t := WalkTo(r, s, r.root, base, PAGE_LEVEL);
      var level := s.places[t].level;
      if !ValidMapAddr(r, base, level) then (s, q, ErrorRtt(level))
      else
        var (s', addr) := SetRange(s, t, Index(base, level), base, top, q.ripas, q.changeDestroyed);
        if addr > base then (s', q.(addr := addr), Success) else (s', q, ErrorRtt(level))
  }

  // ---- What one update means ------------------------------------------------------------

  /** The meaning of an address once its realm state has been requested. */
  function Requested(m: Meaning, ripas: Ripas): Meaning {
    if ripas == Destroyed then m
    else match m
      case Hole(_) => Hole(ripas)
      case Page(_, pa) => Page(ripas, pa)
      case _ => m
  }

  /** Destroyed addresses may change only with permission. */
  predicate Permitted(m: Meaning, ripas: Ripas, changeDestroyed: bool) {
    match m
    case Hole(old_) => old_ == Destroyed && ripas != Destroyed ==> changeDestroyed
    case Page(old_, _) => old_ == Destroyed && ripas != Destroyed ==> changeDestroyed
    case _ => false
  }

  lemma UpdateMeaning(e: Entry, ripas: Ripas, changeDestroyed: bool, level: int, ipa: nat)
    requires UpdateRipas(e, ripas, changeDestroyed).Written?
    ensures !e.Table? && !UpdateRipas(e, ripas, changeDestroyed).e.Table?
    ensures Permitted(EntryMeaning(e, level, ipa), ripas, changeDestroyed)
    ensures EntryMeaning(UpdateRipas(e, ripas, changeDestroyed).e, level, ipa)
      == Requested(EntryMeaning(e, level, ipa), ripas)
  {
  }

  lemma UpdateKeeps(r: Realm, s: State, s': State, t: nat, i: nat, addr: nat, ripas: Ripas, change: bool)
    requires Inv(r, s) && At(s, t, i) && addr == EntryBase(s, t, i)
    requires UpdateRipas(s.tables[t][i], ripas, change).Written?
    requires s' == AfterEntry(s, t, i, addr, ripas, change)
    ensures Inv(r, s')
  {
    var u := UpdateRipas(s.tables[t][i], ripas, change);
    assert EntryOk(r, s.tables[t][i], s.places[t].level, EntryBase(s, t, i));
    PlainWrite(r, s, s', t, i, u.e);
  }

  /** What serving a stretch does to an address: the requested state inside it, nothing outside. */
  predicate ServedAs(before: Meaning, after: Meaning, inside: bool, ripas: Ripas, changeDestroyed: bool) {
    && after == (if inside then Requested(before, ripas) else before)
    && (inside ==> Permitted(before, ripas, changeDestroyed))
  }

  lemma UpdateServes(r: Realm, s: State, s': State, t: nat, i: nat, addr: nat, ripas: Ripas, change: bool, ipa: nat)
    requires Inv(r, s) && At(s, t, i) && addr == EntryBase(s, t, i) && ipa < r.ipaSize
    requires UpdateRipas(s.tables[t][i], ripas, change).Written?
    requires s' == AfterEntry(s, t, i, addr, ripas, change)
    ensures Inv(r, s')
    ensures ServedAs(Sees(r, s, ipa), Sees(r, s', ipa), addr <= ipa < addr + MapSize(s.places[t].level), ripas, change)
  {
    UpdateKeeps(r, s, s', t, i, addr, ripas, change);
    var u := UpdateRipas(s.tables[t][i], ripas, change);
    UpdateMeaning(s.tables[t][i], ripas, change, s.places[t].level, ipa);
    WriteSees(r, s, s', t, i, u.e, ipa);
    if addr <= ipa < addr + MapSize(s.places[t].level) {
      WriteInside(r, s, t, i, ipa);
    }
  }

  /** Whatever every accepted entry keeps, the whole loop keeps. */
  lemma {:induction false} RangeInduction(s: State, t: nat, i: nat, addr: nat, top: nat, ripas: Ripas, change: bool,
                                          place: Place, kept: (State, nat, nat) -> bool)
    returns (j: nat)
    requires t in s.tables && t in s.places && s.places[t] == place && i <= |s.tables[t]| && kept(s, i, addr)
    requires forall x, k: nat, a: nat :: kept(x, k, a) && Continues(x, t, k, a, top, ripas, change) ==>
      kept(AfterEntry(x, t, k, a, ripas, change), k + 1, a + MapSize(place.level))
    ensures kept(SetRange(s, t, i, addr, top, ripas, change).0, j, SetRange(s, t, i, addr, top, ripas, change).1)
    decreases |s.tables[t]| - i
  {
    if Continues(s, t, i, addr, top, ripas, change) {
      j := RangeInduction(AfterEntry(s, t, i, addr, ripas, change), t, i + 1, addr + MapSize(s.places[t].level), top,
                          ripas, change, place, kept);
    } else {
      j := i;
    }
  }

  /** The loop invariant, as seen at one address. */
  ghost function Serving(r: Realm, before: Meaning, t: nat, place: Place, start: nat, top: nat, ripas: Ripas,
                         change: bool, ipa: nat): (State, nat, nat) -> bool
  {
    (s: State, i: nat, addr: nat) =>
      && Inv(r, s) && t in s.tables && s.places[t] == place && ipa < r.ipaSize
      && addr == place.base + Offset(i, MapSize(place.level)) && start <= addr <= top && Aligned(addr, PAGE_LEVEL)
      && ServedAs(before, Sees(r, s, ipa), start <= ipa < addr, ripas, change)
  }

  lemma ServingStep(r: Realm, before: Meaning, t: nat, place: Place, start: nat, top: nat, ripas: Ripas, change: bool,
                    ipa: nat, s: State, i: nat, addr: nat, s': State)
    requires Serving(r, before, t, place, start, top, ripas, change, ipa)(s, i, addr)
    requires Continues(s, t, i, addr, top, ripas, change) && s' == AfterEntry(s, t, i, addr, ripas, change)
    ensures Serving(r, before, t, place, start, top, ripas, change, ipa)(s', i + 1, addr + MapSize(place.level))
  {
    hide Inv, UpdateRipas, AfterEntry;
    UpdateServes(r, s, s', t, i, addr, ripas, change, ipa);
    NextEntry(place.base, i, addr, place.level);
  }

  lemma ServingKept(r: Realm, before: Meaning, t: nat, place: Place, start: nat, top: nat, ripas: Ripas, change: bool,
                    ipa: nat)
    ensures var kept := Serving(r, before, t, place, start, top, ripas, change, ipa);
      forall x, k: nat, a: nat :: kept(x, k, a) && Continues(x, t, k, a, top, ripas, change) ==>
        kept(AfterEntry(x, t, k, a, ripas, change), k + 1, a + MapSize(place.level))
  {
    var kept := Serving(r, before, t, place, start, top, ripas, change, ipa);
    forall x, k: nat, a: nat | kept(x, k, a) && Continues(x, t, k, a, top, ripas, change)
      ensures kept(AfterEntry(x, t, k, a, ripas, change), k + 1, a + MapSize(place.level))
    {
      ServingStep(r, before, t, place, start, top, ripas, change, ipa, x, k, a, AfterEntry(x, t, k, a, ripas, change));
    }
  }

  /** The loop serves exactly the stretch from where it starts to where it stops. */
  lemma RangeServes(r: Realm, s: State, t: nat, i: nat, addr: nat, top: nat, ripas: Ripas, change: bool, ipa: nat)
    returns (s': State, addr': nat)
    requires Inv(r, s) && t in s.tables && i <= ENTRIES && addr <= top && Aligned(addr, PAGE_LEVEL)
    requires addr == s.places[t].base + Offset(i, MapSize(s.places[t].level)) && ipa < r.ipaSize
    ensures s' == SetRange(s, t, i, addr, top, ripas, change).0
    ensures addr' == SetRange(s, t, i, addr, top, ripas, change).1
    ensures Inv(r, s') && addr <= addr' <= top && Aligned(addr', PAGE_LEVEL)
    ensures ServedAs(Sees(r, s, ipa), Sees(r, s', ipa), addr <= ipa < addr', ripas, change)
  {
    var kept := Serving(r, Sees(r, s, ipa), t, s.places[t], addr, top, ripas, change, ipa);
    ServingKept(r, Sees(r, s, ipa), t, s.places[t], addr, top, ripas, change, ipa);
    var j := RangeInduction(s, t, i, addr, top, ripas, change, s.places[t], kept);
    s', addr' := SetRange(s, t, i, addr, top, ripas, change).0, SetRange(s, t, i, addr, top, ripas, change).1;
    assert kept(s', j, addr');
  }

  lemma NextEntry(base: nat, i: nat, addr: nat, level: int)
    requires addr == base + Offset(i, MapSize(level)) && Aligned(addr, PAGE_LEVEL)
    ensures addr + MapSize(level) == base + Offset(i + 1, MapSize(level))
    ensures Aligned(addr + MapSize(level), PAGE_LEVEL)
  {
    PageSteps(addr, level);
  }

  lemma PageSteps(addr: nat, level: int)
    requires Aligned(addr, PAGE_LEVEL)
    ensures Aligned(addr + MapSize(level), PAGE_LEVEL)
  {
  }

  // ---- One call and whole runs ---------------------------------------------------------------

  /** A request as the realm can make it: page-aligned and inside the protected range. */
  predicate ValidRequest(r: Realm, q: Request) {
    q.addr <= q.top <= r.parSize && Aligned(q.addr, PAGE_LEVEL)
  }

  /** The loop a call runs, if it gets that far. */
  lemma CallRange(r: Realm, s: State, base: nat, q: Request, top: nat)
    returns (t: nat, i: nat)
    requires Inv(r, s) && ValidRequest(r, q) && base == q.addr && base < top <= q.top
    ensures ValidMapAddr(r, base, PAGE_LEVEL)
    ensures t == WalkTo(r, s, r.root, base, PAGE_LEVEL) && i == Index(base, s.places[t].level)
    ensures ValidMapAddr(r, base, s.places[t].level) ==>
        base == s.places[t].base + Offset(i, MapSize(s.places[t].level))
  {
    t, i := FoundEntry(r, s, base, PAGE_LEVEL);
  }

  /** One call moves the progress of its request on, never past its top, and never fails the monitor's assertion. */
  lemma CallKeeps(r: Realm, s: State, rd: nat, rec: nat, q: Request, base: nat, top: nat)
    returns (s': State, q': Request, outcome: Outcome)
    requires Inv(r, s) && ValidRequest(r, q)
    ensures (s', q', outcome) == SetRipas(r, s, rd, rec, q, base, top)
    ensures Inv(r, s') && ValidRequest(r, q') && outcome != AssertFails
    ensures q' == q.(addr := q'.addr) && q.addr <= q'.addr
    ensures outcome == Success <==> q.addr < q'.addr
    ensures outcome == Success ==> base == q.addr && q'.addr <= top
  {
    hide Tree, DataOwned, Counted, TlbBacked, SetRange;
    var out := SetRipas(r, s, rd, rec, q, base, top);
    s', q', outcome := out.0, out.1, out.2;
    if base == q.addr && base < top && top <= q.top {
      var t, i := CallRange(r, s, base, q, top);
      if ValidMapAddr(r, base, s.places[t].level) {
        var s1, addr1 := RangeServes(r, s, t, i, base, top, q.ripas, q.changeDestroyed, base);
      }
    }
  }

  /** One call serves exactly the chunk between the old and the new progress. */
  lemma CallServes(r: Realm, s: State, rd: nat, rec: nat, q: Request, base: nat, top: nat, ipa: nat)
    returns (s': State, q': Request, outcome: Outcome)
    requires Inv(r, s) && ValidRequest(r, q) && ipa < r.ipaSize
    ensures (s', q', outcome) == SetRipas(r, s, rd, rec, q, base, top) && Inv(r, s')
    ensures ServedAs(Sees(r, s, ipa), Sees(r, s', ipa), q.addr <= ipa < q'.addr, q.ripas, q.changeDestroyed)
  {
    hide Tree, DataOwned, Counted, TlbBacked, SetRange;
    s', q', outcome := CallKeeps(r, s, rd, rec, q, base, top);
    if base == q.addr && base < top && top <= q.top {
      var t, i := CallRange(r, s, base, q, top);
      if ValidMapAddr(r, base, s.places[t].level) {
        var s1, addr1 := RangeServes(r, s, t, i, base, top, q.ripas, q.changeDestroyed, ipa);
      }
    }
  }

  /** The arguments of one call. */
  datatype Call = Call(rd: nat, rec: nat, base: nat, top: nat)

  lemma CallKept(r: Realm, s: State, q: Request, call: Call)
    requires Inv(r, s) && ValidRequest(r, q)
    ensures var (s', q', _) := SetRipas(r, s, call.rd, call.rec, q, call.base, call.top);
      Inv(r, s') && ValidRequest(r, q') && q' == q.(addr := q'.addr) && q.addr <= q'.addr
  {
    var s', q', outcome := CallKeeps(r, s, call.rd, call.rec, q, call.base, call.top);
  }
}
