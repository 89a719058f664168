/** The reference-count operations of the module loader as they work on their fields. */
module ModuleLoader {
  import opened ModuleRefs

  /** Why a module could not be used; the kernel's error numbers. */
  datatype Err = Ok | Busy | NoEntry | NoMemory | WouldBlock

  class Loader {
    var mods: map<nat, Mod>
    var checked: map<nat, nat>
    var stop: Stop

    ghost function Now(): State
      reads this
    {
      State(mods, checked, stop)
    }

    /** Does a already use b? */
    method AlreadyUses(a: nat, b: nat) returns (used: bool)
      requires b in mods
      ensures used == (a in mods[b].sources)
    {
      var list := mods[b].sources;
      var i := 0;
      while i < |list|
        invariant 0 <= i <= |list| && a !in list[..i]
      {
        if list[i] == a {
          return true;
        }
        i := i + 1;
      }
      assert list[..i] == list;
      used := false;
    }

    /** The get of a module that must be usable: not while it initialises, and not once it is going. */
    method StrongTryModuleGet(b: nat) returns (err: Err)
      requires b in mods
      modifies this`mods
      ensures err == if old(mods[b].status) == Coming then Busy
        else if old(mods[b].status) == Going || old(mods[b].refcnt) == 0 then NoEntry else Ok
      ensures mods == if err == Ok then old(mods)[b := old(mods[b]).(refcnt := old(mods[b].refcnt) + 1)] else old(mods)
    {
      if mods[b].status == Coming {
        return Busy;
      }
      if mods[b].status != Going && mods[b].refcnt != 0 {
        mods := mods[b := mods[b].(refcnt := mods[b].refcnt + 1)];
        return Ok;
      }
      err := NoEntry;
    }

    method ModulePut(m: nat)
      requires m in mods
      modifies this`mods
      ensures mods == old(mods)[m := old(mods[m]).(refcnt := DecIfPositive(old(mods[m].refcnt)))]
    {
      mods := mods[m := mods[m].(refcnt := DecIfPositive(mods[m].refcnt))];
    }

    /** Module a uses b: take a reference, then put the use on both lists, or give the reference back. */
    method RefModule(a: nat, b: nat, memory: bool) returns (err: Err)
      requires Inv(Now()) && stop == Idle && a in mods && b in mods
      modifies this`mods
      ensures Inv(Now()) && (Now(), err == Ok) == Ref(old(Now()), a, b, memory)
      ensures err == if a in old(mods[b].sources) then Ok
        else if old(mods[b].status) == Coming then Busy
        else if old(mods[b].status) == Going || old(mods[b].refcnt) == 0 then NoEntry
        else if !memory then NoMemory else Ok
    {
      hide NoDup, Sourced, Targeted, Counts;
      RefKeeps(Now(), a, b, memory);
      var used := AlreadyUses(a, b);
      if used {
        return Ok;
      }
      err := StrongTryModuleGet(b);
      if err != Ok {
        return;
      }
      if !memory {
        ModulePut(b);
        PutAfterGet(old(Now()), b);
        assert mods == old(mods);
        return NoMemory;
      }
      mods := mods[b := mods[b].(sources := [a] + mods[b].sources)];
      mods := mods[a := mods[a].(targets := [b] + mods[a].targets)];
      assert mods == Ref(old(Now()), a, b, memory).0.mods;
    }

    /** Ends every use the module makes of others. */
    method ModuleUnloadFree(m: nat)
      requires Inv(Now()) && m in mods
      modifies this`mods
      ensures Inv(Now()) && Now() == UnuseAll(old(Now()), m)
    {
      hide Inv, NoDup, Counts, Without;
      while mods[m].targets != []
        invariant m in mods && Inv(Now()) && checked == old(checked) && stop == old(stop)
        invariant UnuseAll(Now(), m) == UnuseAll(old(Now()), m)
        decreases |mods[m].targets|
      {
        var b := mods[m].targets[0];
        FirstTarget(Now(), m);
        UnuseKeeps(Now(), m, b);
        EndUse(m, b);
      }
    }

    /** Puts a target and takes the use off both lists. */
    method EndUse(m: nat, b: nat)
      requires m in mods && b in mods
      modifies this`mods
      ensures Now() == Unuse(old(Now()), m, b)
    {
      hide Without;
      ModulePut(b);
      mods := mods[b := mods[b].(sources := Without(mods[b].sources, m))];
      mods := mods[m := mods[m].(targets := Without(mods[m].targets, b))];
      assert mods == Unuse(old(Now()), m, b).mods;
    }

    /** What other threads do in between; the module mutex is not theirs. */
    method Others(steps: seq<Step>)
      requires Inv(Now())
      modifies this
      ensures Inv(Now()) && Now() == Run(old(Now()), steps)
    {
      var s := Run(State(mods, checked, stop), steps);
      mods, checked, stop := s.mods, s.checked, s.stop;
    }

    /**
     * Tries to give up the base reference, while other threads act between its
     * two atomic operations; zero means that nobody holds the module.
     */
    method TryReleaseModuleRef(m: nat, others: seq<Step>) returns (ret: int)
      requires Inv(Now()) && stop == Idle && m in mods && mods[m].sources == [] && mods[m].status == Live
      requires forall step :: step in others ==> !step.DoStopFinish?
      modifies this
      ensures Inv(Now()) && m in mods && mods[m].sources == [] && mods[m].status == Live
      ensures ret == 0 ==> stop == Stopped(m) && Released(Now(), m)
      ensures ret != 0 ==> stop == Idle && mods[m].base == 1 && mods[m].users + mods[m].init > 0
      ensures others == [] ==> (ret == 0 <==> old(mods[m].users) == 0 && old(mods[m].init) == 0)
      ensures others == [] && ret != 0 ==> Now() == old(Now())
    {
      hide NoDup, Sourced, Targeted, Take;
      StopBeginKeeps(Now(), m);
      ghost var begun := StopBegin(Now(), m).0;
      ret := LendBase(m);
      if ret != 0 {
        LentStays(begun, others, m);
        Others(others);
        StopFinishKeeps(Now(), false);
        BaseBack(old(Now()), m);
        ret := TakeBaseBack(m);
      }
    }

    /** The first atomic operation: the base reference is given up for the test. */
    method LendBase(m: nat) returns (ret: int)
      requires Inv(Now()) && stop == Idle && m in mods && mods[m].sources == [] && mods[m].status == Live
      modifies this`mods, this`stop
      ensures Now() == StopBegin(old(Now()), m).0 && ret == mods[m].refcnt
      ensures stop == if ret == 0 then Stopped(m) else Lent(m)
    {
      hide NoDup, Sourced, Targeted;
      mods := mods[m := mods[m].(refcnt := mods[m].refcnt - 1, base := 0)];
      ret := mods[m].refcnt;
      assert ret >= 0;
      stop := if ret == 0 then Stopped(m) else Lent(m);
    }

    /** The second: it is taken back unless the count has become zero. */
    method TakeBaseBack(m: nat) returns (ret: int)
      requires stop == Lent(m) && m in mods
      modifies this`mods, this`stop
      ensures Now() == StopFinish(old(Now()), false).0
      ensures ret == if old(mods[m].refcnt) == 0 then 0 else 1
    {
      if mods[m].refcnt == 0 {
        ret, stop := 0, Stopped(m);
      } else {
        mods := mods[m := mods[m].(refcnt := mods[m].refcnt + 1, base := 1)];
        ret, stop := 1, Idle;
      }
    }

    /** Stops the module if it is unused, or if unloading is forced. */
    method TryStopModule(m: nat, force: bool, others: seq<Step>) returns (err: Err, forced: bool)
      requires Inv(Now()) && stop == Idle && m in mods && mods[m].sources == [] && mods[m].status == Live
      requires forall step :: step in others ==> !step.DoStopFinish?
      modifies this
      ensures Inv(Now()) && stop == Idle && m in mods && (forced ==> force)
      ensures err == Ok ==> mods[m].status == Going && (forced || Released(Now(), m))
      ensures err != Ok ==> !force && mods[m].status == Live && mods[m].base == 1 && mods[m].users + mods[m].init > 0
      ensures others == [] ==> (forced <==> force && old(mods[m].users + mods[m].init) > 0)
      ensures others == [] && err != Ok ==> Now() == old(Now())
    {
      hide NoDup, Sourced, Targeted;
      forced := false;
      var ret := TryReleaseModuleRef(m, others);
      if ret != 0 {
        forced := force;
        if !forced {
          return WouldBlock, forced;
        }
        ForcedKeeps(Now(), m);
        stop := Stopped(m);
      }
      MarkGoingKeeps(Now());
      mods := mods[m := mods[m].(status := Going)];
      stop := Idle;
      err := Ok;
    }
  }

  /** If nobody else acts, a stop that finds a holder changes nothing. */
  lemma BaseBack(s: State, m: nat)
    requires Inv(s) && s.stop == Idle && m in s.mods && s.mods[m].sources == [] && s.mods[m].status == Live
    ensures var s1 := StopBegin(s, m).0;
      s1.stop == Lent(m) ==> StopFinish(s1, false).0 == s && StopFinish(s1, false).1 == false
  {
    hide NoDup, Sourced, Targeted;
    if StopBegin(s, m).0.stop == Lent(m) {
      StopHeld(s, m, false);
    }
  }

  lemma PutAfterGet(s: State, b: nat)
    requires Inv(s) && b in s.mods
    ensures DecIfPositive(s.mods[b].refcnt + 1) == s.mods[b].refcnt
  {
  }

  lemma ForcedKeeps(s: State, m: nat)
    requires Inv(s) && s.stop == Idle && m in s.mods && s.mods[m].sources == [] && s.mods[m].status == Live
    ensures Inv(s.(stop := Stopped(m)))
  {
    var s' := s.(stop := Stopped(m));
    forall a, b ensures Sourced(s', a, b) <==> Targeted(s', a, b) {
      assert Sourced(s, a, b) <==> Targeted(s, a, b);
    }
  }
}
