/** The three record queues of the audit daemon thread, and where records go when sending fails. */
module AuditQueues {

  const EPERM: int := -1
  const EAGAIN: int := -11
  const ECONNREFUSED: int := -111
  const UNICAST_RETRIES: nat := 5

  datatype Queue = Main | Retry | Hold

  /** A pointer to a record, or none. */
  datatype Pointer = Null | To(record: nat)

  /** What is called for a record that could not be sent. */
  datatype Hook = DoRetry | DoHold | DoRehold

  /** The backlog limit, of which zero is none, and whether records are kept without a daemon. */
  datatype Config = Config(limit: nat, keep: bool)

  /** Records are known by their address; delivered and dropped say what became of those no longer queued. */
  datatype State = State(main: seq<nat>, retry: seq<nat>, hold: seq<nat>,
                         delivered: seq<nat>, dropped: seq<nat>, lost: nat)

  function Get(s: State, q: Queue): seq<nat> {
    match q
    case Main => s.main
    case Retry => s.retry
    case Hold => s.hold
  }

  function Put(s: State, q: Queue, records: seq<nat>): (s': State)
    ensures s'.delivered == s.delivered && Get(s', q) == records
  {
    match q
    case Main => s.(main := records)
    case Retry => s.(retry := records)
    case Hold => s.(hold := records)
  }

  /** All records there are. */
  function All(s: State): multiset<nat> {
    multiset(s.main) + multiset(s.retry) + multiset(s.hold) + multiset(s.delivered) + multiset(s.dropped)
  }

  predicate Room(c: Config, queue: seq<nat>) {
    c.limit == 0 || |queue| < c.limit
  }

  // ---- What becomes of one record ------------------------------------------------------

  function Drop(s: State, r: nat, lost: nat): State {
    s.(dropped := s.dropped + [r], lost := s.lost + lost)
  }

  function Fail(c: Config, s: State, hook: Hook, r: nat, error: int): State {
    match hook
    case DoRehold => s.(hold := s.hold + [r])
    case DoRetry => if Room(c, s.retry) then s.(retry := s.retry + [r]) else Drop(s, r, 1)
    case DoHold =>
      if !c.keep then Drop(s, r, 0)
      else if error == EAGAIN then if Room(c, s.retry) then s.(retry := s.retry + [r]) else Drop(s, r, 1)
      else if Room(c, s.hold) then s.(hold := s.hold + [r]) else Drop(s, r, 1)
  }

  /** The head of the queue is taken off and could not be sent. */
  function FailHead(c: Config, s: State, q: Queue, hook: Hook, error: int): State {
    if Get(s, q) == [] then s else Fail(c, Put(s, q, Get(s, q)[1..]), hook, Get(s, q)[0], error)
  }

  /** The first n records fail: the first with some error, the others as if there were no daemon. */
  function FailAll(c: Config, s: State, q: Queue, hook: Hook, n: nat, error: int): State {
    if n == 0 then s
    else FailHead(c, FailAll(c, s, q, hook, n - 1, error), q, hook, if n == 1 then error else ECONNREFUSED)
  }

  /** The first k records are delivered. */
  function Deliver(s: State, q: Queue, k: nat): State
    requires k <= |Get(s, q)|
  {
    Put(s, q, Get(s, q)[k..]).(delivered := s.delivered + Get(s, q)[..k])
  }

  // ---- Where records go ---------------------------------------------------------------------

  lemma FailConserves(c: Config, s: State, hook: Hook, r: nat, error: int)
    ensures All(Fail(c, s, hook, r, error)) == All(s) + multiset{r}
  {
    hide All;
    OneMoreHeld(s, r);
    OneMoreRetried(s, r);
    OneMoreDropped(s, r, 0);
    OneMoreDropped(s, r, 1);
  }

  lemma OneMoreHeld(s: State, r: nat)
    ensures All(s.(hold := s.hold + [r])) == All(s) + multiset{r}
  {
    Appended(s.hold, r);
  }

  lemma OneMoreRetried(s: State, r: nat)
    ensures All(s.(retry := s.retry + [r])) == All(s) + multiset{r}
  {
    Appended(s.retry, r);
  }

  lemma OneMoreDropped(s: State, r: nat, lost: nat)
    ensures All(Drop(s, r, lost)) == All(s) + multiset{r}
  {
    Appended(s.dropped, r);
  }

  lemma Appended(records: seq<nat>, r: nat)
    ensures multiset(records + [r]) == multiset(records) + multiset{r}
  {
  }

  lemma FailHeadConserves(c: Config, s: State, q: Queue, hook: Hook, error: int)
    ensures All(FailHead(c, s, q, hook, error)) == All(s)
  {
    if Get(s, q) != [] {
      var r := Get(s, q)[0];
      assert Get(s, q) == [r] + Get(s, q)[1..];
      FailConserves(c, Put(s, q, Get(s, q)[1..]), hook, r, error);
    }
  }

  /** Every record that could not be sent is still queued or is dropped, once. */
  lemma {:induction false} FailAllConserves(c: Config, s: State, q: Queue, hook: Hook, n: nat, error: int)
    ensures All(FailAll(c, s, q, hook, n, error)) == All(s)
  {
    hide All, FailHead;
    if n == 0 {
    } else {
      FailAllConserves(c, s, q, hook, n - 1, error);
      FailHeadConserves(c, FailAll(c, s, q, hook, n - 1, error), q, hook, if n == 1 then error else ECONNREFUSED);
    }
  }

  lemma DeliverConserves(s: State, q: Queue, k: nat)
    requires k <= |Get(s, q)|
    ensures All(Deliver(s, q, k)) == All(s)
  {
    assert Get(s, q) == Get(s, q)[..k] + Get(s, q)[k..];
  }

  /** A hook puts records behind what is queued, and delivers none. */
  lemma FailAppends(c: Config, s: State, q: Queue, hook: Hook, r: nat, error: int)
    ensures Get(s, q) <= Get(Fail(c, s, hook, r, error), q) && Fail(c, s, hook, r, error).delivered == s.delivered
  {
  }

  lemma FailHeadFront(c: Config, s: State, q: Queue, hook: Hook, error: int)
    requires Get(s, q) != []
    ensures Get(s, q)[1..] <= Get(FailHead(c, s, q, hook, error), q)
    ensures FailHead(c, s, q, hook, error).delivered == s.delivered
  {
    FailAppends(c, Put(s, q, Get(s, q)[1..]), q, hook, Get(s, q)[0], error);
  }

  /** Failing records are taken off the front; whatever is put back comes behind the rest. */
  lemma {:induction false} FailAllFront(c: Config, s: State, q: Queue, hook: Hook, n: nat, error: int)
    requires n <= |Get(s, q)|
    ensures Get(s, q)[n..] <= Get(FailAll(c, s, q, hook, n, error), q)
    ensures FailAll(c, s, q, hook, n, error).delivered == s.delivered
  {
    hide FailHead, Get;
    if n == 0 {
    } else {
      FailAllFront(c, s, q, hook, n - 1, error);
      var s1 := FailAll(c, s, q, hook, n - 1, error);
      FailHeadFront(c, s1, q, hook, if n == 1 then error else ECONNREFUSED);
      FrontStep(Get(s, q), Get(s1, q), n);
    }
  }

  lemma FrontStep(s: seq<nat>, s1: seq<nat>, n: nat)
    requires 0 < n <= |s| && s[n - 1..] <= s1
    ensures s1 != [] && s1[0] == s[n - 1] && s[n..] <= s1[1..]
  {
    assert s[n - 1..][0] == s1[0];
    assert s[n..] == s[n - 1..][1..];
  }

  predicate Within(c: Config, s: State) {
    c.limit > 0 ==> |s.retry| <= c.limit && |s.hold| <= c.limit
  }

  /** The hooks never push a queue over the limit. */
  lemma {:induction false} FailAllWithin(c: Config, s: State, q: Queue, hook: Hook, n: nat, error: int)
    requires Within(c, s) && n <= |Get(s, q)| && (hook == DoRehold ==> q == Hold)
    ensures Within(c, FailAll(c, s, q, hook, n, error))
  {
    if n == 0 {
    } else {
      FailAllWithin(c, s, q, hook, n - 1, error);
      FailAllFront(c, s, q, hook, n - 1, error);
    }
  }

  /** A hold queue that fails to flush keeps its records in their order. */
  lemma {:induction false} ReholdRotates(c: Config, s: State, n: nat, error: int)
    requires n <= |s.hold|
    ensures FailAll(c, s, Hold, DoRehold, n, error) == s.(hold := s.hold[n..] + s.hold[..n])
  {
    hide FailHead;
    if n > 0 {
      ReholdRotates(c, s, n - 1, error);
      assert s.hold[n - 1..] + s.hold[..n - 1] == [s.hold[n - 1]] + (s.hold[n..] + s.hold[..n - 1]);
      assert s.hold[..n] == s.hold[..n - 1] + [s.hold[n - 1]];
      ReholdStep(c, FailAll(c, s, Hold, DoRehold, n - 1, error), s.hold[n - 1], s.hold[n..] + s.hold[..n - 1],
                 if n == 1 then error else ECONNREFUSED);
    } else {
      assert s.hold[0..] + s.hold[..0] == s.hold;
    }
  }

  lemma ReholdStep(c: Config, s: State, r: nat, rest: seq<nat>, error: int)
    requires s.hold == [r] + rest
    ensures FailHead(c, s, Hold, DoRehold, error) == s.(hold := rest + [r])
  {
    assert s.hold[1..] == rest;
  }

  /** After k deliveries the whole rest of the hold queue fails, and is exactly what remains. */
  lemma HoldFlush(c: Config, s: State, k: nat, error: int)
    requires k <= |s.hold|
    ensures FailAll(c, Deliver(s, Hold, k), Hold, DoRehold, |s.hold| - k, error)
      == s.(hold := s.hold[k..], delivered := s.delivered + s.hold[..k])
  {
    var s1 := Deliver(s, Hold, k);
    ReholdRotates(c, s1, |s.hold| - k, error);
    assert s1.hold[|s1.hold|..] + s1.hold[..|s1.hold|] == s1.hold;
  }

  /** How many of n records still fit into a queue. */
  function Fits(c: Config, queue: seq<nat>, n: nat): (f: nat)
    ensures f <= n
  {
    if c.limit == 0 || |queue| + n <= c.limit then n else if |queue| <= c.limit then c.limit - |queue| else 0
  }

  /**
   * When the retry queue meets a full socket, the record that met it is tried
   * again, but all records behind it are treated as if the daemon had gone:
   * they move to the hold queue as far as they fit, and the rest is dropped.
   */
  lemma {:induction false} RetryScatters(c: Config, s: State, n: nat)
    requires 1 <= n <= |s.retry| && c.keep && Within(c, s)
    ensures var f := Fits(c, s.hold, n - 1);
      FailAll(c, s, Retry, DoHold, n, EAGAIN)
      == s.(retry := s.retry[n..] + [s.retry[0]], hold := s.hold + s.retry[1..1 + f],
            dropped := s.dropped + s.retry[1 + f..n], lost := s.lost + (n - 1 - f))
  {
    hide FailHead;
    if n > 1 {
      RetryScatters(c, s, n - 1);
      var f0 := Fits(c, s.hold, n - 2);
      ScatterStep(c, FailAll(c, s, Retry, DoHold, n - 1, EAGAIN), s.retry[n - 1], s.retry[n..] + [s.retry[0]]);
      assert s.retry[n - 1..] + [s.retry[0]] == [s.retry[n - 1]] + (s.retry[n..] + [s.retry[0]]);
      if c.limit == 0 || |s.hold| + n - 2 < c.limit {
        Snoc(s.hold, s.retry, 1, n);
        assert s.retry[1 + f0..n - 1] == [] && s.retry[n..n] == [];
      } else {
        Snoc(s.dropped, s.retry, 1 + f0, n);
      }
    } else {
      FirstScatter(c, s);
      assert s.hold + s.retry[1..1] == s.hold && s.dropped + s.retry[1..1] == s.dropped;
    }
  }

  lemma FirstScatter(c: Config, s: State)
    requires s.retry != [] && c.keep && Within(c, s)
    ensures FailAll(c, s, Retry, DoHold, 1, EAGAIN) == s.(retry := s.retry[1..] + [s.retry[0]])
  {
    assert FailAll(c, s, Retry, DoHold, 0, EAGAIN) == s;
  }

  lemma Snoc(front: seq<nat>, s: seq<nat>, i: nat, n: nat)
    requires i < n <= |s|
    ensures front + s[i..n - 1] + [s[n - 1]] == front + s[i..n]
  {
  }

  /** A record behind the first failure, at the head of the retry queue, fails in its turn. */
  lemma ScatterStep(c: Config, s: State, r: nat, rest: seq<nat>)
    requires s.retry == [r] + rest && c.keep
    ensures FailHead(c, s, Retry, DoHold, ECONNREFUSED)
      == if Room(c, s.hold) then s.(retry := rest, hold := s.hold + [r])
         else s.(retry := rest, dropped := s.dropped + [r], lost := s.lost + 1)
  {
    assert s.retry[1..] == rest;
  }

  /** Every failed record is meant for the same queue, whatever the error. */
  predicate MeantFor(c: Config, hook: Hook, error: int, to: Queue) {
    (hook == DoRetry && to == Retry) || (hook == DoHold && c.keep && error != EAGAIN && to == Hold)
  }

  /** The first n records of queue q have left it, f of them to another queue, the rest dropped. */
  function Moved(s: State, q: Queue, to: Queue, n: nat, f: nat): State
    requires f <= n <= |Get(s, q)|
  {
    Put(Put(s, q, Get(s, q)[n..]), to, Get(s, to) + Get(s, q)[..f])
      .(dropped := s.dropped + Get(s, q)[f..n], lost := s.lost + (n - f))
  }

  /**
   * Failed records wait in the queue they are meant for, in their order, as far
   * as they fit, and the rest is dropped: records of the main queue in the retry
   * queue or, without a daemon, in the hold queue; those of the retry queue in
   * the hold queue.
   */
  lemma {:induction false} FailAllMoves(c: Config, s: State, q: Queue, hook: Hook, to: Queue, n: nat, error: int)
    requires n <= |Get(s, q)| && Within(c, s) && q != to && MeantFor(c, hook, error, to)
    ensures FailAll(c, s, q, hook, n, error) == Moved(s, q, to, n, Fits(c, Get(s, to), n))
  {
    hide FailHead, Moved, Get, Put;
    if n > 0 {
      FailAllMoves(c, s, q, hook, to, n - 1, error);
      var from, f0 := Get(s, q), Fits(c, Get(s, to), n - 1);
      var room := c.limit == 0 || |Get(s, to)| + n - 1 < c.limit;
      WithinAt(c, s, to);
      MovedNext(s, q, to, n, f0, room);
      MoveStep(c, Moved(s, q, to, n - 1, f0), q, hook, to, from[n - 1], from[n..],
               if n == 1 then error else ECONNREFUSED);
    } else {
      NoneMoved(s, q, to);
    }
  }

  lemma WithinAt(c: Config, s: State, to: Queue)
    requires Within(c, s) && to != Main
    ensures c.limit > 0 ==> |Get(s, to)| <= c.limit
  {
  }

  /** One more record moves on, or is dropped. */
  lemma MovedNext(s: State, q: Queue, to: Queue, n: nat, f: nat, room: bool)
    requires q != to && 0 < n <= |Get(s, q)| && f < n && (room ==> f == n - 1)
    ensures var m := Moved(s, q, to, n - 1, f); var r := Get(s, q)[n - 1]; var rest := Get(s, q)[n..];
      Get(m, q) == [r] + rest && |Get(m, to)| == |Get(s, to)| + f
      && (if room then Put(Put(m, q, rest), to, Get(m, to) + [r])
          else Put(m, q, rest).(dropped := m.dropped + [r], lost := m.lost + 1))
         == Moved(s, q, to, n, if room then n else f)
  {
    var from := Get(s, q);
    assert from[n - 1..] == [from[n - 1]] + from[n..];
    if room {
      Snoc(Get(s, to), from, 0, n);
      assert from[f..n - 1] == [] && from[n..n] == [];
    } else {
      Snoc(s.dropped, from, f, n);
    }
  }

  lemma NoneMoved(s: State, q: Queue, to: Queue)
    requires q != to
    ensures Moved(s, q, to, 0, 0) == s
  {
    assert Get(s, q)[0..] == Get(s, q) && Get(s, to) + Get(s, q)[..0] == Get(s, to);
    assert s.dropped + Get(s, q)[0..0] == s.dropped;
  }

  lemma MoveStep(c: Config, s: State, q: Queue, hook: Hook, to: Queue, r: nat, rest: seq<nat>, error: int)
    requires Get(s, q) == [r] + rest && q != to && MeantFor(c, hook, error, to)
    ensures FailHead(c, s, q, hook, error)
      == if Room(c, Get(s, to)) then Put(Put(s, q, rest), to, Get(s, to) + [r])
         else Put(s, q, rest).(dropped := s.dropped + [r], lost := s.lost + 1)
  {
    assert Get(s, q)[1..] == rest;
  }

  /** If records are not kept without a daemon, those meant for the hold queue are dropped, and not counted as lost. */
  lemma {:induction false} FailAllDrops(c: Config, s: State, q: Queue, n: nat, error: int)
    requires n <= |Get(s, q)| && !c.keep
    ensures FailAll(c, s, q, DoHold, n, error)
      == Put(s, q, Get(s, q)[n..]).(dropped := s.dropped + Get(s, q)[..n])
  {
    hide FailHead, Get, Put;
    var from := Get(s, q);
    if n > 0 {
      FailAllDrops(c, s, q, n - 1, error);
      DropStep(c, s, q, n, if n == 1 then error else ECONNREFUSED);
    } else {
      NoneDropped(s, q);
    }
  }

  lemma NoneDropped(s: State, q: Queue)
    ensures Put(s, q, Get(s, q)[0..]).(dropped := s.dropped + Get(s, q)[..0]) == s
  {
    assert Get(s, q)[0..] == Get(s, q) && s.dropped + Get(s, q)[..0] == s.dropped;
  }

  lemma DropStep(c: Config, s: State, q: Queue, n: nat, error: int)
    requires 0 < n <= |Get(s, q)| && !c.keep
    ensures FailHead(c, Put(s, q, Get(s, q)[n - 1..]).(dropped := s.dropped + Get(s, q)[..n - 1]), q, DoHold, error)
      == Put(s, q, Get(s, q)[n..]).(dropped := s.dropped + Get(s, q)[..n])
  {
    var from := Get(s, q);
    assert from[n - 1..][1..] == from[n..];
    Snoc(s.dropped, from, 0, n);
    assert from[0..n - 1] == from[..n - 1] && from[0..n] == from[..n];
  }

  // ---- The daemon thread ---------------------------------------------------------------------

  ghost predicate Distinct(s: seq<nat>) {
    forall i, j :: 0 <= i < j < |s| ==> s[i] != s[j]
  }

  predicate Fatal(rc: int) {
    rc == ECONNREFUSED || rc == EPERM
  }

  /** The answers to the last attempts made the sender give up. */
  ghost predicate GaveUp(answers: nat -> int, first: nat, next: nat, limit: nat, error: int) {
    && first < next && error == answers(next - 1) < 0
    && (Fatal(error)
        || (next - first >= limit && forall i :: next - limit <= i < next && first <= i ==> answers(i) < 0))
  }

  /** What happens between two rounds: records arrive, and a daemon may have connected. */
  datatype Between = Between(arrived: seq<nat>, connects: bool)

  function Arrived(between: seq<Between>): seq<nat> {
    if between == [] then [] else Arrived(between[..|between| - 1]) + between[|between| - 1].arrived
  }

  /** What has arrived by some round is part of what arrives in the end. */
  lemma {:induction false} ArrivedPart(between: seq<Between>, i: nat)
    requires i <= |between|
    ensures multiset(Arrived(between[..i])) <= multiset(Arrived(between))
  {
    if i == |between| {
      assert between[..i] == between;
    } else {
      ArrivedPart(between[..|between| - 1], i);
      assert between[..|between| - 1][..i] == between[..i];
    }
  }

  lemma ArrivedNext(between: seq<Between>, i: nat)
    requires i < |between|
    ensures Arrived(between[..i + 1]) == Arrived(between[..i]) + between[i].arrived
  {
    assert between[..i + 1][..i] == between[..i];
  }

  /** No record is there twice. */
  ghost predicate Single(records: multiset<nat>) {
    forall r :: records[r] <= 1
  }

  // ---- What one round does -------------------------------------------------------------------

  /** A drain of a queue: how many records were delivered, and the error of the first that was not. */
  datatype Drain = Drain(k: nat, error: int)

  /** No drain, or one without a socket. */
  const NONE := Drain(0, ECONNREFUSED)

  /** Some attempts were given up with the error. */
  ghost predicate Answered(answers: nat -> int, from: nat, to: nat, limit: nat, error: int) {
    exists first: nat, next: nat :: from <= first && next <= to && GaveUp(answers, first, next, limit, error)
  }

  ghost predicate Clean(answers: nat -> int, from: nat, to: nat) {
    forall i :: from <= i < to ==> answers(i) >= 0
  }

  /** No answer but a full socket is an error. */
  ghost predicate NeverRefused(answers: nat -> int, from: nat, to: nat) {
    forall i :: from <= i < to ==> answers(i) >= 0 || answers(i) == -11
  }

  /** Why a drain of len records went no further: attempts that were given up, or no socket. */
  ghost predicate Caused(answers: nat -> int, from: nat, to: nat, sk: bool, limit: nat, d: Drain, len: nat) {
    && d.k <= len && (!sk ==> d.k == 0)
    && (d.k < len ==>
          if sk then d.error < 0 && Answered(answers, from, to, limit, d.error) else d.error == ECONNREFUSED)
  }

  lemma CausedBound(answers: nat -> int, from: nat, to: nat, sk: bool, limit: nat, d: Drain, len: nat)
    requires Caused(answers, from, to, sk, limit, d, len)
    ensures d.k <= len && (!sk ==> d.k == 0 && (len > 0 ==> d == NONE))
  {
  }

  lemma CausedWider(answers: nat -> int, from: nat, to: nat, from': nat, to': nat, sk: bool, limit: nat, d: Drain,
                    len: nat)
    requires Caused(answers, from, to, sk, limit, d, len) && from' <= from && to <= to'
    ensures Caused(answers, from', to', sk, limit, d, len)
  {
    hide GaveUp;
    if Answered(answers, from, to, limit, d.error) {
      var first: nat, next: nat :| from <= first && next <= to && GaveUp(answers, first, next, limit, d.error);
    }
  }

  /** Without an error among the answers a drain gets to the end; without a refusal nothing but EAGAIN stops it. */
  lemma CleanDrain(answers: nat -> int, from: nat, to: nat, from': nat, to': nat, limit: nat, d: Drain, len: nat)
    requires from' <= from && to <= to' && Caused(answers, from, to, true, limit, d, len)
    ensures Clean(answers, from', to') ==> d.k == len
    ensures NeverRefused(answers, from', to') ==> d.k == len || d.error == EAGAIN
  {
  }

  /** The state after a drain. */
  function Flushed(c: Config, s: State, q: Queue, hook: Hook, d: Drain): State {
    if d.k <= |Get(s, q)| then FailAll(c, Deliver(s, q, d.k), q, hook, |Get(s, q)| - d.k, d.error) else s
  }

  /** The drain ended with an error that breaks the connection. */
  predicate Cut(s: State, q: Queue, d: Drain) {
    d.k < |Get(s, q)| && d.error != EAGAIN
  }

  function ResetTo(c: Config, s: State): State {
    FailAll(c, s, Retry, DoHold, |s.retry|, ECONNREFUSED)
  }

  /** The state after the hold queue and the retry queue have been flushed, and whether the socket is still open. */
  function AfterKept(c: Config, s: State, h: Drain, r: Drain): (State, bool) {
    var s1 := Flushed(c, s, Hold, DoRehold, h);
    if Cut(s, Hold, h) then (ResetTo(c, s1), false)
    else
      var s2 := Flushed(c, s1, Retry, DoHold, r);
      if Cut(s1, Retry, r) then (ResetTo(c, s2), false) else (s2, true)
  }

  /** The state after a whole round, and whether the connection still stands. */
  function RoundEnd(c: Config, s: State, ac: bool, h: Drain, r: Drain, m: Drain): (State, bool) {
    var (s1, sk) := if ac then AfterKept(c, s, h, r) else (s, false);
    var s2 := Flushed(c, s1, Main, if sk then DoRetry else DoHold, m);
    if sk && Cut(s1, Main, m) then (ResetTo(c, s2), false) else (s2, sk)
  }

  /** The drains of a round stay inside their queues; those that did not take place delivered nothing. */
  ghost predicate Drains(s: State, ac: bool, h: Drain, r: Drain, m: Drain) {
    && h.k <= |s.hold| && r.k <= |s.retry| && m.k <= |s.main|
    && (!ac ==> h == r == NONE && m.k == 0) && (Cut(s, Hold, h) ==> r == NONE)
  }

  /** Everything queued has been delivered: first what was held, then what was to be retried, then the rest. */
  function AllSent(s: State): State {
    s.(main := [], retry := [], hold := [], delivered := s.delivered + s.hold + s.retry + s.main)
  }

  /** The records delivered and queued, in the order in which they leave. */
  function Queued(s: State): seq<nat> {
    s.delivered + s.hold + s.retry + s.main
  }

  lemma HoldFlushed(c: Config, s: State, d: Drain)
    requires d.k <= |s.hold|
    ensures Flushed(c, s, Hold, DoRehold, d)
      == s.(hold := s.hold[d.k..], delivered := s.delivered + s.hold[..d.k])
  {
    HoldFlush(c, s, d.k, d.error);
  }

  lemma FlushedDelivers(c: Config, s: State, q: Queue, hook: Hook, d: Drain)
    requires d.k <= |Get(s, q)| && (hook == DoRehold ==> q == Hold)
    ensures var s' := Flushed(c, s, q, hook, d);
      s'.delivered == s.delivered + Get(s, q)[..d.k] && s'.main == (if q == Main then [] else s.main)
    ensures c.limit == 0 && c.keep ==>
      Flushed(c, s, q, hook, d).dropped == s.dropped && Flushed(c, s, q, hook, d).lost == s.lost
    ensures d.k == |Get(s, q)| ==>
      Flushed(c, s, q, hook, d) == Put(s, q, []).(delivered := s.delivered + Get(s, q))
  {
    var n := |Get(s, q)| - d.k;
    FailAllFront(c, Deliver(s, q, d.k), q, hook, n, d.error);
    MainDrains(c, Deliver(s, q, d.k), q, hook, n, d.error);
    NothingDropped(c, Deliver(s, q, d.k), q, hook, n, d.error);
    NoneYet(c, Deliver(s, q, d.k), q, hook, d.error);
    if d.k == |Get(s, q)| {
      assert Get(s, q)[d.k..] == [] && Get(s, q)[..d.k] == Get(s, q);
    }
  }

  /** Without a limit, and if records are kept, no failed record is dropped. */
  lemma {:induction false} NothingDropped(c: Config, s: State, q: Queue, hook: Hook, n: nat, error: int)
    ensures c.limit == 0 && c.keep ==>
      FailAll(c, s, q, hook, n, error).dropped == s.dropped && FailAll(c, s, q, hook, n, error).lost == s.lost
  {
    if n == 0 {
    } else {
      NothingDropped(c, s, q, hook, n - 1, error);
    }
  }

  lemma ResetDelivers(c: Config, s: State)
    ensures ResetTo(c, s).delivered == s.delivered && ResetTo(c, s).main == s.main
    ensures c.limit == 0 && c.keep ==> ResetTo(c, s).dropped == s.dropped && ResetTo(c, s).lost == s.lost
  {
    FailAllFront(c, s, Retry, DoHold, |s.retry|, ECONNREFUSED);
    MainDrains(c, s, Retry, DoHold, |s.retry|, ECONNREFUSED);
    NothingDropped(c, s, Retry, DoHold, |s.retry|, ECONNREFUSED);
  }

  lemma KeptDelivers(c: Config, s: State, h: Drain, r: Drain)
    requires h.k <= |s.hold| && r.k <= |s.retry| && (Cut(s, Hold, h) ==> r == NONE)
    ensures var s' := AfterKept(c, s, h, r).0;
      s'.delivered == s.delivered + s.hold[..h.k] + s.retry[..r.k] && s'.main == s.main
      && (c.limit == 0 && c.keep ==> s'.dropped == s.dropped && s'.lost == s.lost)
  {
    hide Flushed, ResetTo;
    HoldFlushed(c, s, h);
    var s1 := Flushed(c, s, Hold, DoRehold, h);
    FlushedDelivers(c, s1, Retry, DoHold, r);
    ResetDelivers(c, s1);
    ResetDelivers(c, Flushed(c, s1, Retry, DoHold, r));
    assert s1.delivered + s.retry[..0] == s1.delivered;
  }

  /** A round delivers a first part of each queue. */
  lemma RoundDelivers(c: Config, s: State, ac: bool, h: Drain, r: Drain, m: Drain)
    requires Drains(s, ac, h, r, m)
    ensures RoundEnd(c, s, ac, h, r, m).0.delivered
      == s.delivered + s.hold[..h.k] + s.retry[..r.k] + s.main[..m.k]
  {
    hide Flushed, ResetTo, AfterKept;
    KeptDelivers(c, s, h, r);
    var (s1, sk) := if ac then AfterKept(c, s, h, r) else (s, false);
    var hook := if sk then DoRetry else DoHold;
    FlushedDelivers(c, s1, Main, hook, m);
    ResetDelivers(c, Flushed(c, s1, Main, hook, m));
    assert s.delivered + s.hold[..0] + s.retry[..0] == s.delivered;
  }

  lemma RoundDropsNothing(c: Config, s: State, ac: bool, h: Drain, r: Drain, m: Drain)
    requires Drains(s, ac, h, r, m)
    ensures var s' := RoundEnd(c, s, ac, h, r, m).0;
      c.limit == 0 && c.keep ==> s'.dropped == s.dropped && s'.lost == s.lost
  {
    hide Flushed, ResetTo, AfterKept;
    KeptDelivers(c, s, h, r);
    var (s1, sk) := if ac then AfterKept(c, s, h, r) else (s, false);
    var hook := if sk then DoRetry else DoHold;
    FlushedDelivers(c, s1, Main, hook, m);
    ResetDelivers(c, Flushed(c, s1, Main, hook, m));
  }

  lemma AllKeptSent(c: Config, s: State, h: Drain, r: Drain)
    requires h.k == |s.hold| && r.k == |s.retry|
    ensures AfterKept(c, s, h, r)
      == (s.(hold := [], retry := [], delivered := s.delivered + s.hold + s.retry), true)
  {
    hide Flushed, ResetTo;
    FlushedDelivers(c, s, Hold, DoRehold, h);
    FlushedDelivers(c, Flushed(c, s, Hold, DoRehold, h), Retry, DoHold, r);
  }

  /** Drains that all get to the end deliver everything. */
  lemma RoundSendsAll(c: Config, s: State, h: Drain, r: Drain, m: Drain)
    requires h.k == |s.hold| && r.k == |s.retry| && m.k == |s.main|
    ensures RoundEnd(c, s, true, h, r, m) == (AllSent(s), true)
  {
    hide Flushed, ResetTo, AfterKept;
    AllKeptSent(c, s, h, r);
    FlushedDelivers(c, AfterKept(c, s, h, r).0, Main, DoRetry, m);
  }

  /**
   * Each drain that had a socket went as far as the answers let it: a kept record
   * is given up after five failures in a row, one of the main queue after one.
   */
  ghost predicate DrainsCaused(c: Config, answers: nat -> int, from: nat, to: nat, s: State, h: Drain, r: Drain,
                               m: Drain)
  {
    && Caused(answers, from, to, true, 5, h, |s.hold|)
    && (!Cut(s, Hold, h) ==> Caused(answers, from, to, true, 5, r, |s.retry|))
    && (AfterKept(c, s, h, r).1 ==> Caused(answers, from, to, true, 1, m, |s.main|))
    && (!AfterKept(c, s, h, r).1 ==> Refused(s, m))
  }

  /** The main queue was drained without a socket. */
  ghost predicate Refused(s: State, m: Drain) {
    m.k == 0 && (s.main != [] ==> m == NONE)
  }

  lemma KeptCaused(c: Config, answers: nat -> int, from: nat, middle: nat, to: nat, s: State, h: Drain, r: Drain,
                   m: Drain)
    requires from <= middle <= to && Caused(answers, from, middle, true, 5, h, |s.hold|)
    requires !Cut(s, Hold, h) ==> Caused(answers, from, middle, true, 5, r, |s.retry|)
    requires Caused(answers, middle, to, AfterKept(c, s, h, r).1, 1, m, |s.main|)
    ensures DrainsCaused(c, answers, from, to, s, h, r, m)
  {
    hide Caused, AfterKept, Cut;
    CausedWider(answers, from, middle, from, to, true, 5, h, |s.hold|);
    if !Cut(s, Hold, h) {
      CausedWider(answers, from, middle, from, to, true, 5, r, |s.retry|);
    }
    CausedWider(answers, middle, to, from, to, AfterKept(c, s, h, r).1, 1, m, |s.main|);
    CausedBound(answers, middle, to, AfterKept(c, s, h, r).1, 1, m, |s.main|);
  }

  lemma KeptBound(answers: nat -> int, from: nat, to: nat, s: State, h: Drain, r: Drain)
    requires if Cut(s, Hold, h) then r == NONE else Caused(answers, from, to, true, 5, r, |s.retry|)
    ensures r.k <= |s.retry|
  {
  }

  // ---- The connection after a round, and where undelivered records are --------------------------

  /** Records of the retry queue that go to the hold queue: all, except one that met a full socket. */
  function Scattered(retry: seq<nat>, d: Drain): seq<nat>
    requires d.k <= |retry|
  {
    if d.k < |retry| && d.error == EAGAIN then retry[d.k + 1..] else retry[d.k..]
  }

  /** That one is tried again. */
  function Again(retry: seq<nat>, d: Drain): seq<nat>
    requires d.k <= |retry|
  {
    if d.k < |retry| && d.error == EAGAIN then [retry[d.k]] else []
  }

  lemma RetryFlushed(c: Config, s: State, d: Drain)
    requires c.limit == 0 && c.keep && d.k <= |s.retry|
    ensures Flushed(c, s, Retry, DoHold, d)
      == s.(retry := Again(s.retry, d), hold := s.hold + Scattered(s.retry, d),
            delivered := s.delivered + s.retry[..d.k])
  {
    hide FailAll;
    var s1, n := Deliver(s, Retry, d.k), |s.retry| - d.k;
    if n == 0 {
      NoneYet(c, s1, Retry, DoHold, d.error);
      assert s1.hold + s.retry[d.k..] == s1.hold;
    } else if d.error == EAGAIN {
      OneScatters(c, s1);
      assert s.retry[d.k..][1..] == s.retry[d.k + 1..];
    } else {
      AllMove(c, s1, Retry, DoHold, Hold, d.error);
    }
  }

  /** Without a limit: the retry queue meets a full socket. */
  lemma OneScatters(c: Config, s: State)
    requires c.limit == 0 && c.keep && s.retry != []
    ensures FailAll(c, s, Retry, DoHold, |s.retry|, EAGAIN)
      == s.(retry := [s.retry[0]], hold := s.hold + s.retry[1..])
  {
    hide FailAll;
    var n := |s.retry|;
    RetryScatters(c, s, n);
    assert s.retry[n..] + [s.retry[0]] == [s.retry[0]] && s.retry[1..1 + (n - 1)] == s.retry[1..];
    assert s.dropped + s.retry[n..n] == s.dropped;
  }

  /** Without a limit: a whole queue moves to another one. */
  lemma AllMove(c: Config, s: State, q: Queue, hook: Hook, to: Queue, error: int)
    requires c.limit == 0 && q != to && MeantFor(c, hook, error, to)
    ensures FailAll(c, s, q, hook, |Get(s, q)|, error) == Put(Put(s, q, []), to, Get(s, to) + Get(s, q))
  {
    hide FailAll, Get, Put;
    var from, n := Get(s, q), |Get(s, q)|;
    FailAllMoves(c, s, q, hook, to, n, error);
    assert from[n..] == [] && from[..n] == from && s.dropped + from[n..n] == s.dropped;
    SameDrops(Put(Put(s, q, []), to, Get(s, to) + from), s, q, to);
  }

  lemma SameDrops(s': State, s: State, q: Queue, to: Queue)
    requires exists a, b :: s' == Put(Put(s, q, a), to, b)
    ensures s'.(dropped := s.dropped, lost := s.lost) == s'
  {
  }

  lemma MainFlushed(c: Config, s: State, hook: Hook, d: Drain)
    requires c.limit == 0 && c.keep && d.k <= |s.main|
    requires hook == DoRetry || (hook == DoHold && Refused(s, d))
    ensures Flushed(c, s, Main, hook, d)
      == if hook == DoRetry
         then s.(main := [], retry := s.retry + s.main[d.k..], delivered := s.delivered + s.main[..d.k])
         else s.(main := [], hold := s.hold + s.main, delivered := s.delivered + s.main[..d.k])
  {
    var s1, n := Deliver(s, Main, d.k), |s.main| - d.k;
    if n == 0 {
      NoneYet(c, s1, Main, hook, d.error);
      assert s1.hold + s1.main == s1.hold && s1.retry + s1.main == s1.retry;
    } else {
      AllMove(c, s1, Main, hook, if hook == DoRetry then Retry else Hold, d.error);
    }
  }

  lemma ResetMoves(c: Config, s: State)
    requires c.limit == 0 && c.keep
    ensures ResetTo(c, s) == s.(retry := [], hold := s.hold + s.retry)
  {
    AllMove(c, s, Retry, DoHold, Hold, ECONNREFUSED);
  }

  /** Without a limit: what flushing the kept records leaves. */
  lemma KeptExactly(c: Config, s: State, h: Drain, r: Drain)
    requires c.limit == 0 && c.keep && h.k <= |s.hold| && r.k <= |s.retry| && (Cut(s, Hold, h) ==> r == NONE)
    ensures AfterKept(c, s, h, r)
      == (s.(hold := s.hold[h.k..] + Scattered(s.retry, r), retry := Again(s.retry, r),
             delivered := s.delivered + s.hold[..h.k] + s.retry[..r.k]),
          !Cut(s, Hold, h) && !Cut(s, Retry, r))
  {
    hide Flushed, ResetTo;
    HoldFlushed(c, s, h);
    var s1 := Flushed(c, s, Hold, DoRehold, h);
    ResetMoves(c, s1);
    RetryFlushed(c, s1, r);
    var s2 := Flushed(c, s1, Retry, DoHold, r);
    ResetMoves(c, s2);
    assert s1.delivered + s.retry[..0] == s1.delivered && s.retry[0..] == s.retry && s2.hold + [] == s2.hold;
  }

  /**
   * Without a limit, and if records are kept, the state after a round of a
   * connected thread: the undelivered records of the hold queue, then those of
   * the retry queue, then, if the connection broke, the one to be tried again and
   * those of the main queue are held in this order; if it stands, the last two
   * are to be retried.
   */
  lemma RoundExactly(c: Config, s: State, h: Drain, r: Drain, m: Drain)
    requires c.limit == 0 && c.keep && Drains(s, true, h, r, m) && (!AfterKept(c, s, h, r).1 ==> Refused(s, m))
    ensures var (s', stands) := RoundEnd(c, s, true, h, r, m);
      var held, again := s.hold[h.k..] + Scattered(s.retry, r), Again(s.retry, r) + s.main[m.k..];
      s' == s.(main := [], hold := if stands then held else held + again, retry := if stands then again else [],
               delivered := s.delivered + s.hold[..h.k] + s.retry[..r.k] + s.main[..m.k])
  {
    hide Flushed, ResetTo, AfterKept, Scattered;
    KeptExactly(c, s, h, r);
    var (s1, sk) := AfterKept(c, s, h, r);
    var hook := if sk then DoRetry else DoHold;
    MainFlushed(c, s1, hook, m);
    var s2 := Flushed(c, s1, Main, hook, m);
    ResetMoves(c, s2);
    assert s.main[0..] == s.main && [] + s.main == s.main;
  }

  /** The connection stands after a round exactly if every drain got to its end or was stopped by a full socket. */
  lemma RoundStands(c: Config, s: State, h: Drain, r: Drain, m: Drain)
    requires Drains(s, true, h, r, m)
    ensures RoundEnd(c, s, true, h, r, m).1 <==>
      (h.k == |s.hold| || h.error == -11) && (r.k == |s.retry| || r.error == -11)
      && (m.k == |s.main| || m.error == -11)
  {
    hide Flushed, ResetTo;
    HoldFlushed(c, s, h);
    var s1 := Flushed(c, s, Hold, DoRehold, h);
    KeptDelivers(c, s, h, r);
    assert s1.retry == s.retry;
  }

  /** Once it broke, nothing is left to be retried. */
  lemma RoundBroke(c: Config, s: State, h: Drain, r: Drain, m: Drain)
    requires Drains(s, true, h, r, m) && (!AfterKept(c, s, h, r).1 ==> Refused(s, m))
    ensures !RoundEnd(c, s, true, h, r, m).1 ==> RoundEnd(c, s, true, h, r, m).0.retry == []
  {
    hide Flushed;
    ResetEmpties(c, Flushed(c, s, Hold, DoRehold, h));
    ResetEmpties(c, Flushed(c, Flushed(c, s, Hold, DoRehold, h), Retry, DoHold, r));
    var (s1, sk) := AfterKept(c, s, h, r);
    ResetEmpties(c, Flushed(c, s1, Main, DoRetry, m));
    KeptDelivers(c, s, h, r);
    if !sk {
      RefusedKeeps(c, s1, m);
    }
  }

  /** What the answers decide about a round that had a connection. */
  lemma ConnectedRound(c: Config, answers: nat -> int, from: nat, to: nat, s: State, h: Drain, r: Drain, m: Drain)
    requires from <= to && Drains(s, true, h, r, m) && DrainsCaused(c, answers, from, to, s, h, r, m)
    ensures RoundEnd(c, s, true, h, r, m).1 <==>
      (h.k == |s.hold| || h.error == -11) && (r.k == |s.retry| || r.error == -11)
      && (m.k == |s.main| || m.error == -11)
    ensures !RoundEnd(c, s, true, h, r, m).1 ==> RoundEnd(c, s, true, h, r, m).0.retry == []
    ensures NeverRefused(answers, from, to) ==> RoundEnd(c, s, true, h, r, m).1
    ensures Clean(answers, from, to) ==> RoundEnd(c, s, true, h, r, m) == (AllSent(s), true)
  {
    hide Caused, NeverRefused, Clean, RoundEnd, AfterKept, AllSent, Refused;
    RoundStands(c, s, h, r, m);
    RoundBroke(c, s, h, r, m);
    CleanDrain(answers, from, to, from, to, 5, h, |s.hold|);
    if !Cut(s, Hold, h) {
      CleanDrain(answers, from, to, from, to, 5, r, |s.retry|);
      KeptStands(c, s, h, r);
      if AfterKept(c, s, h, r).1 {
        CleanDrain(answers, from, to, from, to, 1, m, |s.main|);
      }
    }
    if Clean(answers, from, to) {
      RoundSendsAll(c, s, h, r, m);
    }
  }

  /** Without a limit a broken connection leaves every undelivered record in the hold queue, in this order. */
  lemma HeldInOrder(c: Config, answers: nat -> int, from: nat, to: nat, s: State, h: Drain, r: Drain, m: Drain)
    requires from <= to && Drains(s, true, h, r, m) && DrainsCaused(c, answers, from, to, s, h, r, m)
    ensures var (s', stands) := RoundEnd(c, s, true, h, r, m);
      !stands && c.limit == 0 && c.keep ==>
        s'.hold == s.hold[h.k..] + Scattered(s.retry, r) + (Again(s.retry, r) + s.main[m.k..])
  {
    hide Caused, RoundEnd, AfterKept, Scattered, Again;
    if c.limit == 0 && c.keep {
      RoundExactly(c, s, h, r, m);
    }
  }

  lemma AllDropped(c: Config, s: State)
    ensures !c.keep ==>
      FailAll(c, s, Main, DoHold, |s.main|, ECONNREFUSED) == s.(main := [], dropped := s.dropped + s.main)
  {
    hide FailAll;
    if !c.keep {
      FailAllDrops(c, s, Main, |s.main|, ECONNREFUSED);
      assert s.main[|s.main|..] == [] && s.main[..|s.main|] == s.main;
    }
  }

  lemma KeptStands(c: Config, s: State, h: Drain, r: Drain)
    requires h.k <= |s.hold|
    ensures AfterKept(c, s, h, r).1 <==> !Cut(s, Hold, h) && !Cut(s, Retry, r)
  {
    hide Flushed, ResetTo;
    HoldFlushed(c, s, h);
  }

  lemma ResetEmpties(c: Config, s: State)
    ensures ResetTo(c, s).retry == []
  {
    RefusedDrains(c, s, Retry, |s.retry|, ECONNREFUSED);
  }

  /** Records that fail without a daemon are never put into the retry queue. */
  lemma {:induction false} RefusedDrains(c: Config, s: State, q: Queue, n: nat, error: int)
    requires n <= |Get(s, q)| && error != EAGAIN
    ensures FailAll(c, s, q, DoHold, n, error).retry == if q == Retry then s.retry[n..] else s.retry
  {
    if n == 0 {
    } else {
      RefusedDrains(c, s, q, n - 1, error);
      assert q == Retry ==> s.retry[n - 1..][1..] == s.retry[n..];
    }
  }

  lemma RefusedKeeps(c: Config, s: State, m: Drain)
    requires Refused(s, m)
    ensures Flushed(c, s, Main, DoHold, m).retry == s.retry
  {
    NoneFlushed(c, s, m);
    RefusedDrains(c, s, Main, |s.main|, ECONNREFUSED);
  }

  lemma NoneFlushed(c: Config, s: State, m: Drain)
    requires m.k == 0 && (s.main != [] ==> m == NONE)
    ensures Flushed(c, s, Main, DoHold, m) == FailAll(c, s, Main, DoHold, |s.main|, ECONNREFUSED)
  {
    NoneDelivered(c, s, m.k, m.error);
  }

  // ---- The thread ------------------------------------------------------------------------------

  class Daemon {
    const config: Config
    const answers: nat -> int
    var s: State
    var attempts: nat
    var multicast: seq<nat>
    var connected: bool

    /** Sends one record, again and again until it is accepted or the sender gives up. */
    method TrySend(retryLimit: nat) returns (rc: int)
      modifies this`attempts
      ensures old(attempts) < attempts && rc == answers(attempts - 1)
      ensures rc < 0 ==> GaveUp(answers, old(attempts), attempts, retryLimit, rc)
      ensures rc < 0 ==> rc == -111 || rc == -1 || attempts - old(attempts) >= retryLimit
      ensures forall i :: old(attempts) <= i < attempts - 1 ==> answers(i) < 0 && answers(i) != -111 && answers(i) != -1
      ensures attempts - old(attempts) <= retryLimit || attempts == old(attempts) + 1
    {
      var failed := 0;
      while true
        invariant attempts == old(attempts) + failed
        invariant forall i :: old(attempts) <= i < attempts ==> answers(i) < 0 && !Fatal(answers(i))
        invariant failed > 0 ==> failed < retryLimit
        decreases retryLimit - failed
      {
        rc := answers(attempts);
        attempts := attempts + 1;
        if rc >= 0 {
          return;
        }
        failed := failed + 1;
        if failed >= retryLimit || Fatal(rc) {
          return;
        }
      }
    }

    /** Sends a record taken off a queue if the socket is still open, and hands it to the hook if that fails. */
    method SendRecord(open: bool, skb: nat, retryLimit: nat, hook: Hook) returns (rc: int, sent: bool)
      modifies this`s, this`attempts
      ensures open ==> old(attempts) < attempts && sent == (rc >= 0)
      ensures open && !sent ==> rc < 0 && GaveUp(answers, old(attempts), attempts, retryLimit, rc)
      ensures !open ==> attempts == old(attempts) && !sent && rc == ECONNREFUSED
      ensures s == if sent then old(s).(delivered := old(s).delivered + [skb]) else Fail(config, old(s), hook, skb, rc)
    {
      rc, sent := ECONNREFUSED, false;
      if open {
        rc := TrySend(retryLimit);
        sent := rc >= 0;
      }
      if sent {
        s := s.(delivered := s.delivered + [skb]);
      } else {
        s := Fail(config, s, hook, skb, rc);
      }
    }

    /**
     * Drains the records that are in the queue now: a first part is delivered,
     * and from the first one that cannot be sent on all of them go to the hook.
     */
    method SendQueue(sk: bool, q: Queue, retryLimit: nat, cast: bool, hook: Hook)
      returns (rc: int, ghost k: nat, ghost error: int, ghost first: nat)
      requires Distinct(Get(s, q))
      modifies this`s, this`attempts, this`multicast
      ensures k <= |Get(old(s), q)| && (!sk ==> k == 0)
      ensures s == FailAll(config, Deliver(old(s), q, k), q, hook, |Get(old(s), q)| - k, error)
      ensures multicast == old(multicast) + if cast then Get(old(s), q) else []
      ensures k < |Get(old(s), q)| ==>
        if sk then old(attempts) <= first && GaveUp(answers, first, attempts, retryLimit, error)
        else error == ECONNREFUSED
      ensures rc == if sk && k < |Get(old(s), q)| && error != EAGAIN then error else 0
      ensures old(attempts) <= attempts && (!sk ==> attempts == old(attempts))
    {
      hide Draining, Distinct, GaveUp, Get, Put;
      var queue := Get(s, q);
      ghost var was := s;
      var open := sk;
      var skb, tail := Null, if queue == [] then Null else To(queue[|queue| - 1]);
      ghost var done := 0;
      rc, k, error, first := 0, 0, ECONNREFUSED, 0;
      StartDraining(config, was, q, hook, sk);
      while skb != tail
        invariant 0 <= done <= |queue| && skb == (if done == 0 then Null else To(queue[done - 1]))
        invariant Draining(config, was, s, q, hook, sk, open, k, done, error, rc)
        invariant multicast == old(multicast) + if cast then queue[..done] else []
        invariant old(attempts) <= attempts && (!sk ==> attempts == old(attempts) && !open)
        invariant !open && sk ==> old(attempts) <= first && GaveUp(answers, first, attempts, retryLimit, error)
        decreases |queue| - done
      {
        HeadOfDrain(config, was, s, q, hook, sk, open, k, done, error, rc);
        skb := To(Get(s, q)[0]);
        ghost var before := s;
        s := Put(s, q, Get(s, q)[1..]);
        if cast {
          multicast := multicast + [skb.record];
          assert queue[..done + 1] == queue[..done] + [queue[done]];
        }
        ghost var from := attempts;
        var answer, sent := SendRecord(open, skb.record, retryLimit, hook);
        Drained(config, was, before, s, q, hook, sk, open, k, done, error, rc, answer, sent);
        if sent {
          rc, k := answer, k + 1;
        } else if open {
          open, error, first := false, answer, from;
          rc := if answer == EAGAIN then 0 else answer;
        }
        done := done + 1;
      }
      if 0 < done < |queue| {
        NotTheTail(queue, done);
      }
      assert queue[..done] == queue;
      EndOfDrain(config, was, s, q, hook, sk, open, k, done, error, rc);
      rc := if rc >= 0 then 0 else rc;
    }

    /** Breaks the connection and moves the retry queue to the hold queue. */
    method Reset()
      modifies this`s, this`connected
      ensures !connected && s == FailAll(config, old(s), Retry, DoHold, |old(s).retry|, ECONNREFUSED)
    {
      connected := false;
      ghost var n := 0;
      while s.retry != []
        invariant !connected && n <= |old(s).retry| && s == FailAll(config, old(s), Retry, DoHold, n, ECONNREFUSED)
        invariant s.retry == old(s).retry[n..]
        decreases |s.retry|
      {
        var skb := s.retry[0];
        s := s.(retry := s.retry[1..]);
        s := Fail(config, s, DoHold, skb, ECONNREFUSED);
        n := n + 1;
      }
      assert |old(s).retry[n..]| == 0;
    }

    /** Drains a queue; d says how far that got, and why not further. */
    method Flush(sk: bool, q: Queue, retryLimit: nat, cast: bool, hook: Hook) returns (rc: int, ghost d: Drain)
      requires Single(All(s)) && (hook == DoRehold ==> q == Hold)
      modifies this`s, this`attempts, this`multicast
      ensures old(attempts) <= attempts && (!sk ==> attempts == old(attempts))
      ensures Caused(answers, old(attempts), attempts, sk, retryLimit, d, |Get(old(s), q)|)
      ensures s == Flushed(config, old(s), q, hook, d)
      ensures multicast == old(multicast) + if cast then Get(old(s), q) else []
      ensures rc < 0 <==> sk && Cut(old(s), q, d)
      ensures All(s) == All(old(s)) && (Within(config, old(s)) ==> Within(config, s))
      ensures s.main == if q == Main then [] else old(s).main
    {
      hide FailAll, Deliver, All, Within, Distinct, Single;
      InOneQueue(s, q);
      ghost var s0, from := s, attempts;
      ghost var k, error, first;
      rc, k, error, first := SendQueue(sk, q, retryLimit, cast, hook);
      d := Drain(k, error);
      if sk && k < |Get(s0, q)| {
        assert from <= first && GaveUp(answers, first, attempts, retryLimit, error);
      }
      Phase(config, s0, q, hook, k, error);
    }

    /** Flushes what was kept from earlier rounds; the socket stays open unless a queue could not be sent. */
    method FlushKept() returns (sk: bool, ghost h: Drain, ghost r: Drain)
      requires Single(All(s)) && connected
      modifies this`s, this`attempts, this`multicast, this`connected
      ensures old(attempts) <= attempts && sk == connected
      ensures All(s) == All(old(s)) && (Within(config, old(s)) ==> Within(config, s))
      ensures s.main == old(s).main && multicast == old(multicast)
      ensures (s, sk) == AfterKept(config, old(s), h, r)
      ensures Caused(answers, old(attempts), attempts, true, 5, h, |old(s).hold|)
      ensures if Cut(old(s), Hold, h) then r == NONE
        else Caused(answers, old(attempts), attempts, true, 5, r, |old(s).retry|)
    {
      hide All, Within, Single, FailAll, Flushed, Caused;
      ghost var was, from := s, attempts;
      var rc;
      rc, h := Flush(true, Hold, UNICAST_RETRIES, false, DoRehold);
      ghost var middle := attempts;
      CausedBound(answers, from, middle, true, 5, h, |was.hold|);
      HoldFlushed(config, was, h);
      r := NONE;
      if rc < 0 {
        ResetPhase(config, s);
        Reset();
        return false, h, r;
      }
      rc, r := Flush(true, Retry, UNICAST_RETRIES, false, DoHold);
      CausedWider(answers, from, middle, from, attempts, true, 5, h, |was.hold|);
      CausedWider(answers, middle, attempts, from, attempts, true, 5, r, |was.retry|);
      sk := true;
      if rc < 0 {
        ResetPhase(config, s);
        Reset();
        sk := false;
      }
    }

    /**
     * One round of the thread: flush what was kept, then process the main
     * queue. No record is lost from sight or doubled, the main queue is empty
     * afterwards and was multicast once, and no queue passes the limit. Of the
     * hold, the retry and the main queue a first part each is delivered, in that
     * order: all of them if no answer is an error, none without a connection. The
     * connection stands exactly if each queue got to its end or met a full socket,
     * and once it broke nothing is left to be retried. Without a limit, and if
     * records are kept without a daemon, none is dropped, and those undelivered
     * when the connection broke are held in order. If they are not kept, a round
     * without a daemon drops the main queue.
     */
    method Round() returns (ghost h: Drain, ghost r: Drain, ghost m: Drain)
      requires Single(All(s))
      modifies this`s, this`attempts, this`multicast, this`connected
      ensures All(s) == All(old(s))
      ensures s.main == [] && multicast == old(multicast) + old(s).main
      ensures Within(config, old(s)) ==> Within(config, s)
      ensures old(attempts) <= attempts && (!old(connected) ==> !connected && attempts == old(attempts))
      ensures !old(connected) ==> s == FailAll(config, old(s), Main, DoHold, |old(s).main|, ECONNREFUSED)
      ensures !old(connected) ==> s.retry == old(s).retry
      ensures !old(connected) && !config.keep ==>
        s == old(s).(main := [], dropped := old(s).dropped + old(s).main)
      ensures Drains(old(s), old(connected), h, r, m)
      ensures (s, connected) == RoundEnd(config, old(s), old(connected), h, r, m)
      ensures old(connected) ==> DrainsCaused(config, answers, old(attempts), attempts, old(s), h, r, m)
      ensures old(connected) ==>
        (connected <==> (h.k == |old(s).hold| || h.error == -11) && (r.k == |old(s).retry| || r.error == -11)
                        && (m.k == |old(s).main| || m.error == -11))
      ensures old(connected) && !connected ==> s.retry == []
      ensures old(connected) && !connected && config.limit == 0 && config.keep ==>
        s.hold == old(s).hold[h.k..] + Scattered(old(s).retry, r) + (Again(old(s).retry, r) + old(s).main[m.k..])
      ensures old(connected) && NeverRefused(answers, old(attempts), attempts) ==> connected
      ensures s.delivered == old(s).delivered + old(s).hold[..h.k] + old(s).retry[..r.k] + old(s).main[..m.k]
      ensures old(connected) && Clean(answers, old(attempts), attempts) ==> connected && s == AllSent(old(s))
      ensures config.limit == 0 && config.keep ==> s.dropped == old(s).dropped && s.lost == old(s).lost
    {
      hide All, Within, Single, FailAll, Flushed, Caused, AllSent, AfterKept, Clean, DrainsCaused, NeverRefused,
           Scattered, Again;
      ghost var was, from, ac := s, attempts, connected;
      var sk, ac' := connected, connected;
      h, r := NONE, NONE;
      if ac' {
        sk, h, r := FlushKept();
      }
      ghost var middle := attempts;
      var rc;
      rc, m := Flush(sk, Main, 1, true, if sk then DoRetry else DoHold);
      if ac' && rc < 0 {
        ResetPhase(config, s);
        Reset();
      }
      CausedBound(answers, middle, attempts, sk, 1, m, |was.main|);
      if ac {
        CausedBound(answers, from, middle, true, 5, h, |was.hold|);
        KeptBound(answers, from, middle, was, h, r);
        KeptCaused(config, answers, from, middle, attempts, was, h, r, m);
        ConnectedRound(config, answers, from, attempts, was, h, r, m);
        HeldInOrder(config, answers, from, attempts, was, h, r, m);
      } else {
        NoneFlushed(config, was, m);
        RefusedKeeps(config, was, m);
        AllDropped(config, was);
      }
      RoundDelivers(config, was, ac, h, r, m);
      RoundDropsNothing(config, was, ac, h, r, m);
    }

    /**
     * The thread over any number of rounds, with records arriving and daemons
     * connecting in between: every record that was there or arrived is in
     * exactly one place, each was multicast once in its order, the main queue is
     * empty, and no queue passes the limit. What was delivered stays so. With a
     * daemon connected at first and no error among its answers, everything is
     * delivered in order; if no answer but a full socket is an error, it stays
     * connected. Without a daemon nothing is left to be retried. Without a limit,
     * and if records are kept without a daemon, none is dropped, and all that are
     * undelivered then are held.
     */
    method Thread(between: seq<Between>)
      requires Single(All(s) + multiset(Arrived(between)))
      modifies this`s, this`attempts, this`multicast, this`connected
      ensures All(s) == All(old(s)) + multiset(Arrived(between))
      ensures between != [] ==> s.main == []
      ensures multicast + s.main == old(multicast) + old(s).main + Arrived(between)
      ensures Within(config, old(s)) ==> Within(config, s)
      ensures old(s).delivered <= s.delivered
      ensures old(connected) && between != [] && Clean(answers, old(attempts), attempts) ==>
        connected && s.main == s.retry == s.hold == [] && s.delivered == Queued(old(s)) + Arrived(between)
      ensures old(connected) && NeverRefused(answers, old(attempts), attempts) ==> connected
      ensures old(connected) || old(s).retry == [] ==> connected || s.retry == []
      ensures config.limit == 0 && config.keep ==> s.dropped == old(s).dropped && s.lost == old(s).lost
      ensures config.limit == 0 && config.keep && between != [] && s.retry == [] ==>
        multiset(s.hold) + multiset(s.delivered) + multiset(s.dropped) == All(old(s)) + multiset(Arrived(between))
    {
      hide All, Arrived, Served, Single, Within, RoundEnd, Clean, Sending, DrainsCaused,
           NeverRefused;
      ghost var was, cast, from, ac := s, multicast, attempts, connected;
      var i := 0;
      NothingArrived(was, cast, between);
      while i < |between|
        invariant 0 <= i <= |between| && Served(was, cast, s, multicast, between, i)
        invariant i > 0 ==> s.main == []
        invariant Within(config, was) ==> Within(config, s)
        invariant was.delivered <= s.delivered && from <= attempts
        invariant ac && Clean(answers, from, attempts) ==> connected && Sending(was, s, between, i)
        invariant ac && NeverRefused(answers, from, attempts) ==> connected
        invariant ac || was.retry == [] ==> connected || s.retry == []
        invariant config.limit == 0 && config.keep ==> s.dropped == was.dropped && s.lost == was.lost
      {
        if between[i].connects {
          connected := true;
        }
        Arrives(was, cast, s, multicast, between, i);
        SameQueues(config, s, s.main + between[i].arrived);
        ghost var before, castBefore, middle, open := s, multicast, attempts, connected;
        s := s.(main := s.main + between[i].arrived);
        ghost var filled := s;
        ghost var h, r, m := Round();
        RoundServed(was, cast, filled, castBefore, s, multicast, between, i + 1);
        StillDelivered(was.delivered, before.delivered, before.hold[..h.k], before.retry[..r.k], filled.main[..m.k]);
        CleanParts(answers, from, middle, attempts);
        if ac && Clean(answers, from, attempts) {
          SentOn(was, before, filled, s, between, i);
        }
        i := i + 1;
      }
      AllServed(was, cast, s, multicast, between);
      if ac && Clean(answers, from, attempts) && between != [] {
        SentInEnd(was, s, between);
      }
      OnlyHeld(s);
    }
  }

  /** After i rounds every record is accounted for, and all but those still in the main queue were multicast. */
  ghost predicate Served(was: State, cast0: seq<nat>, s: State, cast: seq<nat>, between: seq<Between>, i: nat) {
    && i <= |between| && All(s) == All(was) + multiset(Arrived(between[..i]))
    && cast + s.main == cast0 + was.main + Arrived(between[..i])
  }

  lemma NothingArrived(was: State, cast: seq<nat>, between: seq<Between>)
    ensures Served(was, cast, was, cast, between, 0) && Sending(was, was, between, 0)
  {
    assert between[..0] == [] && cast + was.main + [] == cast + was.main;
  }

  /** Records arrive in the main queue. */
  lemma Arrives(was: State, cast0: seq<nat>, s: State, cast: seq<nat>, between: seq<Between>, i: nat)
    requires Served(was, cast0, s, cast, between, i) && i < |between| && Single(All(was) + multiset(Arrived(between)))
    ensures var s' := s.(main := s.main + between[i].arrived);
      Served(was, cast0, s', cast, between, i + 1) && Single(All(s'))
  {
    hide All, Arrived, Single;
    var more, before := between[i].arrived, Arrived(between[..i]);
    ArrivedNext(between, i);
    ArrivedPart(between, i + 1);
    MainGrows(s, more);
    StillSingle(All(s), All(was), before, more, multiset(Arrived(between)));
    Regroup(cast, s.main, cast0 + was.main, before, more);
  }

  lemma Regroup(a: seq<nat>, b: seq<nat>, c: seq<nat>, d: seq<nat>, e: seq<nat>)
    requires a + b == c + d
    ensures a + (b + e) == c + (d + e)
  {
    assert a + (b + e) == (a + b) + e && c + (d + e) == (c + d) + e;
  }

  lemma MainGrows(s: State, records: seq<nat>)
    ensures All(s.(main := s.main + records)) == All(s) + multiset(records)
  {
    assert multiset(s.main + records) == multiset(s.main) + multiset(records);
  }

  lemma StillSingle(now: multiset<nat>, was: multiset<nat>, before: seq<nat>, more: seq<nat>, all: multiset<nat>)
    requires now == was + multiset(before) && multiset(before + more) <= all && Single(was + all)
    ensures now + multiset(more) == was + multiset(before + more) && Single(now + multiset(more))
  {
    assert multiset(before + more) == multiset(before) + multiset(more);
    forall r ensures (was + multiset(before + more))[r] <= 1 {
      assert (was + multiset(before + more))[r] <= (was + all)[r];
    }
  }

  lemma RoundServed(was: State, cast0: seq<nat>, s: State, cast: seq<nat>, s': State, cast': seq<nat>,
                    between: seq<Between>, i: nat)
    requires Served(was, cast0, s, cast, between, i) && All(s') == All(s) && s'.main == [] && cast' == cast + s.main
    ensures Served(was, cast0, s', cast', between, i)
  {
    assert cast' + [] == cast';
  }

  lemma AllServed(was: State, cast0: seq<nat>, s: State, cast: seq<nat>, between: seq<Between>)
    requires Served(was, cast0, s, cast, between, |between|)
    ensures All(s) == All(was) + multiset(Arrived(between))
    ensures cast + s.main == cast0 + was.main + Arrived(between)
  {
    assert between[..|between|] == between;
  }

  /** After i rounds everything has been delivered in order. */
  ghost predicate Sending(was: State, s: State, between: seq<Between>, i: nat) {
    && i <= |between| && Queued(s) == Queued(was) + Arrived(between[..i])
    && (i > 0 ==> s.hold == s.retry == s.main == [])
  }

  lemma SentOn(was: State, before: State, filled: State, after: State, between: seq<Between>, i: nat)
    requires Sending(was, before, between, i) && i < |between| && after == AllSent(filled)
    requires filled == before.(main := before.main + between[i].arrived)
    ensures Sending(was, after, between, i + 1)
  {
    hide Arrived;
    ArrivedNext(between, i);
    var rest := before.delivered + before.hold + before.retry;
    assert rest + (before.main + between[i].arrived) == Queued(before) + between[i].arrived;
    assert Queued(was) + Arrived(between[..i]) + between[i].arrived
      == Queued(was) + (Arrived(between[..i]) + between[i].arrived);
    assert Queued(after) == Queued(filled);
  }

  lemma SentInEnd(was: State, s: State, between: seq<Between>)
    requires Sending(was, s, between, |between|) && between != []
    ensures s.main == s.retry == s.hold == [] && s.delivered == Queued(was) + Arrived(between)
  {
    assert between[..|between|] == between;
  }

  lemma StillDelivered(was: seq<nat>, s: seq<nat>, a: seq<nat>, b: seq<nat>, c: seq<nat>)
    requires was <= s
    ensures was <= s + a + b + c
  {
  }

  lemma CleanParts(answers: nat -> int, from: nat, middle: nat, to: nat)
    requires from <= middle <= to
    ensures Clean(answers, from, to) ==> Clean(answers, from, middle) && Clean(answers, middle, to)
    ensures NeverRefused(answers, from, to) ==>
      NeverRefused(answers, from, middle) && NeverRefused(answers, middle, to)
  {
  }

  lemma OnlyHeld(s: State)
    ensures s.main == s.retry == [] ==> All(s) == multiset(s.hold) + multiset(s.delivered) + multiset(s.dropped)
  {
  }

  lemma SameQueues(c: Config, s: State, main: seq<nat>)
    ensures Within(c, s.(main := main)) <==> Within(c, s)
  {
  }

  lemma InOneQueue(s: State, q: Queue)
    requires Single(All(s))
    ensures Distinct(Get(s, q))
  {
    var queue := Get(s, q);
    forall i, j | 0 <= i < j < |queue| ensures queue[i] != queue[j] {
      assert multiset(queue)[queue[i]] <= All(s)[queue[i]];
      TwiceCounted(queue, i, j);
    }
  }

  lemma TwiceCounted(s: seq<nat>, i: nat, j: nat)
    requires i < j < |s|
    ensures s[i] == s[j] ==> multiset(s)[s[i]] >= 2
  {
    assert s == s[..j] + [s[j]] + s[j + 1..];
    assert s[i] in s[..j];
  }

  /** What every drain of a queue keeps. */
  lemma Phase(c: Config, s: State, q: Queue, hook: Hook, k: nat, error: int)
    requires k <= |Get(s, q)| && (hook == DoRehold ==> q == Hold)
    ensures var s' := FailAll(c, Deliver(s, q, k), q, hook, |Get(s, q)| - k, error);
      All(s') == All(s) && (Within(c, s) ==> Within(c, s'))
      && s'.main == if q == Main then [] else s.main
  {
    hide All;
    var n := |Get(s, q)| - k;
    DeliverConserves(s, q, k);
    FailAllConserves(c, Deliver(s, q, k), q, hook, n, error);
    if Within(c, s) {
      FailAllWithin(c, Deliver(s, q, k), q, hook, n, error);
    }
    MainDrains(c, Deliver(s, q, k), q, hook, n, error);
  }

  lemma {:induction false} MainDrains(c: Config, s: State, q: Queue, hook: Hook, n: nat, error: int)
    requires n <= |Get(s, q)| && (hook == DoRehold ==> q == Hold)
    ensures FailAll(c, s, q, hook, n, error).main == if q == Main then s.main[n..] else s.main
  {
    if n == 0 {
    } else {
      MainDrains(c, s, q, hook, n - 1, error);
      assert q == Main ==> s.main[n - 1..][1..] == s.main[n..];
    }
  }

  lemma ResetPhase(c: Config, s: State)
    ensures var s' := FailAll(c, s, Retry, DoHold, |s.retry|, ECONNREFUSED);
      All(s') == All(s) && (Within(c, s) ==> Within(c, s')) && s'.main == s.main
  {
    NoneYet(c, s, Retry, DoHold, ECONNREFUSED);
    Phase(c, s, Retry, DoHold, 0, ECONNREFUSED);
  }

  lemma NoneDelivered(c: Config, s: State, k: nat, error: int)
    requires k == 0 && (s.main != [] ==> error == ECONNREFUSED)
    ensures FailAll(c, Deliver(s, Main, k), Main, DoHold, |s.main| - k, error)
      == FailAll(c, s, Main, DoHold, |s.main|, ECONNREFUSED)
  {
    NoneYet(c, s, Main, DoHold, error);
  }

  /** One delivery more. */
  lemma OneMore(s: State, q: Queue, k: nat)
    requires k < |Get(s, q)|
    ensures Deliver(s, q, k + 1)
      == Put(Deliver(s, q, k), q, Get(Deliver(s, q, k), q)[1..])
           .(delivered := Deliver(s, q, k).delivered + [Get(s, q)[k]])
  {
    var queue := Get(s, q);
    assert queue[k..][1..] == queue[k + 1..];
    assert queue[..k + 1] == queue[..k] + [queue[k]];
    assert s.delivered + queue[..k + 1] == s.delivered + queue[..k] + [queue[k]];
  }

  /** The drain of a queue after done records, of which the first k were delivered. */
  ghost predicate Draining(c: Config, was: State, s: State, q: Queue, hook: Hook, sk: bool, open: bool,
                           k: nat, done: nat, error: int, rc: int)
  {
    && k <= done <= |Get(was, q)| && (open ==> sk && k == done && rc >= 0) && (!sk ==> k == 0)
    && s == FailAll(c, Deliver(was, q, k), q, hook, done - k, error)
    && (!open ==> if sk then k < done && error < 0 && rc == (if error == EAGAIN then 0 else error)
                  else rc == 0 && error == ECONNREFUSED)
  }

  lemma StartDraining(c: Config, was: State, q: Queue, hook: Hook, sk: bool)
    ensures Draining(c, was, was, q, hook, sk, sk, 0, 0, ECONNREFUSED, 0)
  {
    NoneYet(c, was, q, hook, ECONNREFUSED);
  }

  lemma HeadOfDrain(c: Config, was: State, s: State, q: Queue, hook: Hook, sk: bool, open: bool,
                    k: nat, done: nat, error: int, rc: int)
    requires Draining(c, was, s, q, hook, sk, open, k, done, error, rc) && done < |Get(was, q)|
    ensures Get(s, q) != [] && Get(s, q)[0] == Get(was, q)[done]
  {
    NextRecord(c, was, q, hook, k, done, error);
  }

  /** One record more is delivered, or is the first to fail, or fails like those before it. */
  lemma Drained(c: Config, was: State, before: State, after: State, q: Queue, hook: Hook, sk: bool, open: bool,
                k: nat, done: nat, error: int, rc: int, answer: int, sent: bool)
    requires Draining(c, was, before, q, hook, sk, open, k, done, error, rc) && done < |Get(was, q)|
    requires Get(before, q) != [] && Get(before, q)[0] == Get(was, q)[done]
    requires if open then sent == (answer >= 0) else !sent && answer == ECONNREFUSED
    requires var rest := Put(before, q, Get(before, q)[1..]); var r := Get(was, q)[done];
      after == if sent then rest.(delivered := rest.delivered + [r]) else Fail(c, rest, hook, r, answer)
    ensures if sent then Draining(c, was, after, q, hook, sk, open, k + 1, done + 1, error, answer)
      else if open then Draining(c, was, after, q, hook, sk, false, k, done + 1, answer,
                                 if answer == EAGAIN then 0 else answer)
      else Draining(c, was, after, q, hook, sk, open, k, done + 1, error, rc)
  {
    hide Fail, FailAll, Deliver;
    if sent {
      OneMore(was, q, done);
      NoneYet(c, Deliver(was, q, k), q, hook, error);
      NoneYet(c, Deliver(was, q, k + 1), q, hook, error);
    } else if open {
      NoneYet(c, Deliver(was, q, k), q, hook, error);
      NoneYet(c, Deliver(was, q, k), q, hook, answer);
      NextRecord(c, was, q, hook, k, done, answer);
    } else {
      NextRecord(c, was, q, hook, k, done, error);
    }
  }

  lemma EndOfDrain(c: Config, was: State, s: State, q: Queue, hook: Hook, sk: bool, open: bool,
                   k: nat, done: nat, error: int, rc: int)
    requires Draining(c, was, s, q, hook, sk, open, k, done, error, rc) && done == |Get(was, q)|
    ensures k <= done && (!sk ==> k == 0) && s == FailAll(c, Deliver(was, q, k), q, hook, done - k, error)
    ensures k < done ==> !open && (!sk ==> error == ECONNREFUSED)
    ensures (if rc >= 0 then 0 else rc) == if sk && k < done && error != EAGAIN then error else 0
  {
  }

  /** Nothing delivered and nothing failed. */
  lemma NoneYet(c: Config, s: State, q: Queue, hook: Hook, error: int)
    ensures FailAll(c, s, q, hook, 0, error) == s
    ensures Deliver(s, q, 0) == s
  {
    assert Get(s, q)[0..] == Get(s, q) && s.delivered + Get(s, q)[..0] == s.delivered;
  }

  /** The loop has reached its last record only when all are done. */
  lemma NotTheTail(queue: seq<nat>, done: nat)
    requires Distinct(queue) && 0 < done < |queue|
    ensures queue[done - 1] != queue[|queue| - 1]
  {
  }

  /** While some of the records the queue held at first are left, the next of them is at its head. */
  lemma NextRecord(c: Config, s: State, q: Queue, hook: Hook, k: nat, done: nat, error: int)
    requires k <= done < |Get(s, q)|
    ensures var s1 := FailAll(c, Deliver(s, q, k), q, hook, done - k, error);
      Get(s1, q) != [] && Get(s1, q)[0] == Get(s, q)[done]
      && Fail(c, Put(s1, q, Get(s1, q)[1..]), hook, Get(s, q)[done], if done == k then error else ECONNREFUSED)
         == FailAll(c, Deliver(s, q, k), q, hook, done + 1 - k, error)
  {
    hide Fail;
    var d := Deliver(s, q, k);
    FailAllFront(c, d, q, hook, done - k, error);
    assert Get(d, q) == Get(s, q)[k..];
    assert Get(s, q)[k..][done - k..][0] == Get(s, q)[done];
  }
}
