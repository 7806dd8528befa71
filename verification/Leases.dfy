/**
 Expiring leases. Three classes of the platform hold the same lock: consensus/distributed_lock.py,
 consensus/election.py and the lock part of global_control/consensus.py. All of them read the
 clock before they enter the critical section, so the time they act on may be stale.
 */
module Leases {
  datatype Lease = Lease(holder: string, expires: real)

  type LeaseTable = map<string, Lease>

  // ----- The specification shared by the three ---------------------------------------------------

  predicate Grants(t: LeaseTable, name: string, holder: string, ts: real) {
    !(name in t && t[name].expires > ts && t[name].holder != holder)
  }

  function Acquire(t: LeaseTable, name: string, holder: string, ttl: real, ts: real): LeaseTable {
    if Grants(t, name, holder, ts) then t[name := Lease(holder, ts + ttl)] else t
  }

  function Release(t: LeaseTable, name: string, holder: string): LeaseTable {
    if name in t && t[name].holder == holder then t - {name} else t
  }

  // ----- The three implementations ---------------------------------------------------------------

  class DistributedLock {
    var rows: map<string, (string, real)>

    ghost function Table(): LeaseTable
      reads this
    {
      map n | n in rows :: Lease(rows[n].0, rows[n].1)
    }

    constructor ()
      ensures Table() == map[]
    {
      rows := map[];
    }

    /** The critical section of `acquire`; `ts` was read before it. */
    method AcquireLock(name: string, holder: string, ttl: real, ts: real) returns (granted: bool)
      modifies this
      ensures granted == Grants(old(Table()), name, holder, ts)
      ensures Table() == Acquire(old(Table()), name, holder, ttl, ts)
      ensures granted <==> name !in old(rows) || old(rows)[name].1 <= ts || old(rows)[name].0 == holder
      ensures rows == if granted then old(rows)[name := (holder, ts + ttl)] else old(rows)
    {
      if name in rows && rows[name].1 > ts && rows[name].0 != holder {
        return false;
      }
      rows := rows[name := (holder, ts + ttl)];
      return true;
    }

    method ReleaseLock(name: string, holder: string)
      modifies this
      ensures Table() == Release(old(Table()), name, holder)
      ensures rows == if name in old(rows) && old(rows)[name].0 == holder then old(rows) - {name} else old(rows)
    {
      if name in rows && rows[name].0 == holder {
        rows := rows - {name};
      }
    }
  }

  class LeaderElection {
    var rows: map<string, (string, real)>

    ghost function Table(): LeaseTable
      reads this
    {
      map n | n in rows :: Lease(rows[n].0, rows[n].1)
    }

    constructor ()
      ensures Table() == map[]
    {
      rows := map[];
    }

    method TryAcquire(scope: string, holder: string, ttl: real, ts: real) returns (granted: bool)
      modifies this
      ensures granted == Grants(old(Table()), scope, holder, ts)
      ensures Table() == Acquire(old(Table()), scope, holder, ttl, ts)
      ensures granted <==> scope !in old(rows) || old(rows)[scope].1 <= ts || old(rows)[scope].0 == holder
      ensures rows == if granted then old(rows)[scope := (holder, ts + ttl)] else old(rows)
    {
      if scope in rows && rows[scope].1 > ts && rows[scope].0 != holder {
        return false;
      }
      rows := rows[scope := (holder, ts + ttl)];
      return true;
    }

    /** The holder's own lease is extended, however late its clock reading. */
    method Renew(scope: string, holder: string, ttl: real, ts: real)
      modifies this
      ensures Table() == Acquire(old(Table()), scope, holder, ttl, ts)
      ensures scope in old(rows) && old(rows)[scope].0 == holder ==> rows == old(rows)[scope := (holder, ts + ttl)]
      ensures scope in old(rows) && old(rows)[scope].0 != holder && old(rows)[scope].1 > ts ==> rows == old(rows)
    {
      var granted := TryAcquire(scope, holder, ttl, ts);
    }
  }

  datatype LockEntry = LockEntry(holder: string, expiry: real, acquiredAt: real)

  class GlobalConsensus {
    var locks: map<string, LockEntry>

    ghost function Table(): LeaseTable
      reads this
    {
      map n | n in locks :: Lease(locks[n].holder, locks[n].expiry)
    }

    constructor ()
      ensures Table() == map[]
    {
      locks := map[];
    }

    method AcquireLock(name: string, holder: string, ttl: real, ts: real) returns (granted: bool)
      modifies this
      ensures granted == Grants(old(Table()), name, holder, ts)
      ensures Table() == Acquire(old(Table()), name, holder, ttl, ts)
      ensures granted <==> name !in old(locks) || old(locks)[name].expiry <= ts || old(locks)[name].holder == holder
      ensures locks == if granted then old(locks)[name := LockEntry(holder, ts + ttl, ts)] else old(locks)
    {
      if name in locks && locks[name].expiry > ts && locks[name].holder != holder {
        return false;
      }
      locks := locks[name := LockEntry(holder, ts + ttl, ts)];
      return true;
    }

    method ReleaseLock(name: string, holder: string) returns (released: bool)
      modifies this
      ensures released <==> name in old(locks) && old(locks)[name].holder == holder
      ensures locks == if released then old(locks) - {name} else old(locks)
      ensures Table() == Release(old(Table()), name, holder)
    {
      if name !in locks || locks[name].holder != holder {
        return false;
      }
      locks := locks - {name};
      return true;
    }
  }

  // ----- Concurrent use --------------------------------------------------------------------------

  datatype Request = Request(name: string, holder: string, ttl: real, ts: real)

  /**
   One lock instance under concurrent use: the real time, its table, the calls that have read
   the clock and not yet entered the critical section, and the expiry of the last grant of each
   holder that has not released it since.
   */
  datatype System = System(now: real, table: LeaseTable, pending: map<nat, Request>, granted: map<(string, string),
      real>)

  datatype Step =
    | Tick(to: real)
    | Begin(call: nat, name: string, holder: string, ttl: real)
    | Commit(call: nat)
    | Let(name: string, holder: string)

  ghost predicate Enabled(s: System, step: Step) {
    match step
    case Tick(to) => s.now <= to
    case Begin(call, _, _, _) => call !in s.pending
    case Commit(call) => call in s.pending
    case Let(_, _) => true
  }

  ghost function Next(s: System, step: Step): System
    requires Enabled(s, step)
  {
    match step
    case Tick(to) => s.(now := to)
    case Begin(call, name, holder, ttl) => s.(pending := s.pending[call := Request(name, holder, ttl, s.now)])
    case Commit(call) =>
      var r := s.pending[call];
      System(s.now, Acquire(s.table, r.name, r.holder, r.ttl, r.ts), s.pending - {call},
             if Grants(s.table, r.name, r.holder, r.ts) then s.granted[(r.name, r.holder) := r.ts + r.ttl]
                 else s.granted)
    case Let(name, holder) =>
      s.(table := Release(s.table, name, holder), granted := s.granted - {(name, holder)})
  }

  /** The holder's last grant is neither released nor expired. */
  ghost predicate Holds(s: System, name: string, holder: string) {
    (name, holder) in s.granted && s.granted[(name, holder)] > s.now
  }

  ghost predicate MutualExclusion(s: System) {
    forall name, h, h' :: Holds(s, name, h) && Holds(s, name, h') ==> h == h'
  }

  /**
   Stamps are not from the future, whoever holds a lease is in the table with it, and every entry
   is a grant not released.
   */
  ghost predicate Inv(s: System) {
    && (forall call :: call in s.pending ==> s.pending[call].ts <= s.now)
    && (forall name :: name in s.table ==>
          && (name, s.table[name].holder) in s.granted
          && s.granted[(name, s.table[name].holder)] == s.table[name].expires)
    && (forall name, h :: Holds(s, name, h) ==> name in s.table && s.table[name] == Lease(h, s.granted[(name, h)]))
  }

  lemma StepKeepsInv(s: System, step: Step)
    requires Inv(s) && Enabled(s, step)
    ensures Inv(Next(s, step))
  {
    var s' := Next(s, step);
    forall name, h | Holds(s', name, h)
      ensures name in s'.table && s'.table[name] == Lease(h, s'.granted[(name, h)])
    {
      if !step.Commit? || (name, h) != (s.pending[step.call].name, s.pending[step.call].holder) {
        assert Holds(s, name, h);
      }
    }
  }

  lemma InvExcludes(s: System)
    requires Inv(s)
    ensures MutualExclusion(s)
  {
  }

  ghost function Exec(start: real, steps: seq<Step>): System
    requires Run(start, steps)
    decreases |steps|, 1
  {
    if steps == [] then System(start, map[], map[], map[])
    else Next(Exec(start, steps[..|steps| - 1]), steps[|steps| - 1])
  }

  ghost predicate Run(start: real, steps: seq<Step>)
    decreases |steps|, 0
  {
    steps != [] ==> Run(start, steps[..|steps| - 1]) && Enabled(Exec(start, steps[..|steps| - 1]), steps[|steps| - 1])
  }

  /** Under any interleaving two holders never have the same lease at the same real time. */
  lemma {:induction false} NeverTwoHolders(start: real, steps: seq<Step>)
    requires Run(start, steps)
    ensures Inv(Exec(start, steps)) && MutualExclusion(Exec(start, steps))
  {
    if steps != [] {
      NeverTwoHolders(start, steps[..|steps| - 1]);
      StepKeepsInv(Exec(start, steps[..|steps| - 1]), steps[|steps| - 1]);
    }
    InvExcludes(Exec(start, steps));
  }

  /** What a pending call does to the table and to the grants if it succeeds. */
  ghost predicate Succeeds(s: System, s': System, r: Request) {
    && s'.table == s.table[r.name := Lease(r.holder, r.ts + r.ttl)]
    && s'.granted == s.granted[(r.name, r.holder) := r.ts + r.ttl]
  }

  /**
   Renewal: a call of the current holder, however stale its clock reading, succeeds, and its grant
   runs from the reading.
   */
  lemma HolderRenews(s: System, call: nat)
    requires Inv(s) && call in s.pending && Holds(s, s.pending[call].name, s.pending[call].holder)
    ensures Succeeds(s, Next(s, Commit(call)), s.pending[call])
  {
  }

  /** A call with a current clock reading is refused exactly if another holder has the lease. */
  lemma RefusedIff(s: System, call: nat)
    requires Inv(s) && call in s.pending && s.pending[call].ts == s.now
    ensures var r, s' := s.pending[call], Next(s, Commit(call));
      if exists h :: h != r.holder && Holds(s, r.name, h) then s'.table == s.table && s'.granted == s.granted
      else Succeeds(s, s', r)
  {
    var r := s.pending[call];
    if h :| h != r.holder && Holds(s, r.name, h) {
      assert s.table[r.name] == Lease(h, s.granted[(r.name, h)]);
    } else if r.name in s.table && s.table[r.name].expires > s.now {
      assert Holds(s, r.name, s.table[r.name].holder);
    }
  }

  /** So it is in every state of every interleaving. */
  lemma ReachableRefusedIff(start: real, steps: seq<Step>, call: nat)
    requires Run(start, steps) && call in Exec(start, steps).pending
    requires Exec(start, steps).pending[call].ts == Exec(start, steps).now
    ensures var s := Exec(start, steps);
      var r, s' := s.pending[call], Next(s, Commit(call));
      if exists h :: h != r.holder && Holds(s, r.name, h) then s'.table == s.table && s'.granted == s.granted
      else Succeeds(s, s', r)
  {
    NeverTwoHolders(start, steps);
    RefusedIff(Exec(start, steps), call);
  }

  /** What a holder lets go is free for a call with a current reading. */
  lemma ReleasedIsFree(s: System, name: string, holder: string, call: nat)
    requires Inv(s) && Holds(s, name, holder) && call in s.pending && s.pending[call].name == name
        && s.pending[call].ts == s.now
    ensures var s' := Next(s, Let(name, holder));
      call in s'.pending && Succeeds(s', Next(s', Commit(call)), s.pending[call])
  {
    var s' := Next(s, Let(name, holder));
    StepKeepsInv(s, Let(name, holder));
    RefusedIff(s', call);
    forall h
      ensures !Holds(s', name, h)
    {
    }
  }

  /**
   Staleness is harmless and the future is not: a lease that is held can be taken by another
   exactly with a stamp at or beyond its expiry, which no honest clock reading can be.
   */
  lemma OnlyFutureStampsSteal(s: System, name: string, holder: string, thief: string, ts: real)
    requires Inv(s) && Holds(s, name, holder) && thief != holder
    ensures Grants(s.table, name, thief, ts) <==> ts >= s.granted[(name, holder)]
    ensures Grants(s.table, name, thief, ts) ==> ts > s.now
  {
    assert s.table[name] == Lease(holder, s.granted[(name, holder)]);
  }

  /**
   A lease nobody holds is not stuck: a request with a current stamp is granted once the entry has
   expired or is gone.
   */
  lemma ExpiredIsAvailable(s: System, name: string, holder: string)
    requires Inv(s) && (name in s.table ==> s.table[name].expires <= s.now)
    ensures Grants(s.table, name, holder, s.now)
    ensures forall h :: !Holds(s, name, h)
  {
    assert forall h :: Holds(s, name, h) ==> s.table[name] == Lease(h, s.granted[(name, h)]);
  }
}
