/**
 Replication of the versioned key/value store: GlobalState (global_control/global_state.py) and
 StateReplicator (global_control/replication.py).

 A remote change carries the version it has at its origin, but applying it raises the local
 version by one only. A change that is several versions ahead therefore takes effect several
 times if it is delivered again.
 */
module Replication {
  import opened Options

  type Key = (string, string)

  datatype Row<V> = Row(value: V, version: nat, updatedAt: real)

  datatype LogRow = LogRow(key: Key, oldVersion: nat, newVersion: nat, ts: real)

  datatype Change<V> = Change(key: Key, value: V, version: int, ts: real)

  /** What a change does on arrival. */
  datatype Verdict = Applied | Conflict | Skipped

  function Version<V>(rows: map<Key, Row<V>>, k: Key): nat {
    if k in rows then rows[k].version else 0
  }

  /** `put`: the version goes up by one, whatever it was. */
  function Put<V>(rows: map<Key, Row<V>>, k: Key, value: V, now: real): map<Key, Row<V>> {
    rows[k := Row(value, Version(rows, k) + 1, now)]
  }

  /** Of two values, the more recently written one, the remote one in a tie. */
  function Resolve<V>(local: Row<V>, remote: Change<V>): V {
    if remote.ts >= local.updatedAt then remote.value else local.value
  }

  function Judge<V>(rows: map<Key, Row<V>>, c: Change<V>): Verdict {
    var v := Version(rows, c.key);
    if c.version <= v then Skipped
    else if c.key in rows && v > 0 && c.version != v + 1 then Conflict
    else Applied
  }

  function Deliver<V>(rows: map<Key, Row<V>>, c: Change<V>, now: real): map<Key, Row<V>> {
    match Judge(rows, c)
    case Skipped => rows
    case Conflict => Put(rows, c.key, Resolve(rows[c.key], c), now)
    case Applied => Put(rows, c.key, c.value, now)
  }

  ghost function DeliverAll<V>(rows: map<Key, Row<V>>, changes: seq<Change<V>>, clock: seq<real>): map<Key, Row<V>>
    requires |changes| == |clock|
  {
    if changes == [] then rows
    else Deliver(DeliverAll(rows, changes[..|changes| - 1], clock[..|clock| - 1]), changes[|changes| - 1],
        clock[|clock| - 1])
  }

  ghost function Verdicts<V>(rows: map<Key, Row<V>>, changes: seq<Change<V>>, clock: seq<real>): seq<Verdict>
    requires |changes| == |clock|
  {
    if changes == [] then []
    else
      Verdicts(rows, changes[..|changes| - 1], clock[..|clock| - 1])
      + [Judge(DeliverAll(rows, changes[..|changes| - 1], clock[..|clock| - 1]), changes[|changes| - 1])]
  }

  ghost function Count(vs: seq<Verdict>, v: Verdict): nat {
    if vs == [] then 0 else Count(vs[..|vs| - 1], v) + if vs[|vs| - 1] == v then 1 else 0
  }

  /** How many rows of the log are about a key. */
  ghost function Logged(log: seq<LogRow>, k: Key): nat {
    if log == [] then 0 else Logged(log[..|log| - 1], k) + if log[|log| - 1].key == k then 1 else 0
  }

  /** A log row leads from the version its key had reached to the next. */
  ghost predicate NextInLog(log: seq<LogRow>, i: int)
    requires 0 <= i < |log|
  {
    log[i].oldVersion == Logged(log[..i], log[i].key) && log[i].newVersion == log[i].oldVersion + 1
  }

  ghost predicate Matches<V>(rows: map<Key, Row<V>>, log: seq<LogRow>, k: Key) {
    (k in rows ==> rows[k].version >= 1) && Version(rows, k) == Logged(log, k)
  }

  /** The log tells every step of every key's version, without a gap. */
  ghost predicate TellsAll<V>(rows: map<Key, Row<V>>, log: seq<LogRow>) {
    && (forall k {:trigger Matches(rows, log, k)} :: Matches(rows, log, k))
    && (forall i {:trigger NextInLog(log, i)} :: 0 <= i < |log| ==> NextInLog(log, i))
  }

  lemma PutKeepsLog<V>(rows: map<Key, Row<V>>, log: seq<LogRow>, k: Key, value: V, now: real)
    requires TellsAll(rows, log)
    ensures TellsAll(Put(rows, k, value, now), log + [LogRow(k, Version(rows, k), Version(rows, k) + 1, now)])
  {
    var more := log + [LogRow(k, Version(rows, k), Version(rows, k) + 1, now)];
    var rows' := Put(rows, k, value, now);
    assert more[..|log|] == log;
    forall j
      ensures Matches(rows', more, j)
    {
      assert Matches(rows, log, j);
    }
    forall i | 0 <= i < |more|
      ensures NextInLog(more, i)
    {
      assert Matches(rows, log, k);
      if i < |log| {
        assert NextInLog(log, i) && more[..i] == log[..i];
      }
    }
  }

  /**
   What one change does to the row of its key: nothing if it is not newer by version; otherwise
   the version goes up by one, and the key holds the remote value, unless the change is more than
   one version ahead of a row that was written more recently, which keeps its own.
   */
  ghost predicate Outcome<V>(rows: map<Key, Row<V>>, rows': map<Key, Row<V>>, c: Change<V>, now: real) {
    if Takes(rows, c) then rows' == rows[c.key := Row(c.value, Version(rows, c.key) + 1, now)]
    else if c.version <= Version(rows, c.key) || c.key !in rows then rows' == rows
    else rows' == rows[c.key := Row(rows[c.key].value, rows[c.key].version + 1, now)]
  }

  /** The key comes to hold the value of the change. */
  ghost predicate Takes<V>(rows: map<Key, Row<V>>, c: Change<V>) {
    if c.key !in rows then c.version > 0
    else c.version > rows[c.key].version && (c.version == rows[c.key].version + 1 || c.ts >= rows[c.key].updatedAt)
  }

  lemma DeliverOutcome<V>(rows: map<Key, Row<V>>, c: Change<V>, now: real)
    requires c.key in rows ==> rows[c.key].version >= 1
    ensures Outcome(rows, Deliver(rows, c, now), c, now)
  {
  }

  /** On a conflict the key holds the remote value if it is at least as recent, and otherwise keeps its own. */
  lemma ConflictKeepsNewer<V>(rows: map<Key, Row<V>>, c: Change<V>, now: real)
    requires c.key in rows && rows[c.key].version >= 1 && c.version > rows[c.key].version + 1
    ensures var after := Deliver(rows, c, now);
      && c.key in after && after[c.key].version == rows[c.key].version + 1 && after[c.key].updatedAt == now
      && after[c.key].value == if c.ts >= rows[c.key].updatedAt then c.value else rows[c.key].value
  {
    DeliverOutcome(rows, c, now);
  }

  class GlobalState<V(==)> {
    var rows: map<Key, Row<V>>
    var changelog: seq<LogRow>

    ghost predicate Valid()
      reads this
    {
      TellsAll(rows, changelog)
    }

    constructor ()
      ensures Valid() && rows == map[] && changelog == []
    {
      rows, changelog := map[], [];
    }

    method PutValue(k: Key, value: V, now: real) returns (version: nat)
      requires Valid()
      modifies this
      ensures Valid() && version == Version(old(rows), k) + 1
      ensures rows == Put(old(rows), k, value, now) == old(rows)[k := Row(value, version, now)]
      ensures changelog == old(changelog) + [LogRow(k, version - 1, version, now)]
    {
      PutKeepsLog(rows, changelog, k, value, now);
      var oldVersion := if k in rows then rows[k].version else 0;
      version := oldVersion + 1;
      rows := rows[k := Row(value, version, now)];
      changelog := changelog + [LogRow(k, oldVersion, version, now)];
    }

    method GetRow(k: Key) returns (row: Option<Row<V>>)
      ensures row.None? <==> k !in rows
      ensures row.Some? ==> row.value == rows[k]
    {
      row := if k in rows then Some(rows[k]) else None;
    }
  }

  class StateReplicator<V(==)> {
    const state: GlobalState<V>
    var pending: seq<Change<V>>
    var conflictCount: nat
    var syncCount: nat
    ghost var enqueued: seq<Change<V>>
    ghost var delivered: seq<Change<V>>

    /** Nothing enqueued is lost or reordered: it has been delivered or is pending. */
    ghost predicate Conserves()
      reads this
    {
      enqueued == delivered + pending
    }

    constructor (state: GlobalState<V>)
      ensures this.state == state && Conserves() && enqueued == []
    {
      this.state := state;
      pending, conflictCount, syncCount, enqueued, delivered := [], 0, 0, [], [];
    }

    method ApplyRemoteChanges(changes: seq<Change<V>>, clock: seq<real>)
        returns (taken: nat, conflicts: nat, skipped: nat)
      requires |changes| == |clock| && state.Valid()
      modifies this`conflictCount, state
      ensures state.Valid()
      ensures state.rows == DeliverAll(old(state.rows), changes, clock)
      ensures taken == Count(Verdicts(old(state.rows), changes, clock), Applied)
      ensures conflicts == Count(Verdicts(old(state.rows), changes, clock), Conflict)
      ensures skipped == Count(Verdicts(old(state.rows), changes, clock), Skipped)
      ensures taken + conflicts + skipped == |changes| && conflictCount == old(conflictCount) + conflicts
      ensures old(state.changelog) <= state.changelog && |state.changelog| == |old(state.changelog)| + taken + conflicts
    {
      taken, conflicts, skipped := 0, 0, 0;
      ghost var rows0, verdicts := state.rows, [];
      for i := 0 to |changes|
        invariant state.Valid() && state.rows == DeliverAll(rows0, changes[..i], clock[..i])
        invariant verdicts == Verdicts(rows0, changes[..i], clock[..i])
        invariant taken == Count(verdicts, Applied) && conflicts == Count(verdicts, Conflict)
            && skipped == Count(verdicts, Skipped)
        invariant old(state.changelog) <= state.changelog
            && |state.changelog| == |old(state.changelog)| + taken + conflicts
        invariant taken + conflicts + skipped == i && conflictCount == old(conflictCount) + conflicts
      {
        OneMoreDelivery(rows0, changes, clock, i);
        ghost var judged := Judge(state.rows, changes[i]);
        CountOneMore(verdicts, judged, Applied);
        CountOneMore(verdicts, judged, Conflict);
        CountOneMore(verdicts, judged, Skipped);
        verdicts := verdicts + [judged];
        var verdict := ApplyOne(changes[i], clock[i]);
        match verdict {
          case Skipped => skipped := skipped + 1;
          case Conflict => conflicts := conflicts + 1;
          case Applied => taken := taken + 1;
        }
      }
      assert changes[..|changes|] == changes && clock[..|clock|] == clock;
    }

    /** The body of the loop, for one change. */
    method ApplyOne(c: Change<V>, now: real) returns (verdict: Verdict)
      requires state.Valid()
      modifies this`conflictCount, state
      ensures state.Valid() && verdict == Judge(old(state.rows), c)
      ensures state.rows == Deliver(old(state.rows), c, now)
      ensures Outcome(old(state.rows), state.rows, c, now)
      ensures verdict == Skipped <==> c.version <= Version(old(state.rows), c.key)
      ensures verdict == Conflict <==>
        c.key in old(state.rows) && c.version > old(state.rows)[c.key].version + 1
      ensures conflictCount == old(conflictCount) + if verdict == Conflict then 1 else 0
      ensures old(state.changelog) <= state.changelog
      ensures |state.changelog| == |old(state.changelog)| + if verdict == Skipped then 0 else 1
    {
      assert Matches(state.rows, state.changelog, c.key);
      DeliverOutcome(state.rows, c, now);
      var row := state.GetRow(c.key);
      var localVersion := if row.Some? then row.value.version else 0;
      if c.version <= localVersion {
        return Skipped;
      }
      if row.Some? && localVersion > 0 && c.version != localVersion + 1 {
        var _ := state.PutValue(c.key, Resolve(row.value, c), now);
        conflictCount := conflictCount + 1;
        return Conflict;
      }
      var _ := state.PutValue(c.key, c.value, now);
      return Applied;
    }

    method EnqueueChange(c: Change<V>)
      requires Conserves()
      modifies this`pending, this`enqueued
      ensures Conserves() && enqueued == old(enqueued) + [c]
    {
      pending := pending + [c];
      enqueued := enqueued + [c];
    }

    /**
     One sync. `callback` says whether one is installed, `ok` whether it returned, `arrivals` are
     the changes enqueued while it ran. Without a callback the pending batch is discarded, so
     exactly then, and if there was a batch, is something lost.
     */
    method SyncTick(callback: bool, ok: bool, arrivals: seq<Change<V>>)
      requires Conserves()
      modifies this`pending, this`syncCount, this`enqueued, this`delivered
      ensures Conserves() <==> callback || old(pending) == []
      ensures enqueued == old(enqueued) + arrivals
      ensures delivered == if callback && ok then old(delivered) + old(pending) else old(delivered)
      ensures pending == if callback && !ok then old(pending) + arrivals else arrivals
      ensures syncCount == old(syncCount) + if callback && ok && old(pending) != [] then 1 else 0
    {
      var batch := pending;
      pending := [];
      pending := pending + arrivals;
      enqueued := enqueued + arrivals;
      if batch != [] && callback {
        if ok {
          delivered := delivered + batch;
          syncCount := syncCount + 1;
        } else {
          pending := batch + pending;
        }
      }
      if !callback && batch != [] {
        assert |enqueued| != |delivered + pending|;
      }
    }
  }

  lemma OneMoreDelivery<V>(rows: map<Key, Row<V>>, changes: seq<Change<V>>, clock: seq<real>, i: nat)
    requires |changes| == |clock| && i < |changes|
    ensures DeliverAll(rows, changes[..i + 1], clock[..i + 1]) == Deliver(DeliverAll(rows, changes[..i], clock[..i]),
        changes[i], clock[i])
    ensures Verdicts(rows, changes[..i + 1], clock[..i + 1])
            == Verdicts(rows, changes[..i], clock[..i])
                + [Judge(DeliverAll(rows, changes[..i], clock[..i]), changes[i])]
  {
    assert changes[..i + 1][..i] == changes[..i] && clock[..i + 1][..i] == clock[..i];
  }

  lemma CountOneMore(vs: seq<Verdict>, j: Verdict, v: Verdict)
    ensures Count(vs + [j], v) == Count(vs, v) + if j == v then 1 else 0
  {
    assert (vs + [j])[..|vs|] == vs;
  }

  // ----- Redelivery ------------------------------------------------------------------------------

  /** Changes to other keys do not matter to a key. */
  lemma OtherKeysDoNotMatter<V>(rows: map<Key, Row<V>>, c: Change<V>, now: real, k: Key)
    requires k != c.key
    ensures k in Deliver(rows, c, now) <==> k in rows
    ensures k in rows ==> Deliver(rows, c, now)[k] == rows[k]
  {
  }

  /** How many of the changes are for the key of `c`. */
  ghost function CopiesOf<V>(changes: seq<Change<V>>, k: Key): nat {
    if changes == [] then 0 else CopiesOf(changes[..|changes| - 1], k) + if changes[|changes| - 1].key == k then 1
        else 0
  }

  ghost function Min(a: nat, b: nat): nat {
    if a < b then a else b
  }

  /**
   Redelivery is absorbed. Let a key be at version v and let one change of version k > v be
   delivered n times, among any other changes to other keys. It takes effect min(n, k - v) times,
   each time raising the version by one; from the (k - v)-th delivery on the key holds the remote
   value at version k, whatever conflict resolution chose on the way.
   */
  lemma {:induction false} RedeliveryIsAbsorbed<V>(rows: map<Key, Row<V>>, c: Change<V>, changes: seq<Change<V>>,
      clock: seq<real>)
    requires |changes| == |clock| && Version(rows, c.key) < c.version
    requires forall i :: 0 <= i < |changes| && changes[i].key == c.key ==> changes[i] == c
    ensures var v, n, after := Version(rows, c.key), CopiesOf(changes, c.key), DeliverAll(rows, changes, clock);
      && Version(after, c.key) == v + Min(n, c.version - v)
      && (n >= c.version - v ==> c.key in after && after[c.key].value == c.value && after[c.key].version == c.version)
  {
    if changes != [] {
      var most, times := changes[..|changes| - 1], clock[..|clock| - 1];
      RedeliveryIsAbsorbed(rows, c, most, times);
      var last := changes[|changes| - 1];
      if last.key != c.key {
        OtherKeysDoNotMatter(DeliverAll(rows, most, times), last, clock[|clock| - 1], c.key);
      }
    }
  }

  /** From then on the change is skipped. */
  lemma AbsorbedIsSkipped<V>(rows: map<Key, Row<V>>, c: Change<V>, changes: seq<Change<V>>, clock: seq<real>)
    requires |changes| == |clock| && Version(rows, c.key) < c.version
    requires forall i :: 0 <= i < |changes| && changes[i].key == c.key ==> changes[i] == c
    ensures Judge(DeliverAll(rows, changes, clock), c) == Skipped <==>
        CopiesOf(changes, c.key) >= c.version - Version(rows, c.key)
  {
    RedeliveryIsAbsorbed(rows, c, changes, clock);
  }

  /** Whatever arrives, a version never goes down and never passes the highest version offered. */
  lemma {:induction false} VersionsStayInRange<V>(rows: map<Key, Row<V>>, changes: seq<Change<V>>, clock: seq<real>,
      k: Key, top: nat)
    requires |changes| == |clock| && Version(rows, k) <= top
    requires forall i :: 0 <= i < |changes| && changes[i].key == k ==> changes[i].version <= top
    ensures Version(rows, k) <= Version(DeliverAll(rows, changes, clock), k) <= top
  {
    if changes != [] {
      VersionsStayInRange(rows, changes[..|changes| - 1], clock[..|clock| - 1], k, top);
    }
  }

  lemma {:induction false} VersionsStayPositive<V>(rows: map<Key, Row<V>>, changes: seq<Change<V>>, clock: seq<real>)
    requires |changes| == |clock| && forall k :: k in rows ==> rows[k].version >= 1
    ensures forall k :: k in DeliverAll(rows, changes, clock) ==> DeliverAll(rows, changes, clock)[k].version >= 1
  {
    if changes != [] {
      VersionsStayPositive(rows, changes[..|changes| - 1], clock[..|clock| - 1]);
    }
  }

  /** The i-th change of a run is one for the key that takes effect with its value. */
  ghost predicate TakesAt<V>(rows: map<Key, Row<V>>, changes: seq<Change<V>>, clock: seq<real>, i: int, k: Key)
    requires |changes| == |clock| && 0 <= i < |changes|
  {
    changes[i].key == k && Takes(DeliverAll(rows, changes[..i], clock[..i]), changes[i])
  }

  /** Over a run of deliveries, a key holds the value of the last change that took, or its old one if none did. */
  lemma {:induction false} LastTakenWins<V>(rows: map<Key, Row<V>>, changes: seq<Change<V>>, clock: seq<real>, k: Key)
      returns (last: int)
    requires |changes| == |clock| && forall j :: j in rows ==> rows[j].version >= 1
    ensures -1 <= last < |changes|
    ensures last >= 0 ==> TakesAt(rows, changes, clock, last, k)
    ensures forall i :: last < i < |changes| ==> !TakesAt(rows, changes, clock, i, k)
    ensures last >= 0 ==>
      k in DeliverAll(rows, changes, clock) && DeliverAll(rows, changes, clock)[k].value == changes[last].value
    ensures last < 0 ==> (k in DeliverAll(rows, changes, clock) <==> k in rows)
    ensures last < 0 && k in rows ==> DeliverAll(rows, changes, clock)[k].value == rows[k].value
  {
    if changes == [] {
      last := -1;
    } else {
      var n := |changes| - 1;
      last := LastTakenWins(rows, changes[..n], clock[..n], k);
      forall i | 0 <= i < n
        ensures TakesAt(rows, changes, clock, i, k) <==> TakesAt(rows, changes[..n], clock[..n], i, k)
      {
        assert changes[..n][..i] == changes[..i] && clock[..n][..i] == clock[..i];
      }
      LastDelivery(rows, changes, clock, k);
      if TakesAt(rows, changes, clock, n, k) {
        last := n;
      }
    }
  }

  /** What the last change of a run does to a key. */
  lemma LastDelivery<V>(rows: map<Key, Row<V>>, changes: seq<Change<V>>, clock: seq<real>, k: Key)
    requires |changes| == |clock| && changes != [] && forall j :: j in rows ==> rows[j].version >= 1
    ensures var n := |changes| - 1;
      var before, after := DeliverAll(rows, changes[..n], clock[..n]), DeliverAll(rows, changes, clock);
      if TakesAt(rows, changes, clock, n, k) then k in after && after[k].value == changes[n].value
      else (k in after <==> k in before) && (k in before ==> after[k].value == before[k].value)
  {
    var n := |changes| - 1;
    var before := DeliverAll(rows, changes[..n], clock[..n]);
    VersionsStayPositive(rows, changes[..n], clock[..n]);
    DeliverOutcome(before, changes[n], clock[n]);
  }
}
