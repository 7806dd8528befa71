/**
 The edge runtime (edge/edge_runtime.py): a bounded in-memory layer over a result table, and an
 outbox that is flushed in batches while the node is connected.
 */
module EdgeRuntimes {
  import opened Collections
  import opened Options

  datatype Key = Key(name: string)

  /** A result: a JSON object. */
  type Data = map<string, string>

  datatype Cached = Cached(data: Data, accessedAt: real)

  datatype NodeState = Online | Offline | Syncing

  datatype OutRow = OutRow(id: nat, payload: string, synced: bool)

  const BATCH := 100

  // ----- The outbox ------------------------------------------------------------------------------

  /** Row ids increase, and exactly the first `sent` rows are marked as synced. */
  ghost predicate Ordered(outbox: seq<OutRow>, sent: nat) {
    && sent <= |outbox|
    && (forall i, j :: 0 <= i < j < |outbox| ==> outbox[i].id < outbox[j].id)
    && (forall i :: 0 <= i < |outbox| ==> (outbox[i].synced <==> i < sent))
  }

  function Unsynced(rows: seq<OutRow>): seq<OutRow> {
    if rows == [] then [] else (if rows[0].synced then [] else [rows[0]]) + Unsynced(rows[1..])
  }

  /** The rows a flush selects: unsynced, by id, at most a batch. */
  function Selected(rows: seq<OutRow>): seq<OutRow> {
    var all := Unsynced(rows);
    if |all| <= BATCH then all else all[..BATCH]
  }

  function Payloads(rows: seq<OutRow>): seq<string> {
    seq(|rows|, i requires 0 <= i < |rows| => rows[i].payload)
  }

  /** `UPDATE ... SET synced = 1 WHERE id = ?`. */
  function Mark(rows: seq<OutRow>, id: nat): seq<OutRow> {
    seq(|rows|, i requires 0 <= i < |rows| => if rows[i].id == id then rows[i].(synced := true) else rows[i])
  }

  lemma OrderedRest(rows: seq<OutRow>, sent: nat)
    requires Ordered(rows, sent) && rows != []
    ensures Ordered(rows[1..], if sent == 0 then 0 else sent - 1) && (rows[0].synced <==> sent > 0)
  {
    var rest := rows[1..];
    assert forall i :: 0 <= i < |rest| ==> rest[i] == rows[i + 1];
  }

  lemma {:induction false} UnsyncedIsSuffix(rows: seq<OutRow>, sent: nat)
    requires Ordered(rows, sent)
    ensures Unsynced(rows) == rows[sent..]
  {
    if rows != [] {
      var rest := rows[1..];
      OrderedRest(rows, sent);
      if sent == 0 {
        UnsyncedIsSuffix(rest, 0);
        assert rows[0..] == [rows[0]] + rest;
      } else {
        UnsyncedIsSuffix(rest, sent - 1);
        assert rows[sent..] == rest[sent - 1..];
      }
    }
  }

  lemma SelectedIsNext(rows: seq<OutRow>, sent: nat)
    requires Ordered(rows, sent)
    ensures var n := |Selected(rows)|;
      && sent + n <= |rows| && n <= 100 && Selected(rows) == rows[sent..sent + n]
      && (n == 0 <==> sent == |rows|) && (n < 100 ==> sent + n == |rows|)
  {
    UnsyncedIsSuffix(rows, sent);
  }

  lemma SentSoFar(rows: seq<OutRow>, sent: nat, n: nat)
    requires sent + n <= |rows|
    ensures Payloads(rows[sent..sent + n]) == Payloads(rows)[sent..sent + n]
    ensures Payloads(rows)[..sent] + Payloads(rows)[sent..sent + n] == Payloads(rows)[..sent + n]
  {
  }

  lemma MarkNext(rows: seq<OutRow>, sent: nat)
    requires Ordered(rows, sent) && sent < |rows|
    ensures Ordered(Mark(rows, rows[sent].id), sent + 1)
    ensures Payloads(Mark(rows, rows[sent].id)) == Payloads(rows)
    ensures forall i :: 0 <= i < |rows| ==> Mark(rows, rows[sent].id)[i].id == rows[i].id
  {
  }

  /** Marks the selected rows one after the other. */
  method MarkAll(rows: seq<OutRow>, batch: seq<OutRow>, ghost sent: nat) returns (marked: seq<OutRow>)
    requires Ordered(rows, sent) && sent + |batch| <= |rows| && batch == rows[sent..sent + |batch|]
    ensures Ordered(marked, sent + |batch|) && |marked| == |rows| && Payloads(marked) == Payloads(rows)
    ensures forall i :: 0 <= i < |rows| ==> marked[i].id == rows[i].id
  {
    marked := rows;
    for i := 0 to |batch|
      invariant Ordered(marked, sent + i) && |marked| == |rows| && Payloads(marked) == Payloads(rows)
      invariant forall j :: 0 <= j < |rows| ==> marked[j].id == rows[j].id
    {
      assert batch[i] == rows[sent + i];
      MarkNext(marked, sent + i);
      marked := Mark(marked, batch[i].id);
    }
  }

  /** One unsynced row with a greater id. */
  method Append(rows: seq<OutRow>, payload: string, ghost sent: nat) returns (more: seq<OutRow>)
    requires Ordered(rows, sent)
    ensures Ordered(more, sent) && |more| == |rows| + 1 && rows < more
    ensures Payloads(more) == Payloads(rows) + [payload]
  {
    var id: nat :| rows == [] || id > rows[|rows| - 1].id;
    more := rows + [OutRow(id, payload, false)];
    assert Payloads(more) == Payloads(rows) + [payload];
  }

  /** Rows that are stored while a batch is under way. */
  method AppendAll(rows: seq<OutRow>, payloads: seq<string>, ghost sent: nat) returns (more: seq<OutRow>)
    requires Ordered(rows, sent)
    ensures Ordered(more, sent) && rows <= more && Payloads(more) == Payloads(rows) + payloads
  {
    more := rows;
    for i := 0 to |payloads|
      invariant Ordered(more, sent) && rows <= more && Payloads(more) == Payloads(rows) + payloads[..i]
    {
      more := Append(more, payloads[i], sent);
      assert payloads[..i + 1] == payloads[..i] + [payloads[i]];
    }
    assert payloads[..|payloads|] == payloads;
  }

  /** What is delivered next extends what has been delivered. */
  lemma DeliveredSoFar(before: seq<string>, after: seq<string>, from: nat, sent: nat, n: nat)
    requires before <= after && from <= sent && sent + n <= |before|
    ensures before[from..sent] == after[from..sent] && before[sent..sent + n] == after[sent..sent + n]
    ensures after[from..sent] + before[sent..sent + n] == after[from..sent + n]
    ensures n > 0 ==> after[from..sent] != after[from..sent + n]
  {
    if n > 0 {
      assert |after[from..sent]| != |after[from..sent + n]|;
    }
  }

  /** Marks a batch; a syncing node with nothing unsynced left comes online. */
  method MarkAndSettle(rows: seq<OutRow>, batch: seq<OutRow>, state0: NodeState, ghost sent: nat)
      returns (marked: seq<OutRow>, state: NodeState)
    requires Ordered(rows, sent) && sent + |batch| <= |rows| && batch == rows[sent..sent + |batch|]
    ensures Ordered(marked, sent + |batch|) && |marked| == |rows| && Payloads(marked) == Payloads(rows)
    ensures state == if state0 == Syncing && sent + |batch| == |rows| then Online else state0
  {
    marked := MarkAll(rows, batch, sent);
    state := state0;
    if state == Syncing {
      UnsyncedIsSuffix(marked, sent + |batch|);
      if Unsynced(marked) == [] {
        state := Online;
      }
    }
  }

  /** The flush on values; see `EdgeRuntime.FlushOutbox`. */
  method Flush(rows0: seq<OutRow>, state0: NodeState, callback: bool, ok: bool, arrivals: seq<string>,
               ghost sent0: nat, ghost delivered0: seq<string>)
      returns (raised: bool, rows: seq<OutRow>, state: NodeState, ghost sent: nat, ghost delivered: seq<string>)
    requires Ordered(rows0, sent0)
    ensures Ordered(rows, sent) && sent0 <= sent
    ensures raised <==> callback && !ok && sent0 < |rows0|
    ensures Payloads(rows) == Payloads(rows0) + if sent0 < |rows0| then arrivals else []
    ensures sent == if raised then sent0 else if sent0 + 100 < |rows0| then sent0 + 100 else |rows0|
    ensures delivered == delivered0 + if callback then Payloads(rows0)[sent0..sent] else []
    ensures state == if state0 == Syncing && !raised && sent == |rows| then Online else state0
  {
    var batch := Selected(rows0);
    SelectedIsNext(rows0, sent0);
    raised, rows, state, sent, delivered := false, rows0, state0, sent0, delivered0;
    if batch == [] {
      assert Payloads(rows0)[sent0..sent0] == [];
      if state == Syncing {
        state := Online;
      }
      return;
    }
    SentSoFar(rows0, sent0, |batch|);
    rows := AppendAll(rows0, arrivals, sent0);
    if callback && !ok {
      raised := true;
      assert Payloads(rows0)[sent0..sent0] == [];
      return;
    }
    if callback {
      delivered := delivered + Payloads(batch);
    }
    rows, state := MarkAndSettle(rows, batch, state, sent0);
    sent := sent0 + |batch|;
  }

  // ----- The in-memory layer ---------------------------------------------------------------------

  /** Whatever the in-memory layer holds is what the table holds. */
  ghost predicate Mirrors(local: map<Key, Cached>, db: map<Key, Data>) {
    forall k :: k in local ==> k in db && local[k].data == db[k]
  }

  lemma MirrorsMore(local: map<Key, Cached>, db: map<Key, Data>, k: Key, data: Data, now: real)
    requires Mirrors(local, db)
    ensures Mirrors(local[k := Cached(data, now)], db[k := data])
  {
  }

  /** One oldest entry goes if there are too many. */
  ghost predicate TrimmedTo(all: map<Key, Cached>, kept: map<Key, Cached>, maxEntries: int) {
    if |all| <= maxEntries then kept == all
    else exists k :: k in all && kept == all - {k} && forall j :: j in all ==> all[k].accessedAt <= all[j].accessedAt
  }

  /** The write to the in-memory layer. */
  method Keep(all: map<Key, Cached>, maxEntries: int) returns (kept: map<Key, Cached>)
    requires all != map[]
    ensures TrimmedTo(all, kept, maxEntries) && kept.Keys <= all.Keys && forall k :: k in kept ==> kept[k] == all[k]
  {
    kept := all;
    if |all| > maxEntries {
      var oldest := LeastRanked(all, (c: Cached) => c.accessedAt);
      kept := all - {oldest};
    }
  }

  class EdgeRuntime {
    const maxEntries: int
    const callback: bool
    var local: map<Key, Cached>
    var db: map<Key, Data>
    var outbox: seq<OutRow>
    var state: NodeState
    var connected: bool
    var hits: nat
    var misses: nat
    ghost var stored: map<Key, Data>
    ghost var sent: nat
    ghost const from: nat
    ghost var delivered: seq<string>

    /**
     The two layers together are the plain map of the last stored results; and if there is a
     callback, what this runtime has delivered is exactly what it has marked, the rows from `from`
     on, in order, each row once.
     */
    ghost predicate Valid()
      reads this
    {
      && db == stored && Mirrors(local, db)
      && Ordered(outbox, sent)
      && from <= sent && (callback ==> delivered == Payloads(outbox)[from..sent])
    }

    /**
     Opens the tables that earlier runtimes have left, which may be empty: the in-memory layer
     fills up again from the result table, and delivery goes on with the first unmarked row.
     */
    constructor (maxEntries: int, callback: bool, dbRows: map<Key, Data>, outboxRows: seq<OutRow>, ghost marked: nat)
      requires Ordered(outboxRows, marked)
      ensures Valid() && stored == dbRows && local == map[] && outbox == outboxRows
      ensures from == sent == marked && delivered == [] && state == Online && connected
      ensures this.maxEntries == maxEntries && this.callback == callback
    {
      this.maxEntries, this.callback := maxEntries, callback;
      local, db, outbox, state, connected, hits, misses := map[], dbRows, outboxRows, Online, true, 0, 0;
      stored, sent, from, delivered := dbRows, marked, marked, [];
    }

    method GetCache(k: Key, now: real) returns (data: Option<Data>)
      requires Valid()
      modifies this`local
      ensures Valid() && data == if k in stored then Some(stored[k]) else None
      ensures local == if k in stored then old(local)[k := Cached(stored[k], now)] else old(local)
    {
      if k in local {
        local := local[k := local[k].(accessedAt := now)];
        return Some(local[k].data);
      }
      if k in db {
        local := local[k := Cached(db[k], now)];
        return Some(db[k]);
      }
      return None;
    }

    /** An empty result counts as a miss, as in the source. */
    method HandleRequest(k: Key, now: real) returns (data: Option<Data>)
      requires Valid()
      modifies this`local, this`hits, this`misses
      ensures Valid()
      ensures data == if k in stored && stored[k] != map[] then Some(stored[k]) else None
      ensures hits + misses == old(hits) + old(misses) + 1 && (hits == old(hits) + 1 <==> data.Some?)
    {
      var cached := GetCache(k, now);
      if cached.Some? && cached.value != map[] {
        hits := hits + 1;
        return cached;
      }
      misses := misses + 1;
      return None;
    }

    /** The in-memory layer drops its oldest entry when it has become too large; that may be the new one. */
    method PutCache(k: Key, data: Data, now: real)
      requires Valid()
      modifies this`local, this`db, this`stored
      ensures Valid() && stored == old(stored)[k := data]
      ensures TrimmedTo(old(local)[k := Cached(data, now)], local, maxEntries)
    {
      var all := local[k := Cached(data, now)];
      assert k in all;
      MirrorsMore(local, db, k, data, now);
      local := Keep(all, maxEntries);
      db := db[k := data];
      stored := stored[k := data];
    }

    method EnqueueOutbox(payload: string)
      requires Valid()
      modifies this`outbox
      ensures Valid() && Payloads(outbox) == old(Payloads(outbox)) + [payload] && |outbox| == |old(outbox)| + 1
    {
      outbox := Append(outbox, payload, sent);
    }

    method StoreResult(k: Key, data: Data, payload: string, now: real)
      requires Valid()
      modifies this
      ensures Valid() && stored == old(stored)[k := data]
      ensures Payloads(outbox) == old(Payloads(outbox)) + [payload]
    {
      PutCache(k, data, now);
      EnqueueOutbox(payload);
    }

    method SetConnected(now: bool)
      requires Valid()
      modifies this`connected, this`state
      ensures Valid() && connected == now
      ensures state == if now == old(connected) then old(state) else if now then Syncing else Offline
    {
      if now && !connected {
        state := Syncing;
      } else if !now && connected {
        state := Offline;
      }
      connected := now;
    }

    /**
     One flush. `arrivals` are the payloads stored while the batch is under way. If the callback
     raises, nothing is marked; otherwise the next rows in id order are delivered once and marked.
     The node comes online only with nothing left to send. Without a callback rows are marked all
     the same: if the record of deliveries was complete, it stays so exactly if there is a callback
     or nothing was left to send.
     */
    method FlushOutbox(ok: bool, arrivals: seq<string>) returns (raised: bool)
      requires Valid()
      modifies this`outbox, this`state, this`sent, this`delivered
      ensures Valid()
      ensures raised <==> callback && !ok && old(sent) < |old(outbox)|
      ensures Payloads(outbox) == old(Payloads(outbox)) + if old(sent) < |old(outbox)| then arrivals else []
      ensures sent == if raised then old(sent) else if old(sent) + 100 < |old(outbox)| then old(sent) + 100
          else |old(outbox)|
      ensures delivered == old(delivered) + if callback then Payloads(outbox)[old(sent)..sent] else []
      ensures old(delivered == Payloads(outbox)[from..sent]) ==>
        (delivered == Payloads(outbox)[from..sent] <==> callback || old(sent) == |old(outbox)|)
      ensures state == if old(state) == Syncing && !raised && sent == |outbox| then Online else old(state)
    {
      ghost var before, sent0 := Payloads(outbox), sent;
      raised, outbox, state, sent, delivered := Flush(outbox, state, callback, ok, arrivals, sent, delivered);
      DeliveredSoFar(before, Payloads(outbox), from, sent0, sent - sent0);
    }
  }
}
