/**
 The mesh event log (distributed_queue/event_log.py): rows numbered by the database, one row per
 event id, read by paging and merged with the logs of other clusters.

 The database's row numbers are only taken to increase; gaps are allowed.
 */
module EventLogs {
  datatype Event = Event(id: string, ts: real, kind: string, payload: string, source: string)

  datatype Row = Row(seqNo: nat, event: Event)

  ghost predicate Numbered(log: seq<Row>) {
    && (forall i :: 0 <= i < |log| ==> log[i].seqNo > 0)
    && (forall i, j :: 0 <= i < j < |log| ==> log[i].seqNo < log[j].seqNo)
  }

  ghost function Events(log: seq<Row>): seq<Event> {
    seq(|log|, i requires 0 <= i < |log| => log[i].event)
  }

  ghost predicate HasId(events: seq<Event>, id: string) {
    exists i :: 0 <= i < |events| && events[i].id == id
  }

  /** Ids are unique and never empty. */
  ghost predicate UniqueIds(events: seq<Event>) {
    && (forall i :: 0 <= i < |events| ==> events[i].id != "")
    && (forall i, j :: 0 <= i < j < |events| ==> events[i].id != events[j].id)
  }

  // ----- Writing ---------------------------------------------------------------------------------

  /** An event without an id, or with an id that is there already, is passed over. */
  ghost function Added(events: seq<Event>, e: Event): seq<Event> {
    if e.id == "" || HasId(events, e.id) then events else events + [e]
  }

  ghost function Merged(events: seq<Event>, incoming: seq<Event>): seq<Event> {
    if incoming == [] then events else Added(Merged(events, incoming[..|incoming| - 1]), incoming[|incoming| - 1])
  }

  // ----- Reading ---------------------------------------------------------------------------------

  /** The rows with a number above `since`, in order. */
  function Newer(log: seq<Row>, since: int): seq<Row> {
    if log == [] then []
    else (if log[0].seqNo > since then [log[0]] else []) + Newer(log[1..], since)
  }

  /** `LIMIT` in SQLite: a negative limit is none. */
  function Limited(rows: seq<Row>, limit: int): seq<Row> {
    if limit < 0 || limit >= |rows| then rows else rows[..limit]
  }

  function Replay(log: seq<Row>, since: int, limit: int): seq<Row> {
    Limited(Newer(log, since), limit)
  }

  function LastSeq(log: seq<Row>): nat {
    if log == [] then 0 else log[|log| - 1].seqNo
  }

  function Tail(log: seq<Row>, limit: int): seq<Row> {
    var last := LastSeq(log);
    if last == 0 then [] else Newer(log, if last - limit < 0 then 0 else last - limit)
  }

  lemma {:induction false} NewerThanAll(log: seq<Row>, since: int)
    requires forall i :: 0 <= i < |log| ==> log[i].seqNo > since
    ensures Newer(log, since) == log
  {
    if log != [] {
      NewerThanAll(log[1..], since);
      assert log == [log[0]] + log[1..];
    }
  }

  /** In a numbered log the rows above a number are a suffix. */
  lemma {:induction false} NewerIsSuffix(log: seq<Row>, since: int) returns (k: nat)
    requires Numbered(log)
    ensures k <= |log| && Newer(log, since) == log[k..]
    ensures forall i :: 0 <= i < |log| ==> (log[i].seqNo > since <==> k <= i)
  {
    if log == [] {
      k := 0;
    } else if log[0].seqNo > since {
      NewerThanAll(log, since);
      k := 0;
    } else {
      var m := NewerIsSuffix(log[1..], since);
      k := m + 1;
    }
  }

  /** `tail` is a suffix of at most `limit` rows that ends with the last row, if `limit` is positive. */
  lemma TailIsSuffix(log: seq<Row>, limit: int) returns (k: nat)
    requires Numbered(log)
    ensures k <= |log| && Tail(log, limit) == log[k..] && (limit >= 0 ==> |log| - k <= limit)
    ensures limit > 0 && log != [] ==> k < |log|
  {
    if log == [] {
      k := 0;
    } else {
      var since := if LastSeq(log) - limit < 0 then 0 else LastSeq(log) - limit;
      assert Tail(log, limit) == Newer(log, since);
      k := NewerIsSuffix(log, since);
      SuffixIsShort(log, since, k, limit);
    }
  }

  lemma SuffixIsShort(log: seq<Row>, since: nat, k: nat, limit: int)
    requires Numbered(log) && log != [] && k <= |log| && since >= LastSeq(log) - limit
    requires k < |log| ==> log[k].seqNo > since
    requires log[|log| - 1].seqNo > since ==> k < |log|
    ensures limit >= 0 ==> |log| - k <= limit
    ensures limit > 0 && since < LastSeq(log) ==> k < |log|
  {
    if k < |log| {
      GapsOnlyWiden(log, k, |log| - 1);
    }
  }

  lemma {:induction false} GapsOnlyWiden(log: seq<Row>, i: nat, j: nat)
    requires Numbered(log) && i <= j < |log|
    ensures log[j].seqNo - log[i].seqNo >= j - i
    decreases j
  {
    if i < j {
      GapsOnlyWiden(log, i, j - 1);
    }
  }

  /** The rows `tail` yields are those numbered within `limit` of the last one. */
  lemma TailIsExact(log: seq<Row>, limit: int) returns (k: nat)
    requires Numbered(log)
    ensures k <= |log| && Tail(log, limit) == log[k..]
    ensures forall i :: 0 <= i < |log| ==> (k <= i <==> log[|log| - 1].seqNo - log[i].seqNo < limit)
  {
    if log == [] {
      k := 0;
    } else {
      var last := log[|log| - 1].seqNo;
      k := NewerIsSuffix(log, if last - limit < 0 then 0 else last - limit);
    }
  }

  /** Gaps in the numbering make them fewer than asked for: exactly when they reach into the last `limit` rows. */
  lemma TailIsFullIff(log: seq<Row>, limit: nat)
    requires Numbered(log) && 0 < limit <= |log|
    ensures |Tail(log, limit)| == limit <==> log[|log| - 1].seqNo - log[|log| - limit].seqNo == limit - 1
  {
    var k := TailIsExact(log, limit);
    GapsOnlyWiden(log, |log| - limit, |log| - 1);
    if k < |log| {
      GapsOnlyWiden(log, k, |log| - 1);
    }
  }

  /** A log without gaps yields exactly as many rows as asked for, or all of them. */
  lemma TailOfGapless(log: seq<Row>, limit: nat)
    requires Numbered(log) && forall i :: 0 <= i < |log| ==> log[i].seqNo == log[0].seqNo + i
    ensures |Tail(log, limit)| == if limit < |log| then limit else |log|
  {
    var k := TailIsExact(log, limit);
    if k < |log| {
      assert log[|log| - 1].seqNo - log[k].seqNo == |log| - 1 - k;
    }
    if 0 < k {
      assert log[|log| - 1].seqNo - log[k - 1].seqNo == |log| - k;
    }
  }

  // ----- Paging ----------------------------------------------------------------------------------

  /** The rows a reader collects that asks for pages, each from the last number it has seen, until a page is empty. */
  ghost function Pages(log: seq<Row>, since: int, limit: int): seq<Row>
    requires Numbered(log)
    decreases |Newer(log, since)|
  {
    var page := Replay(log, since, limit);
    if page == [] then []
    else
      assert |Newer(log, page[|page| - 1].seqNo)| < |Newer(log, since)| by { PageMakesProgress(log, since, limit); }
      page + Pages(log, page[|page| - 1].seqNo, limit)
  }

  /** A page is as long as asked for, unless fewer rows are left, and starts with the first row above the number. */
  lemma PageIs(log: seq<Row>, since: int, limit: int) returns (k: nat)
    requires Numbered(log)
    ensures k <= |log| && forall i :: 0 <= i < |log| ==> (log[i].seqNo > since <==> k <= i)
    ensures Replay(log, since, limit) == log[k..if 0 <= limit < |log| - k then k + limit else |log|]
  {
    k := NewerIsSuffix(log, since);
  }

  lemma PageMakesProgress(log: seq<Row>, since: int, limit: int)
    requires Numbered(log) && Replay(log, since, limit) != []
    ensures var page := Replay(log, since, limit);
      && |Newer(log, page[|page| - 1].seqNo)| < |Newer(log, since)|
      && Newer(log, since) == page + Newer(log, page[|page| - 1].seqNo)
  {
    var page := Replay(log, since, limit);
    var k := NewerIsSuffix(log, since);
    var m := NewerIsSuffix(log, page[|page| - 1].seqNo);
    assert page == log[k..k + |page|] && page[|page| - 1] == log[k + |page| - 1];
    assert m == k + |page| by {
      if k + |page| < |log| {
        assert log[k + |page| - 1].seqNo < log[k + |page|].seqNo;
      }
    }
  }

  /** Paging enumerates what is above the starting number once, in order, for every page size. */
  lemma {:induction false} PagingIsComplete(log: seq<Row>, since: int, limit: int)
    requires Numbered(log) && limit != 0
    ensures Pages(log, since, limit) == Newer(log, since)
    decreases |Newer(log, since)|
  {
    var page := Replay(log, since, limit);
    if page != [] {
      PageMakesProgress(log, since, limit);
      PagingIsComplete(log, page[|page| - 1].seqNo, limit);
    }
  }

  /** From number zero, paging reads the whole log. */
  lemma PagingReadsTheLog(log: seq<Row>, limit: int)
    requires Numbered(log) && limit != 0
    ensures Pages(log, 0, limit) == log
  {
    PagingIsComplete(log, 0, limit);
    NewerThanAll(log, 0);
  }

  // ----- Merging two logs ------------------------------------------------------------------------

  lemma {:induction false} MergeKeepsRows(events: seq<Event>, incoming: seq<Event>)
    requires UniqueIds(events)
    ensures events <= Merged(events, incoming) && UniqueIds(Merged(events, incoming))
  {
    if incoming != [] {
      MergeKeepsRows(events, incoming[..|incoming| - 1]);
    }
  }

  /** The ids after a merge are exactly those there before and the non-empty ones that came in. */
  lemma {:induction false} MergedIds(events: seq<Event>, incoming: seq<Event>, id: string)
    ensures HasId(Merged(events, incoming), id) <==> HasId(events, id) || (id != "" && HasId(incoming, id))
  {
    if incoming != [] {
      var most, e := incoming[..|incoming| - 1], incoming[|incoming| - 1];
      MergedIds(events, most, id);
      IdAppend(most, e, id);
      assert incoming == most + [e];
      IdAppend(Merged(events, most), e, id);
    }
  }

  lemma IdAppend(events: seq<Event>, e: Event, id: string)
    ensures HasId(events + [e], id) <==> HasId(events, id) || e.id == id
  {
    if HasId(events, id) {
      var i :| 0 <= i < |events| && events[i].id == id;
      assert (events + [e])[i].id == id;
    }
    if e.id == id {
      assert (events + [e])[|events|].id == id;
    }
    if i :| 0 <= i < |events + [e]| && (events + [e])[i].id == id {
      assert i < |events| ==> events[i].id == id;
    }
  }

  /**
   Of several events under one new id the first to come in is kept, behind everything that came
   in before it; so new events stay in the order in which they arrived.
   */
  lemma FirstCopyLands(events: seq<Event>, incoming: seq<Event>, i: nat)
    requires i < |incoming| && incoming[i].id != "" && !HasId(events, incoming[i].id)
    requires forall j :: 0 <= j < i ==> incoming[j].id != incoming[i].id
    ensures Merged(events, incoming[..i]) + [incoming[i]] <= Merged(events, incoming)
  {
    MergedIds(events, incoming[..i], incoming[i].id);
    assert incoming[..i + 1][..i] == incoming[..i];
    MergeOnlyAppends(events, incoming, i + 1);
  }

  lemma {:induction false} MergeOnlyAppends(events: seq<Event>, incoming: seq<Event>, i: nat)
    requires i <= |incoming|
    ensures Merged(events, incoming[..i]) <= Merged(events, incoming)
  {
    if i < |incoming| {
      var most := incoming[..|incoming| - 1];
      MergeOnlyAppends(events, most, i);
      assert most[..i] == incoming[..i];
    } else {
      assert incoming[..i] == incoming;
    }
  }

  /** Every event in a merged log comes from one of the two. */
  lemma {:induction false} MergedEvents(events: seq<Event>, incoming: seq<Event>)
    ensures forall e :: e in Merged(events, incoming) ==> e in events || e in incoming
  {
    if incoming != [] {
      MergedEvents(events, incoming[..|incoming| - 1]);
      assert incoming == incoming[..|incoming| - 1] + [incoming[|incoming| - 1]];
    }
  }

  ghost predicate IdsDetermine(a: seq<Event>, b: seq<Event>) {
    forall x, y :: (x in a || x in b) && (y in a || y in b) && x.id == y.id ==> x == y
  }

  /** When ids determine contents, a merge is a union of event sets. */
  lemma MergeIsUnion(a: seq<Event>, b: seq<Event>, e: Event)
    requires UniqueIds(a) && UniqueIds(b) && IdsDetermine(a, b)
    ensures e in Merged(a, b) <==> e in a || e in b
  {
    MergedEvents(a, b);
    MergeKeepsRows(a, b);
    if e in b {
      var i :| 0 <= i < |b| && b[i] == e;
      assert HasId(b, e.id) && e.id != "";
      MergedIds(a, b, e.id);
      var j :| 0 <= j < |Merged(a, b)| && Merged(a, b)[j].id == e.id;
      assert Merged(a, b)[j] in Merged(a, b);
    }
    if e in a {
      var i :| 0 <= i < |a| && a[i] == e;
      assert Merged(a, b)[i] == e;
    }
  }

  /**
   Anti-entropy: after each of two logs has merged all pages of the other (the second one from
   the first as it was, or as it became), both hold the same events. Row numbers may differ.
   */
  lemma ExchangeMakesEqual(a: seq<Row>, b: seq<Row>, limit: int, limit': int, e: Event)
    requires Numbered(a) && Numbered(b) && limit != 0 && limit' != 0
    requires UniqueIds(Events(a)) && UniqueIds(Events(b)) && IdsDetermine(Events(a), Events(b))
    ensures var a' := Merged(Events(a), Events(Pages(b, 0, limit)));
      var b' := Merged(Events(b), Events(Pages(a, 0, limit')));
      && (e in a' <==> e in b')
      && (e in a' <==> e in Events(a) || e in Events(b))
      && (e in Merged(Events(b), a') <==> e in a')
  {
    PagingReadsTheLog(a, limit');
    PagingReadsTheLog(b, limit);
    MergeIsUnion(Events(a), Events(b), e);
    MergeIsUnion(Events(b), Events(a), e);
    var a' := Merged(Events(a), Events(b));
    MergeKeepsRows(Events(a), Events(b));
    MergedEvents(Events(a), Events(b));
    MergeIsUnion(Events(b), a', e);
  }

  // ----- The log ---------------------------------------------------------------------------------

  class EventLog {
    var rows: seq<Row>

    ghost predicate Valid()
      reads this
    {
      Numbered(rows) && UniqueIds(Events(rows))
    }

    constructor ()
      ensures Valid() && rows == []
    {
      rows := [];
    }

    method Insert(e: Event)
      requires Valid() && e.id != "" && !HasId(Events(rows), e.id)
      modifies this
      ensures Valid() && old(rows) < rows && Events(rows) == old(Events(rows)) + [e]
    {
      var next :| next > LastSeq(rows);
      assert forall i :: 0 <= i < |rows| ==> Events(rows)[i].id != e.id;
      rows := rows + [Row(next, e)];
      assert Events(rows) == old(Events(rows)) + [e];
    }

    /** An appended event gets an id never used before. */
    method Append(e: Event) returns (seqNo: nat)
      requires Valid() && e.id != "" && !HasId(Events(rows), e.id)
      modifies this
      ensures Valid() && old(rows) < rows && Events(rows) == old(Events(rows)) + [e]
      ensures seqNo == LastSeq(rows) && seqNo > LastSeq(old(rows))
    {
      Insert(e);
      seqNo := rows[|rows| - 1].seqNo;
    }

    method MergeEvents(incoming: seq<Event>) returns (inserted: nat)
      requires Valid()
      modifies this
      ensures Valid() && old(rows) <= rows
      ensures Events(rows) == Merged(old(Events(rows)), incoming)
      ensures inserted == |rows| - |old(rows)|
    {
      inserted := 0;
      for i := 0 to |incoming|
        invariant Valid() && old(rows) <= rows
        invariant Events(rows) == Merged(old(Events(rows)), incoming[..i])
        invariant inserted == |rows| - |old(rows)|
      {
        assert incoming[..i + 1][..i] == incoming[..i];
        if incoming[i].id == "" {
          continue;
        }
        var taken := Contains(incoming[i].id);
        if taken {
          continue;
        }
        Insert(incoming[i]);
        inserted := inserted + 1;
      }
      assert incoming[..|incoming|] == incoming;
    }

    /** The uniqueness check of the database. */
    method Contains(id: string) returns (found: bool)
      ensures found <==> HasId(Events(rows), id)
    {
      for i := 0 to |rows|
        invariant forall j :: 0 <= j < i ==> rows[j].event.id != id
      {
        if rows[i].event.id == id {
          assert Events(rows)[i].id == id;
          return true;
        }
      }
      return false;
    }
  }
}
