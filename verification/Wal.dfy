/** Journal events, and what recovery reads out of a journal. */
module Wal {
  import opened Wrappers

  datatype Event =
    | WriteBegin(txid: nat, chunkId: nat, offsetInChunk: nat, length: nat, before: nat, after: nat)
    | LocalCommitted(txid: nat, chunkId: nat, after: nat)
    | CloudCommitted(chunkId: nat, generation: nat, checksum: string)

  /** The largest generation with a LocalCommitted record for chunk c. */
  function LatestLocal(journal: seq<Event>, c: nat): Option<nat> {
    if journal == [] then None
    else
      var sofar := LatestLocal(journal[..|journal| - 1], c);
      var e := journal[|journal| - 1];
      if e.LocalCommitted? && e.chunkId == c then Some(Max(sofar.GetOr(0), e.after)) else sofar
  }

  /** The generations of chunk c with a CloudCommitted record. */
  function Synced(journal: seq<Event>, c: nat): set<nat> {
    if journal == [] then {}
    else
      var sofar := Synced(journal[..|journal| - 1], c);
      var e := journal[|journal| - 1];
      if e.CloudCommitted? && e.chunkId == c then sofar + {e.generation} else sofar
  }

  /** The chunks with a LocalCommitted record. */
  function Journaled(journal: seq<Event>): set<nat> {
    set e | e in journal && e.LocalCommitted? :: e.chunkId
  }

  lemma Snoc(journal: seq<Event>, e: Event, c: nat)
    ensures LatestLocal(journal + [e], c)
         == if e.LocalCommitted? && e.chunkId == c then Some(Max(LatestLocal(journal, c).GetOr(0), e.after))
            else LatestLocal(journal, c)
    ensures Synced(journal + [e], c)
         == if e.CloudCommitted? && e.chunkId == c then Synced(journal, c) + {e.generation} else Synced(journal, c)
  {
    assert (journal + [e])[..|journal + [e]| - 1] == journal;
  }

  /** LatestLocal is a maximum: attained by some record, exceeded by none. */
  lemma {:induction false} LatestLocalIsMax(journal: seq<Event>, c: nat)
    ensures LatestLocal(journal, c).None? <==> c !in Journaled(journal)
    ensures LatestLocal(journal, c).Some? ==>
              exists e :: e in journal && e.LocalCommitted? && e.chunkId == c
                  && e.after == LatestLocal(journal, c).value
    ensures forall e :: e in journal && e.LocalCommitted? && e.chunkId == c ==>
              LatestLocal(journal, c).Some? && e.after <= LatestLocal(journal, c).value
  {
    if journal != [] {
      var n := |journal| - 1;
      LatestLocalIsMax(journal[..n], c);
      assert journal == journal[..n] + [journal[n]];
      assert journal[n] in journal;
      assert forall e :: e in journal[..n] ==> e in journal;
    }
  }

  lemma {:induction false} SyncedIsExact(journal: seq<Event>, c: nat, g: nat)
    ensures g in Synced(journal, c) <==>
              exists e :: e in journal && e.CloudCommitted? && e.chunkId == c && e.generation == g
  {
    if journal != [] {
      var n := |journal| - 1;
      SyncedIsExact(journal[..n], c, g);
      assert journal == journal[..n] + [journal[n]];
      assert journal[n] in journal;
      assert forall e :: e in journal[..n] ==> e in journal;
    }
  }

  /**
   * All that recovery needs to know about chunk c: its latest local generation, and whether exactly
   * that generation reached the cloud.
   */
  datatype Summary = Summary(latest: Option<nat>, committed: bool)

  function Summarize(journal: seq<Event>, c: nat): Summary {
    var latest := LatestLocal(journal, c);
    Summary(latest, latest.Some? && latest.value in Synced(journal, c))
  }

  /** The summary only depends on which events occur, not on their order or multiplicity. */
  lemma SummaryIgnoresOrder(j1: seq<Event>, j2: seq<Event>, c: nat)
    requires forall e :: e in j1 <==> e in j2
    ensures Summarize(j1, c) == Summarize(j2, c)
  {
    LatestLocalIsMax(j1, c);
    LatestLocalIsMax(j2, c);
    var s1, s2 := LatestLocal(j1, c), LatestLocal(j2, c);
    if s1.Some? {
      SyncedIsExact(j1, c, s1.value);
      SyncedIsExact(j2, c, s1.value);
    }
  }

  predicate LocalRecord(e: Event, c: nat, g: nat) {
    e.LocalCommitted? && e.chunkId == c && e.after == g
  }

  predicate CloudRecord(e: Event, c: nat, g: nat) {
    e.CloudCommitted? && e.chunkId == c && e.generation == g
  }

  /** `kept` is part of the journal and still has the records of generation g of chunk c that the journal has. */
  ghost predicate Keeps(journal: seq<Event>, kept: seq<Event>, c: nat, g: nat) {
    && (forall e :: e in kept ==> e in journal)
    && ((exists e :: e in journal && LocalRecord(e, c, g)) ==> exists e :: e in kept && LocalRecord(e, c, g))
    && ((exists e :: e in journal && CloudRecord(e, c, g)) ==> exists e :: e in kept && CloudRecord(e, c, g))
  }

  /** Compaction keeps the summary of a chunk when it keeps the records of its latest local generation. */
  lemma CompactionKeepsSummary(journal: seq<Event>, kept: seq<Event>, c: nat)
    requires forall e :: e in kept ==> e in journal
    requires LatestLocal(journal, c).Some? ==> Keeps(journal, kept, c, LatestLocal(journal, c).value)
    ensures Summarize(kept, c) == Summarize(journal, c)
  {
    LatestLocalIsMax(journal, c);
    LatestLocalIsMax(kept, c);
    var s := LatestLocal(journal, c);
    if s.Some? {
      var top :| top in journal && LocalRecord(top, c, s.value);
      var k :| k in kept && LocalRecord(k, c, s.value);
      assert LatestLocal(kept, c) == s;
      CommittedIsExact(journal, c, s.value);
      CommittedIsExact(kept, c, s.value);
    }
  }

  lemma CommittedIsExact(journal: seq<Event>, c: nat, g: nat)
    ensures g in Synced(journal, c) <==> exists e :: e in journal && CloudRecord(e, c, g)
  {
    SyncedIsExact(journal, c, g);
    if e :| e in journal && e.CloudCommitted? && e.chunkId == c && e.generation == g {
      assert CloudRecord(e, c, g);
    }
  }

  // ---------------------------------------------------------------- well-formed journals

  predicate Acknowledges(b: Event, e: Event) {
    b.WriteBegin? && e.LocalCommitted? && b.txid == e.txid && b.chunkId == e.chunkId && b.after == e.after
  }

  /**
   * Transaction ids of WriteBegin records strictly increase and each writes generation before + 1;
   * every LocalCommitted closes an earlier WriteBegin.
   */
  ghost predicate WellFormed(journal: seq<Event>) {
    && (forall i :: 0 <= i < |journal| && journal[i].WriteBegin? ==> journal[i].after == journal[i].before + 1)
    && (forall i, j :: 0 <= i < j < |journal| && journal[i].WriteBegin? && journal[j].WriteBegin? ==>
          journal[i].txid < journal[j].txid)
    && (forall j :: 0 <= j < |journal| && journal[j].LocalCommitted? ==>
          exists i :: 0 <= i < j && Acknowledges(journal[i], journal[j]))
  }

  function TxidOf(e: Event): nat {
    if e.CloudCommitted? then 0 else e.txid
  }

  predicate TxidsBelow(journal: seq<Event>, n: nat) {
    n > 0 && forall i :: 0 <= i < |journal| ==> TxidOf(journal[i]) < n
  }

  /** The `next_txid` that `Journal::open` computes. */
  function ReopenedTxid(journal: seq<Event>): nat {
    if journal == [] then 1
    else Max(ReopenedTxid(journal[..|journal| - 1]), TxidOf(journal[|journal| - 1]) + 1)
  }

  /** A reopened journal goes on right after the largest recorded transaction id, at 1 if there is none. */
  lemma {:induction false} ReopenedTxidIsFresh(journal: seq<Event>)
    ensures TxidsBelow(journal, ReopenedTxid(journal))
    ensures ReopenedTxid(journal) > 1 ==>
              exists e :: e in journal && !e.CloudCommitted? && ReopenedTxid(journal) == e.txid + 1
  {
    if journal != [] {
      var n := |journal| - 1;
      ReopenedTxidIsFresh(journal[..n]);
      assert journal[n] in journal && forall e :: e in journal[..n] ==> e in journal;
    }
  }

  /** An event the engine may append when the journal is `journal` and the next txid is `next`. */
  predicate MayAppend(journal: seq<Event>, next: nat, e: Event) {
    match e
    case WriteBegin(txid, _, _, _, before, after) => txid == next && after == before + 1
    case LocalCommitted(_, _, _) => journal != [] && Acknowledges(journal[|journal| - 1], e)
    case CloudCommitted(_, _, _) => true
  }

  lemma AppendKeepsWellFormed(journal: seq<Event>, next: nat, e: Event)
    requires WellFormed(journal) && TxidsBelow(journal, next) && MayAppend(journal, next, e)
    ensures WellFormed(journal + [e])
    ensures TxidsBelow(journal + [e], if e.WriteBegin? then next + 1 else next)
  {
    var j' := journal + [e];
    if e.LocalCommitted? {
      assert Acknowledges(j'[|journal| - 1], j'[|journal|]);
    }
    forall j | 0 <= j < |j'| && j'[j].LocalCommitted?
      ensures exists i :: 0 <= i < j && Acknowledges(j'[i], j'[j])
    {
      if j < |journal| {
        var i :| 0 <= i < j && Acknowledges(journal[i], journal[j]);
        assert Acknowledges(j'[i], j'[j]);
      }
    }
  }
}
