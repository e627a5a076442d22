/** Storing a batch of raw API records into the market-price table: each
    record is cleaned, then inserted, or used to update the row with the same
    (state, district, market, commodity, arrival date), or skipped.

    The session neither flushes before a query nor commits after every
    record: it commits after every fiftieth inserted-or-updated record and
    at the end. The existence check therefore sees only committed rows, and a
    key inserted earlier in the same commit window is inserted again. The
    first part models the loop as it runs; the second part is the upsert it
    is meant to be, one row per key, on a map from key to row. */
module MandiStore {
  import opened Common
  import opened MandiRecords

  /** The cleaning step; the sync passes `r => Clean(r, parseDate, parseFloat)`. */
  type Cleaner = RawRecord -> Option<Cleaned>

  datatype Stats = Stats(inserted: nat, updated: nat, skipped: nat)

  /** Keys of the records that survive cleaning. */
  function AcceptedKeys(records: seq<RawRecord>, clean: Cleaner): set<RecordKey>
    decreases |records|
  {
    if |records| == 0 then {}
    else
      var last := clean(records[|records| - 1]);
      AcceptedKeys(records[..|records| - 1], clean)
        + (if last.Some? then {KeyOf(last.value)} else {})
  }

  /** Number of records that cleaning rejects. */
  function RejectedCount(records: seq<RawRecord>, clean: Cleaner): nat
    decreases |records|
  {
    if |records| == 0 then 0
    else
      var last := clean(records[|records| - 1]);
      RejectedCount(records[..|records| - 1], clean) + (if last.None? then 1 else 0)
  }

  // ---------------------------------------------------------------------------
  // the loop as it runs

  /** Inserted plus updated records between two commits. */
  const CommitEvery: nat := 50

  /** The keys the rows carry. */
  function RowKeys(rows: seq<MarketPrice>): set<RecordKey> {
    set i | 0 <= i < |rows| :: RowKey(rows[i])
  }

  lemma RowKeysAppend(rows: seq<MarketPrice>, p: MarketPrice)
    ensures RowKeys(rows + [p]) == RowKeys(rows) + {RowKey(p)}
  {
    var all := rows + [p];
    forall k | k in RowKeys(all) ensures k in RowKeys(rows) + {RowKey(p)} {
      var i :| 0 <= i < |all| && RowKey(all[i]) == k;
      if i < |rows| {
        assert all[i] == rows[i];
      }
    }
    forall k | k in RowKeys(rows) ensures k in RowKeys(all) {
      var i :| 0 <= i < |rows| && RowKey(rows[i]) == k;
      assert all[i] == rows[i];
    }
    assert all[|rows|] == p;
  }

  lemma RowKeysUpdate(rows: seq<MarketPrice>, i: nat, p: MarketPrice)
    requires i < |rows| && RowKey(p) == RowKey(rows[i])
    ensures RowKeys(rows[i := p]) == RowKeys(rows)
  {
    var all := rows[i := p];
    forall k | k in RowKeys(all) ensures k in RowKeys(rows) {
      var j :| 0 <= j < |all| && RowKey(all[j]) == k;
      assert RowKey(rows[j]) == k;
    }
    forall k | k in RowKeys(rows) ensures k in RowKeys(all) {
      var j :| 0 <= j < |rows| && RowKey(rows[j]) == k;
      assert RowKey(all[j]) == k;
    }
  }

  /** The existence query over the first `n` rows, the committed ones: the
      earliest row with the key, or None when none of them has it. */
  function FindCommitted(rows: seq<MarketPrice>, n: nat, k: RecordKey): (r: Option<nat>)
    requires n <= |rows|
    ensures r.Some? ==> r.value < n && RowKey(rows[r.value]) == k
    ensures r.Some? ==> forall j :: 0 <= j < r.value ==> RowKey(rows[j]) != k
    ensures r.None? <==> k !in RowKeys(rows[..n])
    decreases n
  {
    if n == 0 then None
    else
      var found := FindCommitted(rows, n - 1, k);
      assert rows[..n] == rows[..n - 1] + [rows[n - 1]];
      RowKeysAppend(rows[..n - 1], rows[n - 1]);
      if found.Some? then found
      else if RowKey(rows[n - 1]) == k then Some(n - 1)
      else None
  }

  /** The table in insertion order, of which the first `committed` rows are
      in the database and the rest are pending inserts, and the counters. */
  datatype Session = Session(rows: seq<MarketPrice>, committed: nat, stats: Stats)

  /** One record of `_process_and_store_data`: a rejected record is counted as
      skipped; otherwise a committed row with the record's key is updated in
      place, and when no committed row has the key a new row is appended,
      whatever the pending rows hold; every fiftieth inserted-or-updated
      record commits the table. Old rows keep their key and trend columns. */
  function Step(s: Session, cleaned: Option<Cleaned>): (r: Session)
    requires s.committed <= |s.rows|
    ensures r.committed <= |r.rows|
    ensures cleaned.None? ==> r == s.(stats := s.stats.(skipped := s.stats.skipped + 1))
    ensures cleaned.Some? ==>
              && r.rows == Write(s, cleaned.value).rows && r.stats == Write(s, cleaned.value).stats
              && r.committed == (if (r.stats.inserted + r.stats.updated) % CommitEvery == 0
                                 then |r.rows| else s.committed)
  {
    match cleaned
    case None => s.(stats := s.stats.(skipped := s.stats.skipped + 1))
    case Some(c) =>
      var next := Write(s, c);
      if (next.stats.inserted + next.stats.updated) % CommitEvery == 0 then next.(committed := |next.rows|)
      else next
  }

  /** The update or insert of one accepted record, before any commit. */
  function Write(s: Session, c: Cleaned): (r: Session)
    requires s.committed <= |s.rows|
    ensures r.committed == s.committed && |s.rows| <= |r.rows|
  {
    var found := FindCommitted(s.rows, s.committed, KeyOf(c));
    if found.Some? then
      Session(s.rows[found.value := UpdateRow(s.rows[found.value], c)], s.committed,
              s.stats.(updated := s.stats.updated + 1))
    else
      Session(s.rows + [NewRow(c)], s.committed, s.stats.(inserted := s.stats.inserted + 1))
  }

  /** An accepted record is counted once, as inserted exactly when no
      committed row has its key, even when a pending row has it; its key joins
      the table; the rows already there keep their place, key and trend
      columns, and only rows with the record's key change. */
  lemma WriteSpec(s: Session, c: Cleaned)
    requires s.committed <= |s.rows|
    ensures Write(s, c).stats.skipped == s.stats.skipped
    ensures Write(s, c).stats.inserted + Write(s, c).stats.updated == s.stats.inserted + s.stats.updated + 1
    ensures (Write(s, c).stats.inserted == s.stats.inserted + 1) <==> KeyOf(c) !in RowKeys(s.rows[..s.committed])
    ensures RowKeys(Write(s, c).rows) == RowKeys(s.rows) + {KeyOf(c)}
    ensures |Write(s, c).rows| == |s.rows| + (Write(s, c).stats.inserted - s.stats.inserted)
    ensures forall i :: 0 <= i < |s.rows| ==>
              && RowKey(Write(s, c).rows[i]) == RowKey(s.rows[i])
              && Write(s, c).rows[i].trend == s.rows[i].trend
              && Write(s, c).rows[i].priceChange == s.rows[i].priceChange
              && Write(s, c).rows[i].percentageChange == s.rows[i].percentageChange
    ensures forall i :: 0 <= i < |s.rows| && RowKey(s.rows[i]) != KeyOf(c) ==> Write(s, c).rows[i] == s.rows[i]
  {
    var found := FindCommitted(s.rows, s.committed, KeyOf(c));
    if found.Some? {
      var i := found.value;
      RowKeysUpdate(s.rows, i, UpdateRow(s.rows[i], c));
      assert KeyOf(c) in RowKeys(s.rows);
    } else {
      RowKeysAppend(s.rows, NewRow(c));
    }
  }

  /** The session after the records, one at a time, in order, starting from
      the stored rows, all committed. */
  function Run(store: seq<MarketPrice>, records: seq<RawRecord>, clean: Cleaner): (s: Session)
    ensures s.committed <= |s.rows|
    decreases |records|
  {
    if |records| == 0 then Session(store, |store|, Stats(0, 0, 0))
    else Step(Run(store, records[..|records| - 1], clean), clean(records[|records| - 1]))
  }

  /** Every record is counted exactly once, the skipped ones are exactly
      those cleaning rejects, and every insert adds one row. */
  lemma {:induction false} RunCounts(store: seq<MarketPrice>, records: seq<RawRecord>, clean: Cleaner)
    ensures Run(store, records, clean).stats.inserted + Run(store, records, clean).stats.updated
              + Run(store, records, clean).stats.skipped == |records|
    ensures Run(store, records, clean).stats.skipped == RejectedCount(records, clean)
    ensures |Run(store, records, clean).rows| == |store| + Run(store, records, clean).stats.inserted
    decreases |records|
  {
    if |records| > 0 {
      RunCounts(store, records[..|records| - 1], clean);
      if clean(records[|records| - 1]).Some? {
        WriteSpec(Run(store, records[..|records| - 1], clean), clean(records[|records| - 1]).value);
      }
    }
  }

  /** The table carries the stored keys plus the keys of accepted records. */
  lemma {:induction false} RunKeySet(store: seq<MarketPrice>, records: seq<RawRecord>, clean: Cleaner)
    ensures RowKeys(Run(store, records, clean).rows) == RowKeys(store) + AcceptedKeys(records, clean)
    decreases |records|
  {
    if |records| > 0 {
      RunKeySet(store, records[..|records| - 1], clean);
      if clean(records[|records| - 1]).Some? {
        WriteSpec(Run(store, records[..|records| - 1], clean), clean(records[|records| - 1]).value);
      }
    }
  }

  /** The stored rows stay in their places with their keys and trend columns,
      and a stored row no accepted record names is left exactly as it was. */
  lemma {:induction false} RunKeepsRows(store: seq<MarketPrice>, records: seq<RawRecord>, clean: Cleaner)
    ensures |store| <= |Run(store, records, clean).rows|
    ensures forall i :: 0 <= i < |store| ==>
              var p := Run(store, records, clean).rows[i];
              && RowKey(p) == RowKey(store[i])
              && p.trend == store[i].trend
              && p.priceChange == store[i].priceChange
              && p.percentageChange == store[i].percentageChange
    ensures forall i :: 0 <= i < |store| && RowKey(store[i]) !in AcceptedKeys(records, clean) ==>
              Run(store, records, clean).rows[i] == store[i]
    decreases |records|
  {
    if |records| > 0 {
      RunKeepsRows(store, records[..|records| - 1], clean);
      if clean(records[|records| - 1]).Some? {
        WriteSpec(Run(store, records[..|records| - 1], clean), clean(records[|records| - 1]).value);
      }
    }
  }

  /** Two records are run as two steps from the stored rows. */
  lemma RunTwo(store: seq<MarketPrice>, a: RawRecord, b: RawRecord, clean: Cleaner)
    ensures Run(store, [a, b], clean) == Step(Step(Session(store, |store|, Stats(0, 0, 0)), clean(a)), clean(b))
  {
    var ab := [a, b];
    assert ab[..1] == [a] && ab[1] == b;
    assert Run(store, ab, clean) == Step(Run(store, [a], clean), clean(b));
    assert [a][..0] == [] && [a][0] == a;
    assert Run(store, [a], clean) == Step(Run(store, [], clean), clean(a));
  }

  /** A key no committed row carries is appended as a new row, and short of
      a fiftieth write nothing is committed. */
  lemma StepNewKey(s: Session, c: Cleaned)
    requires s.committed <= |s.rows|
    requires KeyOf(c) !in RowKeys(s.rows[..s.committed])
    requires s.stats.inserted + s.stats.updated + 1 < CommitEvery
    ensures Step(s, Some(c)) == Session(s.rows + [NewRow(c)], s.committed, s.stats.(inserted := s.stats.inserted + 1))
  {
    assert FindCommitted(s.rows, s.committed, KeyOf(c)).None?;
    assert (s.stats.inserted + s.stats.updated + 1) % CommitEvery != 0;
  }

  /** Two accepted records with the same new key in one commit window, such
      as two varieties of a commodity in one market on one day, are both
      inserted: the second query does not see the first insert. */
  lemma SameKeyTwiceInsertsTwice(store: seq<MarketPrice>, a: RawRecord, b: RawRecord, clean: Cleaner)
    requires clean(a).Some? && clean(b).Some?
    requires KeyOf(clean(a).value) == KeyOf(clean(b).value)
    requires KeyOf(clean(a).value) !in RowKeys(store)
    ensures Run(store, [a, b], clean).stats == Stats(2, 0, 0)
    ensures |Run(store, [a, b], clean).rows| == |store| + 2
    ensures RowKey(Run(store, [a, b], clean).rows[|store|]) == KeyOf(clean(a).value)
    ensures RowKey(Run(store, [a, b], clean).rows[|store| + 1]) == KeyOf(clean(a).value)
  {
    var ca, cb := clean(a).value, clean(b).value;
    RunTwo(store, a, b, clean);
    var s0 := Session(store, |store|, Stats(0, 0, 0));
    assert s0.rows[..s0.committed] == store;
    assert KeyOf(ca) !in RowKeys(s0.rows[..s0.committed]);
    StepNewKey(s0, ca);
    var s1 := Session(store + [NewRow(ca)], |store|, Stats(1, 0, 0));
    assert s1.rows[..s1.committed] == store;
    assert KeyOf(cb) !in RowKeys(s1.rows[..s1.committed]);
    StepNewKey(s1, cb);
  }

  /** `_process_and_store_data` as it runs: every record is counted exactly
      once as inserted, updated or skipped; the rows are the stored rows,
      updated in place, followed by one new row per insert; the keys are the
      stored keys plus the accepted ones; the stored rows keep their trend
      columns, and those no accepted record names are untouched. The result
      is the table after the final commit. */
  method ProcessAndStore(store: seq<MarketPrice>, records: seq<RawRecord>, clean: Cleaner)
    returns (rows: seq<MarketPrice>, stats: Stats)
    ensures stats.inserted + stats.updated + stats.skipped == |records|
    ensures stats.skipped == RejectedCount(records, clean)
    ensures |rows| == |store| + stats.inserted
    ensures RowKeys(rows) == RowKeys(store) + AcceptedKeys(records, clean)
    ensures forall i :: 0 <= i < |store| ==>
              && RowKey(rows[i]) == RowKey(store[i])
              && rows[i].trend == store[i].trend
              && rows[i].priceChange == store[i].priceChange
              && rows[i].percentageChange == store[i].percentageChange
    ensures forall i :: 0 <= i < |store| && RowKey(store[i]) !in AcceptedKeys(records, clean) ==>
              rows[i] == store[i]
  {
    rows := store;
    stats := Stats(0, 0, 0);
    var committed: nat := |store|;
    for i := 0 to |records|
      invariant Session(rows, committed, stats) == Run(store, records[..i], clean)
    {
      assert records[..i + 1][..i] == records[..i];
      assert Run(store, records[..i + 1], clean) == Step(Session(rows, committed, stats), clean(records[i]));
      var cleaned := clean(records[i]);
      if cleaned.None? {
        stats := stats.(skipped := stats.skipped + 1);
      } else {
        var existing := FindCommitted(rows, committed, KeyOf(cleaned.value));
        if existing.Some? {
          rows := rows[existing.value := UpdateRow(rows[existing.value], cleaned.value)];
          stats := stats.(updated := stats.updated + 1);
        } else {
          rows := rows + [NewRow(cleaned.value)];
          stats := stats.(inserted := stats.inserted + 1);
        }
        if (stats.inserted + stats.updated) % CommitEvery == 0 {
          committed := |rows|;
        }
      }
    }
    assert records[..|records|] == records;
    RunCounts(store, records, clean);
    RunKeySet(store, records, clean);
    RunKeepsRows(store, records, clean);
  }

  // ---------------------------------------------------------------------------
  // the intended upsert: one row per key

  type Store = map<RecordKey, MarketPrice>

  /** Every row sits under its own key. */
  predicate WellKeyed(store: Store) {
    forall k :: k in store ==> RowKey(store[k]) == k
  }

  /** Adding one key to the accepted set adds one new key exactly when it was
      neither accepted before nor already stored. */
  lemma NewKeysStep(seen: set<RecordKey>, base: set<RecordKey>, k: RecordKey)
    ensures |(seen + {k}) - base| == |seen - base| + (if k in seen + base then 0 else 1)
  {
    if k in seen + base {
      assert (seen + {k}) - base == seen - base;
    } else {
      assert (seen + {k}) - base == (seen - base) + {k};
    }
  }

  /** Where the table and the counters stand after some records. */
  datatype Outcome = Outcome(table: Store, stats: Stats)

  /** One record of the intended upsert: a rejected record
      is counted as skipped; otherwise the row with the record's key is updated
      in place (its trend fields untouched) or a new row is inserted, and
      nothing else in the table changes. */
  function UpsertOne(o: Outcome, cleaned: Option<Cleaned>): (r: Outcome)
    ensures cleaned.None? ==> r == o.(stats := o.stats.(skipped := o.stats.skipped + 1))
    ensures cleaned.Some? ==> forall k :: k in r.table <==> k in o.table || k == KeyOf(cleaned.value)
    ensures cleaned.Some? && KeyOf(cleaned.value) in o.table ==>
              r.stats == o.stats.(updated := o.stats.updated + 1)
    ensures cleaned.Some? && KeyOf(cleaned.value) !in o.table ==>
              r.stats == o.stats.(inserted := o.stats.inserted + 1)
    ensures cleaned.Some? ==> RowKey(r.table[KeyOf(cleaned.value)]) == KeyOf(cleaned.value)
    ensures cleaned.Some? ==> r.table[KeyOf(cleaned.value)].modalPrice == cleaned.value.modalPrice
    ensures cleaned.Some? ==> forall k :: k in o.table && k != KeyOf(cleaned.value) ==> r.table[k] == o.table[k]
    ensures forall k :: k in o.table ==>
              && r.table[k].trend == o.table[k].trend
              && r.table[k].priceChange == o.table[k].priceChange
              && r.table[k].percentageChange == o.table[k].percentageChange
  {
    match cleaned
    case None => o.(stats := o.stats.(skipped := o.stats.skipped + 1))
    case Some(c) =>
      var k := KeyOf(c);
      if k in o.table then
        Outcome(o.table[k := UpdateRow(o.table[k], c)], o.stats.(updated := o.stats.updated + 1))
      else
        Outcome(o.table[k := NewRow(c)], o.stats.(inserted := o.stats.inserted + 1))
  }

  /** The table and counters of the intended upsert after the records, one at
      a time, in order. */
  function UpsertAll(store: Store, records: seq<RawRecord>, clean: Cleaner): Outcome
    decreases |records|
  {
    if |records| == 0 then Outcome(store, Stats(0, 0, 0))
    else UpsertOne(UpsertAll(store, records[..|records| - 1], clean), clean(records[|records| - 1]))
  }

  /** Every record is counted exactly once, and the skipped ones are exactly
      those cleaning rejects. */
  lemma {:induction false} UpsertAllCounts(store: Store, records: seq<RawRecord>, clean: Cleaner)
    ensures var o := UpsertAll(store, records, clean);
      && o.stats.inserted + o.stats.updated + o.stats.skipped == |records|
      && o.stats.skipped == RejectedCount(records, clean)
    decreases |records|
  {
    if |records| > 0 {
      UpsertAllCounts(store, records[..|records| - 1], clean);
    }
  }

  /** The table holds the old keys plus the keys of accepted records. */
  lemma {:induction false} UpsertAllKeySet(store: Store, records: seq<RawRecord>, clean: Cleaner)
    ensures var o := UpsertAll(store, records, clean);
      forall k :: k in o.table <==> k in store || k in AcceptedKeys(records, clean)
    decreases |records|
  {
    if |records| > 0 {
      UpsertAllKeySet(store, records[..|records| - 1], clean);
    }
  }

  /** The number of inserts is the number of accepted keys that were new. */
  lemma {:induction false} UpsertAllInserts(store: Store, records: seq<RawRecord>, clean: Cleaner)
    ensures UpsertAll(store, records, clean).stats.inserted == |AcceptedKeys(records, clean) - store.Keys|
    decreases |records|
  {
    if |records| > 0 {
      var init := records[..|records| - 1];
      UpsertAllInserts(store, init, clean);
      var c := clean(records[|records| - 1]);
      if c.Some? {
        var k := KeyOf(c.value);
        var seen := AcceptedKeys(init, clean);
        UpsertAllKeySet(store, init, clean);
        assert k in UpsertAll(store, init, clean).table <==> k in seen + store.Keys;
        assert AcceptedKeys(records, clean) == seen + {k};
        NewKeysStep(seen, store.Keys, k);
      }
    }
  }

  /** A stored row no accepted record names is left exactly as it was, and no
      stored row loses its trend fields. */
  lemma {:induction false} UpsertAllKeepsRows(store: Store, records: seq<RawRecord>, clean: Cleaner)
    ensures var o := UpsertAll(store, records, clean);
      && (forall k :: k in store && k !in AcceptedKeys(records, clean) ==> k in o.table && o.table[k] == store[k])
      && (forall k :: k in store ==>
            && k in o.table
            && o.table[k].trend == store[k].trend
            && o.table[k].priceChange == store[k].priceChange
            && o.table[k].percentageChange == store[k].percentageChange)
    decreases |records|
  {
    if |records| > 0 {
      UpsertAllKeepsRows(store, records[..|records| - 1], clean);
      UpsertAllKeySet(store, records[..|records| - 1], clean);
    }
  }

  /** Rows stay filed under their own key. */
  lemma {:induction false} UpsertAllWellKeyed(store: Store, records: seq<RawRecord>, clean: Cleaner)
    requires WellKeyed(store)
    ensures WellKeyed(UpsertAll(store, records, clean).table)
    decreases |records|
  {
    if |records| > 0 {
      UpsertAllWellKeyed(store, records[..|records| - 1], clean);
    }
  }

  /** The intended `_process_and_store_data`: every record is counted
      exactly once as inserted, updated or skipped; a record whose key is
      already in the table, from before or from earlier in the same batch,
      updates that row, so the number inserted is the number of new distinct
      keys. */
  method UpsertBatch(store: Store, records: seq<RawRecord>, clean: Cleaner)
    returns (result: Store, stats: Stats)
    ensures stats.inserted + stats.updated + stats.skipped == |records|
    ensures stats.skipped == RejectedCount(records, clean)
    ensures forall k :: k in result <==> k in store || k in AcceptedKeys(records, clean)
    ensures stats.inserted == |AcceptedKeys(records, clean) - store.Keys|
    ensures forall k :: k in store && k !in AcceptedKeys(records, clean) ==> result[k] == store[k]
    ensures forall k :: k in store ==>
              && result[k].trend == store[k].trend
              && result[k].priceChange == store[k].priceChange
              && result[k].percentageChange == store[k].percentageChange
    ensures WellKeyed(store) ==> WellKeyed(result)
  {
    result := store;
    stats := Stats(0, 0, 0);
    for i := 0 to |records|
      invariant Outcome(result, stats) == UpsertAll(store, records[..i], clean)
    {
      assert records[..i + 1][..i] == records[..i];
      var cleaned := clean(records[i]);
      if cleaned.None? {
        stats := stats.(skipped := stats.skipped + 1);
      } else {
        var k := KeyOf(cleaned.value);
        if k in result {
          result := result[k := UpdateRow(result[k], cleaned.value)];
          stats := stats.(updated := stats.updated + 1);
        } else {
          result := result[k := NewRow(cleaned.value)];
          stats := stats.(inserted := stats.inserted + 1);
        }
      }
    }
    assert records[..|records|] == records;
    UpsertAllCounts(store, records, clean);
    UpsertAllKeySet(store, records, clean);
    UpsertAllInserts(store, records, clean);
    UpsertAllKeepsRows(store, records, clean);
    if WellKeyed(store) {
      UpsertAllWellKeyed(store, records, clean);
    }
  }

  /** Under the intended upsert the second of two records with the same new
      key updates the row the first inserted. */
  lemma SameKeyTwiceUpserts(store: Store, a: RawRecord, b: RawRecord, clean: Cleaner)
    requires clean(a).Some? && clean(b).Some?
    requires KeyOf(clean(a).value) == KeyOf(clean(b).value)
    requires KeyOf(clean(a).value) !in store
    ensures UpsertAll(store, [a, b], clean).stats == Stats(1, 1, 0)
    ensures UpsertAll(store, [a, b], clean).table.Keys == store.Keys + {KeyOf(clean(a).value)}
  {
    assert [a, b][..1] == [a] && [a][..0] == [];
    var o1 := UpsertAll(store, [a], clean);
    assert UpsertAll(store, [], clean) == Outcome(store, Stats(0, 0, 0));
    assert o1 == UpsertOne(Outcome(store, Stats(0, 0, 0)), clean(a));
    assert UpsertAll(store, [a, b], clean) == UpsertOne(o1, clean(b));
  }
}
