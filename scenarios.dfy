/**
 * Clients of `Meta` that use only its contracts: what ends up in the
 * `meta` collection after concrete and general sequences of calls.
 */
module MetaScenarios {
  import opened Wrappers
  import opened MetaRecords
  import opened MetaStore
  import opened MorgothMeta

  /**
   * `cpu.load` observed with 10, 50 and 5, then flushed; then observed
   * with 60 and flushed again. The first value is written at once (version
   * 1), so each flush lands one version higher than a count of flushes
   * would suggest.
   */
  method CpuLoadScenario() returns (first: Option<MetaRecord>, second: Option<MetaRecord>)
    ensures first == Some(MetaRecord("cpu.load", 2, 5.0, 50.0, 3))
    ensures second == Some(MetaRecord("cpu.load", 3, 5.0, 60.0, 4))
  {
    var db := new MetaCollection();
    var meta := new Meta(db, [], (pattern, metric) => false);
    meta.Update("cpu.load", 10.0);
    meta.Update("cpu.load", 50.0);
    meta.Update("cpu.load", 5.0);
    meta.Flush();
    first := db.FindOne("cpu.load");
    meta.Update("cpu.load", 60.0);
    meta.Flush();
    second := db.FindOne("cpu.load");
  }

  /**
   * A new metric observed with each of `values`, then flushed: the stored
   * bounds are the least and greatest value and the stored count is the
   * number of values. The version is 1 after the immediate first write and
   * 2 when the flush had something pending.
   */
  method ObserveThenFlush(metric: string, values: seq<real>) returns (stored: Option<MetaRecord>)
    requires |values| >= 1
    ensures stored.Some? && stored.value.id == metric
    ensures stored.value.count == |values|
    ensures stored.value.min in values && stored.value.max in values
    ensures forall i :: 0 <= i < |values| ==> stored.value.min <= values[i] <= stored.value.max
    ensures stored.value.version == if |values| == 1 then 1 else 2
  {
    var db := new MetaCollection();
    var meta := new Meta(db, [], (pattern, metric) => false);
    meta.Update(metric, values[0]);
    ghost var first := NewMeta(metric, values[0]);
    var i := 1;
    while i < |values|
      invariant 1 <= i <= |values|
      invariant meta.Valid() && meta.db == db && !meta.finishing
      invariant meta.meta.Keys == {metric} && meta.meta[metric] == ObserveAll(first, values[1..i])
      invariant db.docs == map[metric := Committed(first)]
      invariant meta.needsUpdating == if i == 1 then {} else {metric}
      modifies meta, db
    {
      assert values[1..i + 1][..i - 1] == values[1..i];
      meta.Update(metric, values[i]);
      i := i + 1;
    }
    assert values[1..i] == values[1..];
    meta.Flush();
    stored := db.FindOne(metric);
    SummaryOfObservations(metric, values);
  }

  /**
   * Two processes share the `meta` collection. A sees 10 first and writes
   * it; B then sees 3 and, finding A's document, merges with it; A sees 20
   * and flushes, merging with B's document. The stored bounds cover all
   * three values; the count is the larger of the two local counts, not
   * their sum.
   */
  method TwoWritersScenario() returns (stored: Option<MetaRecord>)
    ensures stored == Some(MetaRecord("m", 3, 3.0, 20.0, 2))
  {
    var db := new MetaCollection();
    var a := new Meta(db, [], (pattern, metric) => false);
    var b := new Meta(db, [], (pattern, metric) => false);
    a.Update("m", 10.0);
    b.Update("m", 3.0);
    a.Update("m", 20.0);
    a.Flush();
    stored := db.FindOne("m");
  }

  /**
   * A pending metric is written by `finish`; afterwards `update` is
   * ignored and a second `finish` changes nothing.
   */
  method ShutdownScenario() returns (stored: Option<MetaRecord>, pending: set<string>, kept: MetaRecord)
    ensures stored == Some(MetaRecord("m", 2, 1.0, 4.0, 2))
    ensures pending == {}
    ensures kept == MetaRecord("m", 1, 1.0, 4.0, 2)
  {
    var db := new MetaCollection();
    var meta := new Meta(db, [], (pattern, metric) => false);
    meta.Update("m", 1.0);
    meta.Update("m", 4.0);
    meta.Finish();
    meta.Update("m", 9.0);
    meta.Finish();
    stored := db.FindOne("m");
    pending := meta.needsUpdating;
    kept := meta.meta["m"];
  }

  /**
   * The task spawned for a pending metric returns without writing: after it
   * the metric is still pending and the stored document still holds only
   * the first value.
   */
  method DeferredUpdateScenario() returns (stored: Option<MetaRecord>, pending: set<string>)
    ensures stored == Some(MetaRecord("m", 1, 1.0, 1.0, 1))
    ensures pending == {"m"}
  {
    var db := new MetaCollection();
    var meta := new Meta(db, [], (pattern, metric) => false);
    meta.Update("m", 1.0);
    meta.Update("m", 5.0);
    meta.Update("m", 7.0);
    meta.UpdateEventually("m");
    stored := db.FindOne("m");
    pending := meta.needsUpdating;
  }

  /**
   * `delete_metric` drops only the stored document: the in-memory record
   * survives, and the next flush inserts it again under its in-memory
   * version, counting the values seen before the delete.
   */
  method DeleteThenFlushScenario() returns (afterDelete: Option<MetaRecord>, stored: Option<MetaRecord>)
    ensures afterDelete == None
    ensures stored == Some(MetaRecord("m", 1, 1.0, 2.0, 2))
  {
    var db := new MetaCollection();
    var meta := new Meta(db, [], (pattern, metric) => false);
    meta.Update("m", 1.0);
    meta.DeleteMetric("m");
    afterDelete := db.FindOne("m");
    meta.Update("m", 2.0);
    meta.Flush();
    stored := db.FindOne("m");
  }
}
