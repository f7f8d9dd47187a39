/**
 * The metadata record morgoth keeps per metric: the in-memory dict
 * `_meta[metric]` and the document of the `meta` collection share one shape,
 * `{_id, version, min, max, count}`. This module holds the pure part of
 * `Meta`: folding an observed value in, merging with a stored document, and
 * what the compare-and-swap write leaves in the store.
 */
module MetaRecords {
  import opened Wrappers

  /** `{_id, version, min, max, count}`; metric values are compared only, so `real` stands for the float. */
  datatype MetaRecord = MetaRecord(id: string, version: nat, min: real, max: real, count: nat)

  /** A record that has seen at least one value and whose bounds are ordered. */
  predicate WellFormed(r: MetaRecord) {
    r.min <= r.max && r.count >= 1
  }

  function Min(a: real, b: real): real { if b < a then b else a }

  function Max(a: real, b: real): real { if b > a then b else a }

  /** `max` on counts, which are `nat` where bounds are `real`. */
  function MaxCount(a: nat, b: nat): nat { if b > a then b else a }

  /** The record `update` creates for a metric it has not seen (version 0, one value). */
  function NewMeta(metric: string, value: real): (r: MetaRecord)
    ensures WellFormed(r) && r.id == metric
  {
    MetaRecord(metric, 0, value, value, 1)
  }

  /** `update` on a known metric: the value widens the bounds and counts once. */
  function Observe(r: MetaRecord, value: real): (r': MetaRecord)
    ensures r'.id == r.id && r'.version == r.version && r'.count == r.count + 1
    ensures r'.min <= value <= r'.max
    ensures r'.min <= r.min && (r'.min == r.min || r'.min == value)
    ensures r'.max >= r.max && (r'.max == r.max || r'.max == value)
    ensures WellFormed(r) ==> WellFormed(r')
  {
    r.(min := Min(r.min, value), max := Max(r.max, value), count := r.count + 1)
  }

  /**
   * `_update` against an existing stored document: adopt the stored version,
   * keep the lower of the minima, the higher of the maxima and the higher of
   * the counts.
   */
  function Merge(local: MetaRecord, stored: MetaRecord): (r: MetaRecord)
    ensures r.id == local.id && r.version == stored.version
    ensures r.min <= local.min && r.min <= stored.min && (r.min == local.min || r.min == stored.min)
    ensures r.max >= local.max && r.max >= stored.max && (r.max == local.max || r.max == stored.max)
    ensures r.count >= local.count && r.count >= stored.count
    ensures r.count == local.count || r.count == stored.count
    ensures WellFormed(local) ==> WellFormed(r)
  {
    MetaRecord(local.id, stored.version, Min(stored.min, local.min),
               Max(stored.max, local.max), MaxCount(stored.count, local.count))
  }

  /** The in-memory record after `_update` has read the store: unchanged when nothing is stored. */
  function Reconcile(local: MetaRecord, existing: Option<MetaRecord>): MetaRecord {
    match existing
    case None => local
    case Some(stored) => Merge(local, stored)
  }

  /** What the successful conditional write leaves stored: the fields of `r`, version plus one. */
  function Committed(r: MetaRecord): MetaRecord {
    r.(version := r.version + 1)
  }

  function Lookup(docs: map<string, MetaRecord>, key: string): Option<MetaRecord> {
    if key in docs then Some(docs[key]) else None
  }

  /** The in-memory record after `update` has been called with each of `values` in turn on a known metric. */
  function ObserveAll(r: MetaRecord, values: seq<real>): MetaRecord
    decreases |values|
  {
    if values == [] then r else Observe(ObserveAll(r, values[..|values| - 1]), values[|values| - 1])
  }

  /**
   * Folding values in keeps identity and version, counts each value once,
   * and leaves bounds that enclose every value and are each attained.
   */
  lemma {:induction false} ObserveAllBounds(r: MetaRecord, values: seq<real>)
    ensures var r' := ObserveAll(r, values);
      && r'.id == r.id && r'.version == r.version && r'.count == r.count + |values|
      && r'.min <= r.min && r'.max >= r.max
      && (r'.min == r.min || r'.min in values)
      && (r'.max == r.max || r'.max in values)
      && (forall i :: 0 <= i < |values| ==> r'.min <= values[i] <= r'.max)
      && (WellFormed(r) ==> WellFormed(r'))
    decreases |values|
  {
    if values != [] {
      var init := values[..|values| - 1];
      ObserveAllBounds(r, init);
      assert forall i :: 0 <= i < |init| ==> values[i] == init[i];
    }
  }

  /**
   * The summary of a metric first seen with `values[0]` and then observed
   * with the rest: its bounds are the least and greatest value and its count
   * is the number of values.
   */
  lemma SummaryOfObservations(metric: string, values: seq<real>)
    requires |values| >= 1
    ensures var r := ObserveAll(NewMeta(metric, values[0]), values[1..]);
      && r.id == metric && r.version == 0 && r.count == |values|
      && r.min in values && r.max in values
      && (forall i :: 0 <= i < |values| ==> r.min <= values[i] <= r.max)
  {
    var rest := values[1..];
    ObserveAllBounds(NewMeta(metric, values[0]), rest);
    assert forall i :: 1 <= i < |values| ==> values[i] == rest[i - 1];
    assert forall v :: v in rest ==> v in values;
  }

  /**
   * Two writers holding local records `a` and `b` commit one after the other
   * over a stored document `s`: the result reflects the extremes of all three,
   * keeps the largest count (counts are not added) and is two versions on.
   */
  lemma TwoWritersCommit(a: MetaRecord, b: MetaRecord, s: MetaRecord)
    ensures var r := Committed(Merge(b, Committed(Merge(a, s))));
      && r.version == s.version + 2
      && r.min == Min(Min(a.min, b.min), s.min)
      && r.max == Max(Max(a.max, b.max), s.max)
      && r.count == MaxCount(MaxCount(a.count, b.count), s.count)
  {
  }
}
