/**
 * morgoth's `Meta`: the in-memory metadata of every metric (`_meta`), the
 * set of metrics whose metadata still has to be written (`_needs_updating`),
 * the shutdown flag (`_finishing`) and the pattern table that picks each
 * metric's manager. Python keeps this as class-level state; here it is one
 * object, sharing its `meta` collection with any other writer.
 */
module MorgothMeta {
  import opened Wrappers
  import opened MetaRecords
  import opened MetaStore

  /** A `MetricManager` configured for a pattern, or the fallback `NullMetricManager`. */
  datatype Manager = NullMetricManager | MetricManager(pattern: string)

  /**
   * `m1`/`d1` are what syncing each metric of `synced` once, starting from
   * `m0`/`d0`, leaves: every synced metric is reconciled with what was stored
   * for it and stored as committed, and nothing else changed.
   */
  ghost predicate Drained(m0: map<string, MetaRecord>, d0: map<string, MetaRecord>, synced: set<string>,
                          m1: map<string, MetaRecord>, d1: map<string, MetaRecord>)
  {
    && synced <= m0.Keys
    && m1.Keys == m0.Keys
    && (forall k :: k in m0 ==> m1[k] == if k in synced then Reconcile(m0[k], Lookup(d0, k)) else m0[k])
    && (forall k :: k in synced ==> k in d1 && d1[k] == Committed(m1[k]))
    && (forall k :: k !in synced ==> Lookup(d1, k) == Lookup(d0, k))
  }

  /** Syncing one more not-yet-synced metric extends a drain by that metric. */
  lemma DrainedStep(m0: map<string, MetaRecord>, d0: map<string, MetaRecord>, synced: set<string>,
                    m1: map<string, MetaRecord>, d1: map<string, MetaRecord>, k: string,
                    m2: map<string, MetaRecord>, d2: map<string, MetaRecord>)
    requires Drained(m0, d0, synced, m1, d1)
    requires k in m0 && k !in synced
    requires m2 == m1[k := Reconcile(m1[k], Lookup(d1, k))]
    requires d2 == d1[k := Committed(m2[k])]
    ensures Drained(m0, d0, synced + {k}, m2, d2)
  {
  }

  class Meta {
    /** `_meta`: the metadata of every metric seen, by name. */
    var meta: map<string, MetaRecord>
    /** `_needs_updating`: metrics changed since their last write. */
    var needsUpdating: set<string>
    /** `_finishing`: set once by `finish`. */
    var finishing: bool
    /** `_managers`, in iteration order: each pattern with its manager. */
    const managers: seq<(string, Manager)>
    /** `re.match(pattern, metric)`, left abstract. */
    const matches: (string, string) -> bool
    /** `_db.meta`. */
    const db: MetaCollection

    ghost predicate Valid()
      reads this, db
    {
      && (forall k :: k in meta ==> meta[k].id == k && WellFormed(meta[k]))
      && needsUpdating <= meta.Keys
      && db.Valid()
    }

    /** The class-level initial state: nothing known, nothing pending, not finishing. */
    constructor (db: MetaCollection, managers: seq<(string, Manager)>, matches: (string, string) -> bool)
      requires db.Valid()
      ensures Valid()
      ensures meta == map[] && needsUpdating == {} && !finishing
      ensures this.db == db && this.managers == managers && this.matches == matches
    {
      this.meta := map[];
      this.needsUpdating := {};
      this.finishing := false;
      this.managers := managers;
      this.matches := matches;
      this.db := db;
    }

    /**
     * `update`: ignored once finishing. An unseen metric gets a fresh record
     * that is written at once; a known one folds the value in and becomes
     * pending, unless it already is.
     */
    method Update(metric: string, value: real)
      requires Valid()
      modifies this, db
      ensures Valid()
      ensures finishing == old(finishing)
      ensures old(finishing) ==>
        meta == old(meta) && needsUpdating == old(needsUpdating) && db.docs == old(db.docs)
      ensures !old(finishing) && metric !in old(meta) ==>
        && meta == old(meta)[metric := Reconcile(NewMeta(metric, value), Lookup(old(db.docs), metric))]
        && db.docs == old(db.docs)[metric := Committed(meta[metric])]
        && needsUpdating == old(needsUpdating)
      ensures !old(finishing) && metric !in old(meta) && metric !in old(db.docs) ==>
        && meta[metric] == MetaRecord(metric, 0, value, value, 1)
        && db.docs[metric] == MetaRecord(metric, 1, value, value, 1)
      ensures !old(finishing) && metric in old(meta) ==>
        && meta == old(meta)[metric := Observe(old(meta[metric]), value)]
        && needsUpdating == old(needsUpdating) + {metric}
        && db.docs == old(db.docs)
    {
      if finishing {
        return;
      }
      if metric !in meta {
        meta := meta[metric := NewMeta(metric, value)];
        PerformUpdate(metric);
      } else {
        meta := meta[metric := Observe(meta[metric], value)];
        if metric !in needsUpdating {
          needsUpdating := needsUpdating + {metric};
          UpdateEventually(metric);
        }
      }
    }

    /**
     * `finish`: the first call sets the flag and syncs pending metrics until
     * none is left; later calls do nothing.
     */
    method Finish()
      requires Valid()
      modifies this, db
      ensures Valid() && finishing
      ensures old(finishing) ==>
        meta == old(meta) && needsUpdating == old(needsUpdating) && db.docs == old(db.docs)
      ensures !old(finishing) ==>
        needsUpdating == {} && Drained(old(meta), old(db.docs), old(needsUpdating), meta, db.docs)
    {
      if !finishing {
        finishing := true;
        while |needsUpdating| > 0
          invariant Valid() && finishing
          invariant needsUpdating <= old(needsUpdating)
          invariant Drained(old(meta), old(db.docs), old(needsUpdating) - needsUpdating, meta, db.docs)
          decreases |needsUpdating|
        {
          var metric :| metric in needsUpdating;
          ghost var (m1, d1, pending) := (meta, db.docs, needsUpdating);
          PerformUpdate(metric);
          DrainedStep(old(meta), old(db.docs), old(needsUpdating) - pending, m1, d1, metric, meta, db.docs);
          assert old(needsUpdating) - needsUpdating == (old(needsUpdating) - pending) + {metric};
        }
      }
    }

    /** `flush`: sync every metric pending when it is called. */
    method Flush()
      requires Valid()
      modifies this, db
      ensures Valid() && finishing == old(finishing)
      ensures needsUpdating == {}
      ensures Drained(old(meta), old(db.docs), old(needsUpdating), meta, db.docs)
    {
      var metrics := needsUpdating;
      while metrics != {}
        invariant Valid() && finishing == old(finishing)
        invariant needsUpdating == metrics && metrics <= old(needsUpdating)
        invariant Drained(old(meta), old(db.docs), old(needsUpdating) - metrics, meta, db.docs)
        decreases metrics
      {
        var metric :| metric in metrics;
        ghost var (m1, d1) := (meta, db.docs);
        PerformUpdate(metric);
        DrainedStep(old(meta), old(db.docs), old(needsUpdating) - metrics, m1, d1, metric, meta, db.docs);
        assert old(needsUpdating) - (metrics - {metric}) == (old(needsUpdating) - metrics) + {metric};
        metrics := metrics - {metric};
      }
    }

    /**
     * `_update_eventually`, the task `update` spawns: it waits for the
     * refresh interval and returns without syncing anything.
     */
    method UpdateEventually(metric: string)
      ensures unchanged(this, db)
    {
      if finishing {
        return;
      }
    }

    /**
     * `_update`: clear the pending mark, then read the stored document, merge
     * it in (or insert the record when there is none) and write with the
     * version as guard, until the write matches.
     */
    method PerformUpdate(metric: string)
      requires Valid() && metric in meta
      modifies this, db
      ensures Valid()
      ensures finishing == old(finishing)
      ensures needsUpdating == old(needsUpdating) - {metric}
      ensures meta == old(meta)[metric := Reconcile(old(meta[metric]), Lookup(old(db.docs), metric))]
      ensures db.docs == old(db.docs)[metric := Committed(meta[metric])]
      ensures metric in old(db.docs) ==>
        && db.docs[metric].version == old(db.docs[metric].version) + 1
        && db.docs[metric].min <= old(db.docs[metric].min)
        && db.docs[metric].max >= old(db.docs[metric].max)
        && db.docs[metric].count >= old(db.docs[metric].count)
    {
      if metric in needsUpdating {
        needsUpdating := needsUpdating - {metric};
      }
      var m := meta[metric];
      var success := false;
      while !success
        invariant Valid() && finishing == old(finishing)
        invariant needsUpdating == old(needsUpdating) - {metric}
        invariant !success ==> meta == old(meta) && db.docs == old(db.docs) && m == old(meta[metric])
        invariant success ==>
          && meta == old(meta)[metric := Reconcile(old(meta[metric]), Lookup(old(db.docs), metric))]
          && db.docs == old(db.docs)[metric := Committed(meta[metric])]
        decreases !success
      {
        var existing := db.FindOne(metric);
        if existing.None? {
          var _ := InitNewMetric(metric, m);
        } else {
          m := Merge(m, existing.value);
          meta := meta[metric := m];
        }
        success := db.Update(metric, m.version, m.min, m.max, m.count);
      }
    }

    /** `_init_new_metric`, its insert only: store the record as the metric's first document. */
    method InitNewMetric(metric: string, m: MetaRecord) returns (inserted: bool)
      requires db.Valid() && m.id == metric
      modifies db
      ensures db.Valid()
      ensures inserted <==> metric !in old(db.docs)
      ensures db.docs == if inserted then old(db.docs)[metric := m] else old(db.docs)
    {
      inserted := db.Insert(m);
    }

    /** `_match_metric`: the manager of the first pattern that matches, else the null manager. */
    method MatchMetric(metric: string) returns (manager: Manager)
      ensures
        || (exists i :: 0 <= i < |managers| && matches(managers[i].0, metric) && manager == managers[i].1
              && forall j :: 0 <= j < i ==> !matches(managers[j].0, metric))
        || ((forall i :: 0 <= i < |managers| ==> !matches(managers[i].0, metric)) && manager == NullMetricManager)
      ensures (forall i :: 0 <= i < |managers| ==> managers[i].1.MetricManager?) ==>
        (manager == NullMetricManager <==> forall i :: 0 <= i < |managers| ==> !matches(managers[i].0, metric))
    {
      for i := 0 to |managers|
        invariant forall j :: 0 <= j < i ==> !matches(managers[j].0, metric)
      {
        if matches(managers[i].0, metric) {
          return managers[i].1;
        }
      }
      return NullMetricManager;
    }

    /** `delete_metric`, on the `meta` collection: drop the stored document; memory is left as it is. */
    method DeleteMetric(metric: string)
      requires Valid()
      modifies db
      ensures Valid()
      ensures db.docs == old(db.docs) - {metric}
      ensures unchanged(this)
    {
      db.Remove(metric);
    }
  }
}
