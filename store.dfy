/**
 * The `meta` collection of morgoth's MongoDB database, reduced to what
 * `Meta` relies on: documents keyed by `_id`, `find_one` by key, `insert`,
 * the conditional `update` (match `_id` and `version`, `$set` the bounds and
 * count, `$inc` the version) and `remove`. Access is sequential.
 */
module MetaStore {
  import opened Wrappers
  import opened MetaRecords

  class MetaCollection {
    /** The stored documents, by `_id`. */
    var docs: map<string, MetaRecord>

    ghost predicate Valid()
      reads this
    {
      forall k :: k in docs ==> docs[k].id == k
    }

    constructor ()
      ensures Valid() && docs == map[]
    {
      docs := map[];
    }

    /** `find_one({'_id': id})`. */
    method FindOne(id: string) returns (doc: Option<MetaRecord>)
      requires Valid()
      ensures doc.Some? <==> id in docs
      ensures doc.Some? ==> doc.value == docs[id] && doc.value.id == id
    {
      doc := if id in docs then Some(docs[id]) else None;
    }

    /** `insert(doc)`: refused, with nothing written, when the `_id` is already taken. */
    method Insert(doc: MetaRecord) returns (ok: bool)
      requires Valid()
      modifies this
      ensures Valid()
      ensures ok == (doc.id !in old(docs))
      ensures docs == if ok then old(docs)[doc.id := doc] else old(docs)
    {
      ok := doc.id !in docs;
      if ok {
        docs := docs[doc.id := doc];
      }
    }

    /**
     * The compare-and-swap write: when a document with this `_id` and this
     * `version` is stored, set its bounds and count and increment its version;
     * otherwise write nothing. The result is `updatedExisting`.
     */
    method Update(id: string, version: nat, min: real, max: real, count: nat) returns (updatedExisting: bool)
      requires Valid()
      modifies this
      ensures Valid()
      ensures updatedExisting <==> id in old(docs) && old(docs)[id].version == version
      ensures docs == if updatedExisting
                      then old(docs)[id := MetaRecord(id, version + 1, min, max, count)]
                      else old(docs)
    {
      updatedExisting := id in docs && docs[id].version == version;
      if updatedExisting {
        docs := docs[id := docs[id].(version := version + 1, min := min, max := max, count := count)];
      }
    }

    /** `remove({'_id': id})`. */
    method Remove(id: string)
      requires Valid()
      modifies this
      ensures Valid()
      ensures docs == old(docs) - {id}
    {
      docs := docs - {id};
    }
  }
}
