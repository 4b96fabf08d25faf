/**
 * The inbox collection: documents in insertion order under two unique indexes (`_id` and `dedupKey`),
 * the atomic map it is meant to behave like, and the two repositories that implement the upsert.
 */
module Inbox {
  import opened Results
  import opened Envelope

  predicate HasKey(docs: seq<InboxRecord>, key: string) {
    exists j | 0 <= j < |docs| :: docs[j].dedupKey == key
  }

  predicate HasId(docs: seq<InboxRecord>, id: string) {
    exists j | 0 <= j < |docs| :: docs[j].id == id
  }

  /** One of the two unique indexes refuses r. */
  predicate Conflict(docs: seq<InboxRecord>, r: InboxRecord) {
    HasKey(docs, r.dedupKey) || HasId(docs, r.id)
  }

  predicate UniqueKeys(docs: seq<InboxRecord>) {
    forall i, j | 0 <= i < j < |docs| :: docs[i].dedupKey != docs[j].dedupKey
  }

  predicate UniqueIds(docs: seq<InboxRecord>) {
    forall i, j | 0 <= i < j < |docs| :: docs[i].id != docs[j].id
  }

  function KeySet(docs: seq<InboxRecord>): set<string> {
    set j | 0 <= j < |docs| :: docs[j].dedupKey
  }

  /** The collection as the map from dedup key to record that the design speaks of. */
  function AsMap(docs: seq<InboxRecord>): map<string, InboxRecord> {
    if docs == [] then map[]
    else AsMap(docs[..|docs| - 1])[docs[|docs| - 1].dedupKey := docs[|docs| - 1]]
  }

  /** The atomic specification: set if absent, and say whether it was. */
  function AtomicUpsert(store: map<string, InboxRecord>, r: InboxRecord): (map<string, InboxRecord>, bool) {
    if r.dedupKey in store then (store, false) else (store[r.dedupKey := r], true)
  }

  lemma {:induction false} AsMapKeys(docs: seq<InboxRecord>)
    ensures AsMap(docs).Keys == KeySet(docs)
    ensures forall k :: k in AsMap(docs) <==> HasKey(docs, k)
  {
    if docs != [] {
      var front, last := docs[..|docs| - 1], docs[|docs| - 1];
      AsMapKeys(front);
      assert KeySet(docs) == KeySet(front) + {last.dedupKey};
      forall k ensures k in AsMap(docs) <==> HasKey(docs, k) {
        if k in KeySet(front) {
          var j :| 0 <= j < |front| && front[j].dedupKey == k;
          assert docs[j].dedupKey == k;
        }
        assert k == last.dedupKey ==> docs[|docs| - 1].dedupKey == k;
        assert forall j | 0 <= j < |front| :: docs[j] == front[j];
      }
    }
  }

  lemma AsMapAppend(docs: seq<InboxRecord>, r: InboxRecord)
    ensures AsMap(docs + [r]) == AsMap(docs)[r.dedupKey := r]
  {
    assert (docs + [r])[..|docs|] == docs;
  }

  /** Under the unique index the map holds exactly the stored documents. */
  lemma {:induction false} AsMapHoldsEveryDocument(docs: seq<InboxRecord>)
    requires UniqueKeys(docs)
    ensures forall j | 0 <= j < |docs| :: docs[j].dedupKey in AsMap(docs) && AsMap(docs)[docs[j].dedupKey] == docs[j]
  {
    if docs != [] {
      var front := docs[..|docs| - 1];
      AsMapHoldsEveryDocument(front);
      forall j | 0 <= j < |docs| ensures docs[j].dedupKey in AsMap(docs) && AsMap(docs)[docs[j].dedupKey] == docs[j] {
        if j < |front| {
          assert front[j] == docs[j];
        }
      }
    }
  }

  datatype RepositoryError = DuplicateKeyError | ConnectionError

  class InboxMongoRepository {
    var docs: seq<InboxRecord>

    ghost predicate Valid()
      reads this
    {
      UniqueKeys(docs) && UniqueIds(docs)
    }

    constructor ()
      ensures Valid() && docs == []
    {
      docs := [];
    }

    /**
     * `findOneAndUpdate({dedupKey}, {$setOnInsert: doc}, {upsert: true})`: a matching document is left
     * alone; otherwise the insert goes through both unique indexes.
     */
    method UpsertByDedupKey(record: InboxRecord, connected: bool) returns (result: Result<bool, RepositoryError>)
      requires Valid()
      modifies this
      ensures Valid()
      ensures docs == if connected && !Conflict(old(docs), record) then old(docs) + [record] else old(docs)
      ensures result == if !connected then Err(ConnectionError)
                        else if !HasKey(old(docs), record.dedupKey) && HasId(old(docs), record.id) then Err(DuplicateKeyError)
                        else Ok(AtomicUpsert(AsMap(old(docs)), record).1)
      ensures result.Ok? ==> AsMap(docs) == AtomicUpsert(AsMap(old(docs)), record).0
    {
      if !connected {
        return Err(ConnectionError);
      }
      AsMapKeys(docs);
      var updatedExisting := false;
      for i := 0 to |docs|
        invariant updatedExisting <==> exists j | 0 <= j < i :: docs[j].dedupKey == record.dedupKey
        invariant docs == old(docs)
      {
        if docs[i].dedupKey == record.dedupKey {
          updatedExisting := true;
        }
      }
      if !updatedExisting {
        if HasId(docs, record.id) {
          return Err(DuplicateKeyError);
        }
        AsMapAppend(docs, record);
        docs := docs + [record];
      }
      result := Ok(!updatedExisting);
    }
  }

  /** The in-memory repository behind the same port. */
  class InMemoryInboxRepository {
    var store: map<string, InboxRecord>

    constructor ()
      ensures store == map[]
    {
      store := map[];
    }

    method UpsertByDedupKey(record: InboxRecord) returns (inserted: bool)
      modifies this
      ensures (store, inserted) == AtomicUpsert(old(store), record)
    {
      if record.dedupKey in store {
        return false;
      }
      store := store[record.dedupKey := record];
      return true;
    }
  }
}
