/** The in-memory repository: a map of entries written and deleted in place, and the retry loop of
    an edit against it while others write between its reads and its writes. */
module MemoryRepository {
  import opened Text
  import D = Documents

  class MemoryRepository {
    var store: map<Text, D.Row>
    var now: nat

    /** What the document model sees of one key. */
    function Slot(key: Text): D.Store
      reads this
    {
      SlotOf(store, now, key)
    }

    constructor ()
      ensures store == map[]
    {
      store, now := map[], 0;
    }

    method Live(key: Text) returns (entry: Option<D.Row>)
      ensures entry == D.Live(Slot(key))
      ensures entry.Some? <==> key in store && (store[key].deadline <= 0 || now <= store[key].deadline)
      ensures entry.Some? ==> entry.value == store[key]
    {
      if key !in store {
        return None;
      }
      var found := store[key];
      if found.deadline > 0 && found.deadline < now {
        return None;
      }
      return Some(found);
    }

    method Write(key: Text, document: D.Document, ttl: nat)
      modifies this
      ensures now == old(now) && Slot(key).row == D.Written(old(Slot(key)), document, ttl).row
      ensures store == old(store)[key := D.Row(document, D.OfContent(document), if ttl == 0 then 0 else now + ttl)]
    {
      store := store[key := D.Row(document, D.OfContent(document), if ttl > 0 then now + ttl else 0)];
    }

    method Delete(key: Text)
      modifies this
      ensures now == old(now) && Slot(key) == D.Deleted(old(Slot(key))) && store == old(store) - {key}
    {
      store := store - {key};
    }

    method GetRevision(key: Text) returns (document: Option<D.Document>, token: Option<D.Token>)
      ensures document == D.LiveDocument(Slot(key)) && token == D.LiveToken(Slot(key))
    {
      var entry := Live(key);
      if entry.None? {
        return None, None;
      }
      return Some(entry.value.document), Some(entry.value.token);
    }

    method CompareAndSet(key: Text, expected: Option<D.Token>, document: D.Document, ttl: nat) returns (written: bool)
      modifies this
      ensures now == old(now) && (!written ==> store == old(store))
      ensures written == D.CompareAndSet(old(Slot(key)), expected, D.OfContent(document), document, ttl).1
      ensures Slot(key).row == D.CompareAndSet(old(Slot(key)), expected, D.OfContent(document), document, ttl).0.row
      ensures forall other :: other != key ==> Slot(other) == old(Slot(other))
    {
      var entry := Live(key);
      var token := if entry.Some? then Some(entry.value.token) else None;
      if token != expected {
        return false;
      }
      Write(key, document, ttl);
      return true;
    }

    /** `editDocument`. Between the read and the write of attempt `k` the whole store becomes
        `others[k]`, if given. The first attempt in which that leaves the document as it was read
        succeeds, and the edit gives up exactly if there is none among those it may make. */
    method EditDocument(key: Text, e: D.Edit, others: seq<map<Text, D.Row>>)
      returns (r: Option<D.Document>, attempts: nat, ghost found: Option<D.Document>)
      requires AllHashed(store) && forall k :: 0 <= k < |others| ==> AllHashed(others[k])
      modifies this
      ensures 1 <= attempts <= Max(e.maxRetries, 0) + 1
      ensures r.Some? ==> r.value == D.Edited(e, found) && D.LiveDocument(Slot(key)) == r
      ensures r.Some? ==>
        found == D.LiveDocument(SlotOf(if attempts <= |others| then others[attempts - 1]
                                       else if |others| > 0 then others[|others| - 1] else old(store), now, key))
      ensures forall k :: 0 <= k < attempts - 1 ==> Disturbed(old(store), others, now, key, k)
      ensures r.None? <==> Disturbed(old(store), others, now, key, attempts - 1)
      ensures r.None? ==> attempts == Max(e.maxRetries, 0) + 1
      ensures r.Some? ==> key in store && store[key].deadline == if e.ttl == 0 then 0 else now + e.ttl
    {
      attempts := 0;
      while true
        invariant attempts <= Max(e.maxRetries, 0) && now == old(now) && AllHashed(store)
        invariant store == if attempts == 0 || |others| == 0 then old(store)
                           else if attempts <= |others| then others[attempts - 1] else others[|others| - 1]
        invariant forall k :: 0 <= k < attempts ==> Disturbed(old(store), others, now, key, k)
        decreases Max(e.maxRetries, 0) - attempts
      {
        var document, token := GetRevision(key);
        var edited := D.Edited(e, document);
        if attempts < |others| {
          store := others[attempts];
        }
        found := D.LiveDocument(Slot(key));
        SameTokenSameDocument(Slot(key), token, document);
        D.WrittenIsLive(Slot(key), D.OfContent(edited), edited, e.ttl);
        D.AdmitsIffLiveToken(Slot(key), token);
        var written := CompareAndSet(key, token, edited, e.ttl);
        attempts := attempts + 1;
        if written {
          assert D.LiveDocument(Slot(key)) == Some(edited);
          return Some(edited), attempts, found;
        }
        if attempts - 1 >= e.maxRetries {
          return None, attempts, found;
        }
      }
    }
  }

  function SlotOf(store: map<Text, D.Row>, now: nat, key: Text): D.Store {
    D.Store(D.Memory, if key in store then Some(store[key]) else None, now, [])
  }

  /** Every entry's token is the hash of what it holds. */
  predicate AllHashed(store: map<Text, D.Row>) {
    forall key <- store :: store[key].token == D.OfContent(store[key].document)
  }

  /** What attempt `k` reads. */
  function Read(store: map<Text, D.Row>, others: seq<map<Text, D.Row>>, now: nat, key: Text, k: nat): Option<D.Document> {
    D.LiveDocument(SlotOf(if k == 0 || |others| == 0 then store else others[Min(k, |others|) - 1], now, key))
  }

  /** Attempt `k` does not find again what it read. */
  predicate Disturbed(store: map<Text, D.Row>, others: seq<map<Text, D.Row>>, now: nat, key: Text, k: nat) {
    k < |others| && D.LiveDocument(SlotOf(others[k], now, key)) != Read(store, others, now, key, k)
  }

  lemma SameTokenSameDocument(s: D.Store, token: Option<D.Token>, document: Option<D.Document>)
    requires s.row.Some? ==> s.row.value.token == D.OfContent(s.row.value.document)
    requires token == (if document.Some? then Some(D.OfContent(document.value)) else None)
    ensures D.LiveToken(s) == token <==> D.LiveDocument(s) == document
  {
  }
}
