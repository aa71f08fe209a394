/** What the feed service reads and writes once the index holds references: resolving
    references into feed items (`getEventFeed`), the document and index entry an append
    creates, the document an update overwrites, and the two analytics aggregates. */
module FeedQueries {
  import opened Common
  import opened FeedModel
  import opened Sorting
  import opened FeedMigration

  /** The payload the API shows for the document `id` of kind `t`'s collection, if there is
      such a document (`?? undefined` turns a stored null back into an absent field). */
  function StoredPayload(t: EntryType, id: Id, docs: Collections): Option<Payload> {
    match t
    case COMMENT =>
      if id in docs.comments then Some(CommentPayload(docs.comments[id].message, docs.comments[id].author)) else None
    case CHECKIN =>
      if id in docs.checkins then
        var c := docs.checkins[id];
        Some(CheckinPayload(c.attendee, c.source, c.meta))
      else None
    case PHOTO =>
      if id in docs.photos then Some(PhotoPayload(docs.photos[id].url, docs.photos[id].caption)) else None
  }

  /** The event and the time of the document `id` of kind `t`'s collection: the fields an
      update never writes. */
  function StoredHeader(t: EntryType, id: Id, docs: Collections): Option<(Id, int)> {
    match t
    case COMMENT => if id in docs.comments then Some((docs.comments[id].eventId, docs.comments[id].ts)) else None
    case CHECKIN => if id in docs.checkins then Some((docs.checkins[id].eventId, docs.checkins[id].ts)) else None
    case PHOTO => if id in docs.photos then Some((docs.photos[id].eventId, docs.photos[id].ts)) else None
  }

  /** A stored payload always has the kind of the collection it came from. */
  lemma StoredPayloadKind(t: EntryType, id: Id, docs: Collections)
    ensures StoredPayload(t, id, docs).Some? ==> PayloadKind(StoredPayload(t, id, docs).value) == t
    ensures StoredPayload(t, id, docs).Some? <==> StoredHeader(t, id, docs).Some?
  {
  }

  /** One index entry as a feed item: a reference of a known kind whose document exists.
      The lookup is by identifier only; the document's own event is not compared. */
  function Resolve(e: IndexEntry, docs: Collections): (r: Option<FeedItem>)
    ensures r.Some? ==> && e.Ref? && KindName(r.value.kind) == e.kind
                        && r.value.itemId == e.itemId && r.value.ts == e.ts
                        && StoredPayload(r.value.kind, e.itemId, docs) == Some(r.value.payload)
    ensures e.Ref? && ParseKind(e.kind).Some? && StoredPayload(ParseKind(e.kind).value, e.itemId, docs).Some?
            ==> r.Some?
  {
    if e.Legacy? then None
    else
      match ParseKind(e.kind)
      case None => None
      case Some(t) =>
        match StoredPayload(t, e.itemId, docs)
        case None => None
        case Some(p) => Some(FeedItem(t, e.itemId, p, e.ts))
  }

  /** Resolves every entry in order and drops those that do not resolve. */
  function ResolveAll(entries: seq<IndexEntry>, docs: Collections): seq<FeedItem>
    decreases |entries|
  {
    if entries == [] then []
    else
      var rest := ResolveAll(entries[1..], docs);
      match Resolve(entries[0], docs)
      case None => rest
      case Some(x) => [x] + rest
  }

  /** `getEventFeed` on an index that holds references only: sort by time, newest first
      (stable), then resolve. */
  function EventFeed(entries: seq<IndexEntry>, docs: Collections): seq<FeedItem> {
    ResolveAll(SortBy(entries, NewerOrSame), docs)
  }

  /** Items are listed newest first. */
  ghost predicate NewestFirst(items: seq<FeedItem>) {
    forall i, j :: 0 <= i < j < |items| ==> items[i].ts >= items[j].ts
  }

  /** The index order `{ ts: -1 }` can order any two entries, consistently. */
  lemma NewerOrSameIsTotal()
    ensures TotalPreorder(NewerOrSame)
  {
    forall a: IndexEntry, b: IndexEntry, c: IndexEntry | NewerOrSame(a, b) && NewerOrSame(b, c)
      ensures NewerOrSame(a, c)
    {
      if SortTs(c).Some? {
        assert SortTs(b).Some?;
      }
    }
  }

  /** Resolution keeps at most every entry, and an item is in the output exactly when some
      entry of the input resolves to it. */
  lemma {:induction false} ResolveAllMembers(entries: seq<IndexEntry>, docs: Collections)
    ensures |ResolveAll(entries, docs)| <= |entries|
    ensures forall x :: x in ResolveAll(entries, docs) <==> exists e :: e in entries && Resolve(e, docs) == Some(x)
    decreases |entries|
  {
    if entries != [] {
      ResolveAllMembers(entries[1..], docs);
      assert entries == [entries[0]] + entries[1..];
      forall x ensures x in ResolveAll(entries, docs) <==> exists e :: e in entries && Resolve(e, docs) == Some(x) {
        if x in ResolveAll(entries, docs) && Resolve(entries[0], docs) != Some(x) {
          assert x in ResolveAll(entries[1..], docs);
        }
      }
    }
  }

  /** Resolution keeps the relative order, so a sorted index gives a sorted feed. */
  lemma {:induction false} ResolveAllKeepsOrder(entries: seq<IndexEntry>, docs: Collections)
    requires SortedBy(entries, NewerOrSame)
    ensures NewestFirst(ResolveAll(entries, docs))
    decreases |entries|
  {
    if entries != [] {
      var rest := entries[1..];
      assert SortedBy(rest, NewerOrSame) by {
        forall i, j | 0 <= i < j < |rest| ensures NewerOrSame(rest[i], rest[j]) {
          assert rest[i] == entries[i + 1] && rest[j] == entries[j + 1];
        }
      }
      ResolveAllKeepsOrder(rest, docs);
      ResolveAllMembers(rest, docs);
      var tail := ResolveAll(rest, docs);
      match Resolve(entries[0], docs)
      case None =>
      case Some(x) =>
        forall j | 0 <= j < |tail| ensures x.ts >= tail[j].ts {
          assert tail[j] in tail;
          var e :| e in rest && Resolve(e, docs) == Some(tail[j]);
          var k :| 0 <= k < |rest| && rest[k] == e;
          assert entries[k + 1] == e;
          assert NewerOrSame(entries[0], e);
        }
        var r := ResolveAll(entries, docs);
        assert r == [x] + tail;
        forall i, j | 0 <= i < j < |r| ensures r[i].ts >= r[j].ts {
          if i > 0 {
            assert r[i] == tail[i - 1] && r[j] == tail[j - 1];
          } else {
            assert r[j] == tail[j - 1];
          }
        }
    }
  }

  /** `getEventFeed`: newest first, no longer than the index (so an empty index gives an
      empty feed), and an item appears exactly when some index entry resolves to it, so
      every dangling reference is dropped. */
  lemma EventFeedProperties(entries: seq<IndexEntry>, docs: Collections)
    ensures NewestFirst(EventFeed(entries, docs))
    ensures |EventFeed(entries, docs)| <= |entries|
    ensures forall x :: x in EventFeed(entries, docs) <==> exists e :: e in entries && Resolve(e, docs) == Some(x)
  {
    var sorted := SortBy(entries, NewerOrSame);
    NewerOrSameIsTotal();
    SortBySorted(entries, NewerOrSame);
    SortByMembers(entries, NewerOrSame);
    ResolveAllKeepsOrder(sorted, docs);
    ResolveAllMembers(sorted, docs);
  }

  /** Adding documents never breaks a resolution that already worked. */
  lemma ResolveGrows(e: IndexEntry, d1: Collections, d2: Collections)
    requires Grows(d1, d2) && Resolve(e, d1).Some?
    ensures Resolve(e, d2) == Resolve(e, d1)
  {
  }

  /** After the repair every surviving legacy entry shows in the feed, with its kind and
      its time (or the repair's time when it had none). */
  lemma MigratedLegacyEntriesResolve(entries: seq<IndexEntry>, docs: Collections, nextId: nat, eventId: Id, now: int)
    requires CollectionsBelow(docs, nextId)
    ensures var m := MigrateIndex(entries, docs, nextId, eventId, now);
            var s := Survivors(entries);
      && |m.entries| == |s|
      && forall i :: 0 <= i < |s| && s[i].Legacy? ==>
        && Resolve(m.entries[i], m.docs).Some?
        && KindName(Resolve(m.entries[i], m.docs).value.kind) == s[i].kind
        && Resolve(m.entries[i], m.docs).value.ts == EntryTime(s[i], now)
  {
    MigrateIndexRepairs(entries, docs, nextId, eventId, now);
  }

  // ---------------------------------------------------------------- append

  /** The collections once the document for `p` is created under `id` for the event. */
  function WithDocument(docs: Collections, id: Id, eventId: Id, p: Payload, ts: int): (r: Collections)
    ensures StoredPayload(PayloadKind(p), id, r) == Some(p)
    ensures StoredHeader(PayloadKind(p), id, r) == Some((eventId, ts))
    ensures r.comments == if p.CommentPayload? then docs.comments[id := r.comments[id]] else docs.comments
    ensures r.checkins == if p.CheckinPayload? then docs.checkins[id := r.checkins[id]] else docs.checkins
    ensures r.photos == if p.PhotoPayload? then docs.photos[id := r.photos[id]] else docs.photos
  {
    match p
    case CommentPayload(message, author) =>
      docs.(comments := docs.comments[id := Comment(eventId, message, author, ts)])
    case CheckinPayload(attendee, source, meta) =>
      docs.(checkins := docs.checkins[id := Checkin(eventId, attendee, source, meta, ts)])
    case PhotoPayload(url, caption) =>
      docs.(photos := docs.photos[id := Photo(eventId, url, caption, ts)])
  }

  /** The index after `$push` with `$each` and `$sort: { ts: -1 }`; among entries with
      the same `ts` the model puts the new one last. */
  function AppendIndex(entries: seq<IndexEntry>, e: IndexEntry): (r: seq<IndexEntry>)
    ensures multiset(r) == multiset(entries) + multiset{e}
  {
    SortBy(entries + [e], NewerOrSame)
  }

  /** The appended index is sorted newest first and holds the old entries and the new one. */
  lemma AppendIndexSorted(entries: seq<IndexEntry>, e: IndexEntry)
    ensures SortedBy(AppendIndex(entries, e), NewerOrSame)
    ensures forall x :: x in AppendIndex(entries, e) <==> x in entries || x == e
  {
    NewerOrSameIsTotal();
    SortBySorted(entries + [e], NewerOrSame);
    SortByMembers(entries + [e], NewerOrSame);
  }

  /** Creating a document under a fresh identifier changes no existing document. */
  lemma WithDocumentGrows(docs: Collections, nextId: nat, eventId: Id, p: Payload, ts: int)
    requires CollectionsBelow(docs, nextId)
    ensures Grows(docs, WithDocument(docs, nextId, eventId, p, ts))
    ensures CollectionsBelow(WithDocument(docs, nextId, eventId, p, ts), nextId + 1)
  {
  }

  /** The item `appendFeedEntry` returns is the one a later `getEventFeed` shows: the new
      reference resolves to it, and the repair the read runs first keeps the reference. */
  lemma AppendedEntryIsVisible(entries: seq<IndexEntry>, docs: Collections, nextId: nat, eventId: Id, p: Payload, ts: int, now: int)
    requires CollectionsBelow(docs, nextId)
    ensures var docs' := WithDocument(docs, nextId, eventId, p, ts);
            var ref := Ref(KindName(PayloadKind(p)), nextId, ts);
            var entries' := AppendIndex(entries, ref);
            var m := MigrateIndex(entries', docs', nextId + 1, eventId, now);
      FeedItem(PayloadKind(p), nextId, p, ts) in EventFeed(m.entries, m.docs)
  {
    var docs' := WithDocument(docs, nextId, eventId, p, ts);
    var ref := Ref(KindName(PayloadKind(p)), nextId, ts);
    var entries' := AppendIndex(entries, ref);
    var item := FeedItem(PayloadKind(p), nextId, p, ts);
    WithDocumentGrows(docs, nextId, eventId, p, ts);
    assert ParseKind(ref.kind) == Some(PayloadKind(p));
    assert Resolve(ref, docs') == Some(item);
    AppendIndexSorted(entries, ref);
    MigrateKeepsReference(entries', docs', nextId + 1, eventId, now, ref);
    MigrateIndexRepairs(entries', docs', nextId + 1, eventId, now);
    var m := MigrateIndex(entries', docs', nextId + 1, eventId, now);
    ResolveGrows(ref, docs', m.docs);
    EventFeedProperties(m.entries, m.docs);
  }

  // ---------------------------------------------------------------- update

  /** The first index entry that refers to `id` (`Array.prototype.find`). */
  function FindEntry(entries: seq<IndexEntry>, id: Id): (r: Option<nat>)
    ensures r.Some? ==> r.value < |entries| && entries[r.value].Ref? && entries[r.value].itemId == id
    ensures r.Some? ==> forall k :: 0 <= k < r.value ==> !(entries[k].Ref? && entries[k].itemId == id)
    ensures r.None? ==> forall k :: 0 <= k < |entries| ==> !(entries[k].Ref? && entries[k].itemId == id)
    decreases |entries|
  {
    if entries == [] then None
    else if entries[0].Ref? && entries[0].itemId == id then Some(0)
    else
      match FindEntry(entries[1..], id)
      case None => None
      case Some(k) => Some(k + 1)
  }

  /** `findOneAndUpdate({ _id: id, eventId }, fields)` in the collection of `p`'s kind:
      nothing when no document of that event has the identifier; otherwise the document's
      payload fields become those of `p` (an absent optional field is written as null),
      its event and time stay, and nothing else changes. */
  function UpdateDocument(docs: Collections, id: Id, eventId: Id, p: Payload): (r: Option<Collections>)
    ensures r.Some? <==> StoredHeader(PayloadKind(p), id, docs).Some?
                         && StoredHeader(PayloadKind(p), id, docs).value.0 == eventId
    ensures r.Some? ==> StoredPayload(PayloadKind(p), id, r.value) == Some(p)
    ensures r.Some? ==> r.value.comments.Keys == docs.comments.Keys && r.value.checkins.Keys == docs.checkins.Keys
                        && r.value.photos.Keys == docs.photos.Keys
    ensures r.Some? ==> forall t, k: Id :: StoredHeader(t, k, r.value) == StoredHeader(t, k, docs)
    ensures r.Some? ==> forall t, k: Id :: (t, k) != (PayloadKind(p), id) ==>
                          StoredPayload(t, k, r.value) == StoredPayload(t, k, docs)
  {
    match p
    case CommentPayload(message, author) =>
      if id in docs.comments && docs.comments[id].eventId == eventId then
        Some(docs.(comments := docs.comments[id := docs.comments[id].(message := message, author := author)]))
      else None
    case CheckinPayload(attendee, source, meta) =>
      if id in docs.checkins && docs.checkins[id].eventId == eventId then
        Some(docs.(checkins := docs.checkins[id := docs.checkins[id].(attendee := attendee, source := source, meta := meta)]))
      else None
    case PhotoPayload(url, caption) =>
      if id in docs.photos && docs.photos[id].eventId == eventId then
        Some(docs.(photos := docs.photos[id := docs.photos[id].(url := url, caption := caption)]))
      else None
  }

  /** The item `updateFeedEntry` returns is the one a later `getEventFeed` shows for that
      entry: the new payload, under the entry's original time. */
  lemma UpdatedEntryReadsBack(entries: seq<IndexEntry>, docs: Collections, eventId: Id, p: Payload, i: nat)
    requires i < |entries| && entries[i].Ref? && entries[i].kind == KindName(PayloadKind(p))
    requires UpdateDocument(docs, entries[i].itemId, eventId, p).Some?
    ensures var docs' := UpdateDocument(docs, entries[i].itemId, eventId, p).value;
      Resolve(entries[i], docs') == Some(FeedItem(PayloadKind(p), entries[i].itemId, p, entries[i].ts))
  {
    assert ParseKind(entries[i].kind) == Some(PayloadKind(p));
  }

  /** What `deleteEvent` leaves of the collections: every document of other events,
      unchanged, and none of `eventId`'s (`deleteMany({ eventId })`). */
  function WithoutEvent(docs: Collections, eventId: Id): (r: Collections)
    ensures Grows(r, docs)
    ensures forall k :: k in r.comments <==> k in docs.comments && docs.comments[k].eventId != eventId
    ensures forall k :: k in r.checkins <==> k in docs.checkins && docs.checkins[k].eventId != eventId
    ensures forall k :: k in r.photos <==> k in docs.photos && docs.photos[k].eventId != eventId
  {
    Collections(
      map k | k in docs.comments && docs.comments[k].eventId != eventId :: docs.comments[k],
      map k | k in docs.checkins && docs.checkins[k].eventId != eventId :: docs.checkins[k],
      map k | k in docs.photos && docs.photos[k].eventId != eventId :: docs.photos[k])
  }

  /** The message of the 404 an update gets when the entry's document is gone. */
  function MissingDocumentMessage(t: EntryType): string {
    match t
    case COMMENT => "Comment not found"
    case CHECKIN => "Check-in not found"
    case PHOTO => "Photo not found"
  }

  // ---------------------------------------------------------------- analytics

  /** The number of index entries of kind `k`. */
  function CountKind(entries: seq<IndexEntry>, k: string): nat
    decreases |entries|
  {
    if entries == [] then 0
    else (if entries[0].kind == k then 1 else 0) + CountKind(entries[1..], k)
  }

  lemma {:induction false} CountKindPositive(entries: seq<IndexEntry>, k: string)
    ensures CountKind(entries, k) > 0 <==> exists e :: e in entries && e.kind == k
    decreases |entries|
  {
    if entries != [] {
      CountKindPositive(entries[1..], k);
      assert entries == [entries[0]] + entries[1..];
    }
  }

  /** `byType`: one group per kind present in the index, with its number of entries. */
  function ByType(entries: seq<IndexEntry>): (r: map<string, nat>)
    ensures forall k :: k in r <==> CountKind(entries, k) > 0
    ensures forall k :: k in r ==> r[k] == CountKind(entries, k)
  {
    var kinds := set e | e in entries :: e.kind;
    forall k ensures k in kinds <==> CountKind(entries, k) > 0 {
      CountKindPositive(entries, k);
    }
    map k | k in kinds :: CountKind(entries, k)
  }

  lemma {:induction false} CountKindAppend(entries: seq<IndexEntry>, e: IndexEntry, k: string)
    ensures CountKind(entries + [e], k) == CountKind(entries, k) + (if e.kind == k then 1 else 0)
    decreases |entries|
  {
    if entries != [] {
      assert (entries + [e])[1..] == entries[1..] + [e];
      CountKindAppend(entries[1..], e, k);
    }
  }

  lemma {:induction false} CountKindInsert(x: IndexEntry, s: seq<IndexEntry>, k: string)
    ensures CountKind(Insert(x, s, NewerOrSame), k) == CountKind(s, k) + (if x.kind == k then 1 else 0)
    decreases |s|
  {
    if s != [] && !NewerOrSame(x, s[0]) {
      CountKindInsert(x, s[1..], k);
      assert Insert(x, s, NewerOrSame)[1..] == Insert(x, s[1..], NewerOrSame);
    }
  }

  /** Sorting the index does not change any kind's count. */
  lemma {:induction false} CountKindSorted(s: seq<IndexEntry>, k: string)
    ensures CountKind(SortBy(s, NewerOrSame), k) == CountKind(s, k)
    decreases |s|
  {
    if s != [] {
      CountKindSorted(s[1..], k);
      CountKindInsert(s[0], SortBy(s[1..], NewerOrSame), k);
    }
  }

  /** An append adds exactly one to the count of its own kind and leaves every other
      kind's count as it was. */
  lemma ByTypeAfterAppend(entries: seq<IndexEntry>, e: IndexEntry, k: string)
    ensures CountKind(AppendIndex(entries, e), k) == CountKind(entries, k) + (if e.kind == k then 1 else 0)
  {
    CountKindSorted(entries + [e], k);
    CountKindAppend(entries, e, k);
  }

  lemma {:induction false} CountKindPointwise(a: seq<IndexEntry>, b: seq<IndexEntry>, k: string)
    requires |a| == |b| && forall i :: 0 <= i < |a| ==> a[i].kind == b[i].kind
    ensures CountKind(a, k) == CountKind(b, k)
    decreases |a|
  {
    if a != [] {
      CountKindPointwise(a[1..], b[1..], k);
    }
  }

  /** The counts the analytics read after the repair are the counts of the surviving
      entries: a dropped legacy entry is not counted, a repaired one keeps its kind. */
  lemma ByTypeAfterMigration(entries: seq<IndexEntry>, docs: Collections, nextId: nat, eventId: Id, now: int, k: string)
    requires CollectionsBelow(docs, nextId)
    ensures CountKind(MigrateIndex(entries, docs, nextId, eventId, now).entries, k) == CountKind(Survivors(entries), k)
  {
    MigrateIndexRepairs(entries, docs, nextId, eventId, now);
    CountKindPointwise(MigrateIndex(entries, docs, nextId, eventId, now).entries, Survivors(entries), k);
  }

  /** The check-ins of the event with the given source (no source is its own group). */
  function CheckinsFrom(checkins: map<Id, Checkin>, eventId: Id, source: Option<string>): set<Id> {
    set id | id in checkins && checkins[id].eventId == eventId && checkins[id].source == source
  }

  /** `checkinsBySource`: one group per source among the event's check-ins, with its size.
      Every check-in document of the event counts, referenced by the index or not. */
  function BySource(checkins: map<Id, Checkin>, eventId: Id): (r: map<Option<string>, nat>)
    ensures forall s :: s in r <==> CheckinsFrom(checkins, eventId, s) != {}
    ensures forall s :: s in r ==> r[s] == |CheckinsFrom(checkins, eventId, s)|
  {
    var sources := set id | id in checkins && checkins[id].eventId == eventId :: checkins[id].source;
    forall s ensures s in sources <==> CheckinsFrom(checkins, eventId, s) != {} {
      if s in sources {
        var id :| id in checkins && checkins[id].eventId == eventId && checkins[id].source == s;
        assert id in CheckinsFrom(checkins, eventId, s);
      }
    }
    map s | s in sources :: |CheckinsFrom(checkins, eventId, s)|
  }

  /** A new check-in adds one to its source's group for its own event and changes no
      other group of any event. */
  lemma BySourceAfterCheckin(checkins: map<Id, Checkin>, id: Id, c: Checkin, eventId: Id, s: Option<string>)
    requires id !in checkins
    ensures var before := |CheckinsFrom(checkins, eventId, s)|;
            var after := |CheckinsFrom(checkins[id := c], eventId, s)|;
      after == before + (if c.eventId == eventId && c.source == s then 1 else 0)
  {
    var before := CheckinsFrom(checkins, eventId, s);
    var after := CheckinsFrom(checkins[id := c], eventId, s);
    if c.eventId == eventId && c.source == s {
      assert after == before + {id};
    } else {
      assert after == before;
    }
  }
}
