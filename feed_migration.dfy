/** The lazy repair of an event's feed index (`migrateLegacyFeedEntries`): every legacy
    entry, which carries its payload inline, becomes a reference to a document of the
    collection its kind names; legacy check-ins first look for a document a previous
    run created. This module states the repair as a function of the index and the
    collections; the store's method runs it as a loop and is proved equal to it. */
module FeedMigration {
  import opened Common
  import opened FeedModel

  /** The index being rebuilt, the collections, and the next free identifier. */
  datatype Migration = Migration(entries: seq<IndexEntry>, docs: Collections, nextId: nat)

  /** JavaScript truthiness of an optional string field: present and non-empty. */
  predicate Present(v: Option<string>) {
    v.Some? && v.value != ""
  }

  /** A legacy entry the repair keeps: a known kind whose required field is present. */
  predicate LegacyUsable(e: IndexEntry)
    requires e.Legacy?
  {
    || (e.kind == "COMMENT" && Present(e.payload.message))
    || (e.kind == "CHECKIN" && e.payload.attendee.Some? && Present(e.payload.attendee.value.name))
    || (e.kind == "PHOTO" && Present(e.payload.url))
  }

  /** The entry is still in the index after the repair. */
  predicate Survives(e: IndexEntry) {
    e.Ref? || LegacyUsable(e)
  }

  /** The time the repaired entry carries: its own, or the clock's for a legacy entry
      that had none. */
  function EntryTime(e: IndexEntry, now: int): int {
    match e
    case Ref(_, _, ts) => ts
    case Legacy(_, _, ts) => ts.GetOr(now)
  }

  /** The de-duplication query: same event, `ts` within one second either way, same
      attendee name, and the same email when the legacy entry gives one. */
  predicate MatchesCheckin(c: Checkin, eventId: Id, ts: int, name: string, email: Option<string>) {
    && c.eventId == eventId
    && ts - 1000 <= c.ts <= ts + 1000
    && c.attendee.name == name
    && (Present(email) ==> c.attendee.email == email)
  }

  /** `Checkin.findOne(query)`: some matching document; the model picks the one with the
      least identifier in [from, bound). */
  function FindCheckin(checkins: map<Id, Checkin>, eventId: Id, ts: int, name: string,
                       email: Option<string>, from: nat, bound: nat): (r: Option<Id>)
    ensures r.Some? ==> from <= r.value < bound && r.value in checkins
                        && MatchesCheckin(checkins[r.value], eventId, ts, name, email)
    ensures r.Some? ==> forall k :: from <= k < r.value && k in checkins ==>
                          !MatchesCheckin(checkins[k], eventId, ts, name, email)
    ensures r.None? ==> forall k :: from <= k < bound && k in checkins ==>
                          !MatchesCheckin(checkins[k], eventId, ts, name, email)
    decreases bound - from
  {
    if from >= bound then None
    else if from in checkins && MatchesCheckin(checkins[from], eventId, ts, name, email) then Some(from)
    else FindCheckin(checkins, eventId, ts, name, email, from + 1, bound)
  }

  /** One iteration of the repair loop. */
  function Step(m: Migration, e: IndexEntry, eventId: Id, now: int): Migration {
    match e
    case Ref(_, _, _) => m.(entries := m.entries + [e])
    case Legacy(kind, p, _) =>
      var ts := EntryTime(e, now);
      var id := m.nextId;
      if kind == "COMMENT" then
        if !Present(p.message) then m
        else Migration(m.entries + [Ref(kind, id, ts)],
                       m.docs.(comments := m.docs.comments[id := Comment(eventId, p.message.value, p.author, ts)]),
                       id + 1)
      else if kind == "CHECKIN" then
        if !(p.attendee.Some? && Present(p.attendee.value.name)) then m
        else
          var name := p.attendee.value.name.value;
          var email := p.attendee.value.email;
          match FindCheckin(m.docs.checkins, eventId, ts, name, email, 0, m.nextId)
          case Some(existing) => m.(entries := m.entries + [Ref(kind, existing, ts)])
          case None =>
            Migration(m.entries + [Ref(kind, id, ts)],
                      m.docs.(checkins := m.docs.checkins[id := Checkin(eventId, Attendee(name, email), p.source, p.meta, ts)]),
                      id + 1)
      else if kind == "PHOTO" then
        if !Present(p.url) then m
        else Migration(m.entries + [Ref(kind, id, ts)],
                       m.docs.(photos := m.docs.photos[id := Photo(eventId, p.url.value, p.caption, ts)]),
                       id + 1)
      else m
  }

  /** The repair loop over `entries`, from the state `start`. */
  function Fold(entries: seq<IndexEntry>, eventId: Id, now: int, start: Migration): Migration
    decreases |entries|
  {
    if entries == [] then start
    else Step(Fold(entries[..|entries| - 1], eventId, now, start), entries[|entries| - 1], eventId, now)
  }

  /** `migrateLegacyFeedEntries` on an existing index: nothing is written when every entry
      is already a reference; otherwise the index is rebuilt by the loop. */
  function MigrateIndex(entries: seq<IndexEntry>, docs: Collections, nextId: nat, eventId: Id, now: int): Migration {
    if AllRefs(entries) then Migration(entries, docs, nextId)
    else Fold(entries, eventId, now, Migration([], docs, nextId))
  }

  /** The entries that survive the repair, in index order. */
  function Survivors(entries: seq<IndexEntry>): seq<IndexEntry>
    decreases |entries|
  {
    if entries == [] then []
    else
      var last := entries[|entries| - 1];
      Survivors(entries[..|entries| - 1]) + (if Survives(last) then [last] else [])
  }

  /** The document a repaired legacy entry points to holds what the entry carried: the
      comment or photo created from it, or a check-in the de-duplication query matches. */
  predicate Realizes(e: IndexEntry, r: IndexEntry, docs: Collections, eventId: Id, now: int)
    requires e.Legacy? && r.Ref?
  {
    var ts := EntryTime(e, now);
    var p := e.payload;
    if e.kind == "COMMENT" then
      Present(p.message) && r.itemId in docs.comments
      && docs.comments[r.itemId] == Comment(eventId, p.message.value, p.author, ts)
    else if e.kind == "CHECKIN" then
      p.attendee.Some? && Present(p.attendee.value.name) && r.itemId in docs.checkins
      && MatchesCheckin(docs.checkins[r.itemId], eventId, ts, p.attendee.value.name.value, p.attendee.value.email)
    else if e.kind == "PHOTO" then
      Present(p.url) && r.itemId in docs.photos
      && docs.photos[r.itemId] == Photo(eventId, p.url.value, p.caption, ts)
    else false
  }

  /** What the repair produces, entry by entry: the i-th output entry is a reference with
      the i-th survivor's kind and time; an original reference is kept as it was, and a
      legacy survivor points to a document that realizes it. */
  ghost predicate RepairedFrom(out: seq<IndexEntry>, survivors: seq<IndexEntry>, docs: Collections, eventId: Id, now: int) {
    && |out| == |survivors|
    && forall i :: 0 <= i < |out| ==>
         && out[i].Ref?
         && out[i].kind == survivors[i].kind
         && out[i].ts == EntryTime(survivors[i], now)
         && (survivors[i].Ref? ==> out[i] == survivors[i])
         && (survivors[i].Legacy? ==> Realizes(survivors[i], out[i], docs, eventId, now))
  }

  lemma RealizesGrows(e: IndexEntry, r: IndexEntry, d1: Collections, d2: Collections, eventId: Id, now: int)
    requires e.Legacy? && r.Ref? && Realizes(e, r, d1, eventId, now) && Grows(d1, d2)
    ensures Realizes(e, r, d2, eventId, now)
  {
  }

  /** One step adds at most one document, under a fresh identifier, and never changes or
      removes one; the identifier counter never goes back. */
  lemma StepGrows(m: Migration, e: IndexEntry, eventId: Id, now: int)
    requires CollectionsBelow(m.docs, m.nextId)
    ensures var r := Step(m, e, eventId, now);
      Grows(m.docs, r.docs) && m.nextId <= r.nextId && CollectionsBelow(r.docs, r.nextId)
  {
  }

  /** The step keeps every entry the index had so far and appends the repaired form of
      `e` exactly when `e` survives; a check-in it creates holds the entry's attendee,
      source, meta and time. */
  lemma StepShape(m: Migration, e: IndexEntry, eventId: Id, now: int)
    requires CollectionsBelow(m.docs, m.nextId)
    ensures var r := Step(m, e, eventId, now);
      && r.entries[..|m.entries|] == m.entries
      && |r.entries| == |m.entries| + (if Survives(e) then 1 else 0)
      && (Survives(e) ==>
            var out := r.entries[|m.entries|];
            && out.Ref? && out.kind == e.kind && out.ts == EntryTime(e, now)
            && (e.Ref? ==> out == e)
            && (e.Legacy? ==> Realizes(e, out, r.docs, eventId, now))
            && (e.Legacy? && e.kind == "CHECKIN" && out.itemId !in m.docs.checkins ==>
                  r.docs.checkins[out.itemId]
                  == Checkin(eventId, Attendee(e.payload.attendee.value.name.value, e.payload.attendee.value.email),
                             e.payload.source, e.payload.meta, EntryTime(e, now))))
  {
  }

  /** The loop's collections only grow, and stay below the counter. */
  lemma {:induction false} FoldGrows(entries: seq<IndexEntry>, eventId: Id, now: int, start: Migration)
    requires CollectionsBelow(start.docs, start.nextId)
    ensures var m := Fold(entries, eventId, now, start);
      Grows(start.docs, m.docs) && start.nextId <= m.nextId && CollectionsBelow(m.docs, m.nextId)
    decreases |entries|
  {
    if entries != [] {
      var prefix := entries[..|entries| - 1];
      FoldGrows(prefix, eventId, now, start);
      StepGrows(Fold(prefix, eventId, now, start), entries[|entries| - 1], eventId, now);
    }
  }

  /** The loop rebuilds the index as the survivors, repaired one by one. */
  lemma {:induction false} FoldRepairs(entries: seq<IndexEntry>, eventId: Id, now: int, start: Migration)
    requires start.entries == [] && CollectionsBelow(start.docs, start.nextId)
    ensures var m := Fold(entries, eventId, now, start);
      RepairedFrom(m.entries, Survivors(entries), m.docs, eventId, now)
    decreases |entries|
  {
    if entries != [] {
      var prefix := entries[..|entries| - 1];
      var e := entries[|entries| - 1];
      FoldRepairs(prefix, eventId, now, start);
      FoldGrows(prefix, eventId, now, start);
      var m := Fold(prefix, eventId, now, start);
      var r := Step(m, e, eventId, now);
      StepShape(m, e, eventId, now);
      StepGrows(m, e, eventId, now);
      var s := Survivors(prefix);
      var s' := Survivors(entries);
      assert s' == s + (if Survives(e) then [e] else []);
      forall i | 0 <= i < |r.entries|
        ensures r.entries[i].Ref? && r.entries[i].kind == s'[i].kind
        ensures r.entries[i].ts == EntryTime(s'[i], now)
        ensures s'[i].Ref? ==> r.entries[i] == s'[i]
        ensures s'[i].Legacy? ==> Realizes(s'[i], r.entries[i], r.docs, eventId, now)
      {
        if i < |m.entries| {
          assert r.entries[i] == m.entries[i];
          assert s'[i] == s[i];
          if s[i].Legacy? {
            RealizesGrows(s[i], m.entries[i], m.docs, r.docs, eventId, now);
          }
        }
      }
    }
  }

  /** On an index of references only, the loop writes the same index back and creates no
      document: the early return is an optimisation, not a different behaviour. */
  lemma {:induction false} FoldKeepsReferences(entries: seq<IndexEntry>, eventId: Id, now: int, docs: Collections, nextId: nat)
    requires AllRefs(entries)
    ensures Fold(entries, eventId, now, Migration([], docs, nextId)) == Migration(entries, docs, nextId)
    decreases |entries|
  {
    if entries != [] {
      var prefix := entries[..|entries| - 1];
      var last := entries[|entries| - 1];
      assert AllRefs(prefix) by {
        forall i | 0 <= i < |prefix| ensures prefix[i].Ref? {
          assert prefix[i] == entries[i];
        }
      }
      FoldKeepsReferences(prefix, eventId, now, docs, nextId);
      assert last.Ref?;
      assert Step(Migration(prefix, docs, nextId), last, eventId, now) == Migration(prefix + [last], docs, nextId);
      assert prefix + [last] == entries;
    }
  }

  /** The repair as a whole: the new index is the survivors repaired one by one, so it
      holds references only; the collections only grow. */
  lemma MigrateIndexRepairs(entries: seq<IndexEntry>, docs: Collections, nextId: nat, eventId: Id, now: int)
    requires CollectionsBelow(docs, nextId)
    ensures var m := MigrateIndex(entries, docs, nextId, eventId, now);
      && RepairedFrom(m.entries, Survivors(entries), m.docs, eventId, now)
      && AllRefs(m.entries)
      && Grows(docs, m.docs) && nextId <= m.nextId && CollectionsBelow(m.docs, m.nextId)
  {
    var start := Migration([], docs, nextId);
    FoldRepairs(entries, eventId, now, start);
    FoldGrows(entries, eventId, now, start);
    if AllRefs(entries) {
      FoldKeepsReferences(entries, eventId, now, docs, nextId);
    }
  }

  /** A second repair changes nothing: no entry is legacy any more. */
  lemma MigrateIndexIdempotent(entries: seq<IndexEntry>, docs: Collections, nextId: nat, eventId: Id, now: int, later: int)
    requires CollectionsBelow(docs, nextId)
    ensures var m := MigrateIndex(entries, docs, nextId, eventId, now);
      MigrateIndex(m.entries, m.docs, m.nextId, eventId, later) == m
  {
    MigrateIndexRepairs(entries, docs, nextId, eventId, now);
  }

  /** Every reference of the old index is in the survivors. */
  lemma {:induction false} ReferencesSurvive(entries: seq<IndexEntry>, e: IndexEntry)
    requires e in entries && e.Ref?
    ensures e in Survivors(entries)
    decreases |entries|
  {
    var last := entries[|entries| - 1];
    if e != last {
      var prefix := entries[..|entries| - 1];
      assert entries == prefix + [last];
      ReferencesSurvive(prefix, e);
    }
  }

  /** An existing reference is still in the repaired index. */
  lemma MigrateKeepsReference(entries: seq<IndexEntry>, docs: Collections, nextId: nat, eventId: Id, now: int, e: IndexEntry)
    requires CollectionsBelow(docs, nextId) && e in entries && e.Ref?
    ensures e in MigrateIndex(entries, docs, nextId, eventId, now).entries
  {
    MigrateIndexRepairs(entries, docs, nextId, eventId, now);
    ReferencesSurvive(entries, e);
    var s := Survivors(entries);
    var i :| 0 <= i < |s| && s[i] == e;
    assert MigrateIndex(entries, docs, nextId, eventId, now).entries[i] == e;
  }

  /** A legacy entry without its kind's required field, or of no known kind, leaves no
      trace: it is not a survivor, and the step that meets it changes nothing. */
  lemma UnusableLegacyDropped(m: Migration, e: IndexEntry, eventId: Id, now: int)
    requires e.Legacy? && !LegacyUsable(e)
    ensures Step(m, e, eventId, now) == m
  {
  }

  /** De-duplication of legacy check-ins: when the check-in collection already holds a
      matching document, the step reuses an identifier of such a document and creates
      nothing; otherwise it creates exactly one check-in, under a fresh identifier, holding
      the entry's attendee, source, meta and time. */
  lemma CheckinDeduplicated(m: Migration, e: IndexEntry, eventId: Id, now: int)
    requires CollectionsBelow(m.docs, m.nextId)
    requires e.Legacy? && e.kind == "CHECKIN" && LegacyUsable(e)
    ensures var r := Step(m, e, eventId, now);
      var ts := EntryTime(e, now);
      var name := e.payload.attendee.value.name.value;
      var email := e.payload.attendee.value.email;
      && |r.entries| == |m.entries| + 1
      && var id := r.entries[|m.entries|].itemId;
      && id in r.docs.checkins && MatchesCheckin(r.docs.checkins[id], eventId, ts, name, email)
      && ((exists k :: k in m.docs.checkins && MatchesCheckin(m.docs.checkins[k], eventId, ts, name, email))
            ==> r.docs == m.docs && r.nextId == m.nextId && id in m.docs.checkins)
      && ((forall k :: k in m.docs.checkins ==> !MatchesCheckin(m.docs.checkins[k], eventId, ts, name, email))
            ==> id == m.nextId
                && r.docs.checkins == m.docs.checkins[id := Checkin(eventId, Attendee(name, email), e.payload.source, e.payload.meta, ts)]
                && r.docs.comments == m.docs.comments && r.docs.photos == m.docs.photos)
  {
    var ts := EntryTime(e, now);
    var name := e.payload.attendee.value.name.value;
    var email := e.payload.attendee.value.email;
    var found := FindCheckin(m.docs.checkins, eventId, ts, name, email, 0, m.nextId);
    if k :| k in m.docs.checkins && MatchesCheckin(m.docs.checkins[k], eventId, ts, name, email) {
      assert k < m.nextId;
      assert found.Some?;
    }
  }

  /** The document store: every event's feed index, the three collections, and the
      identifier counter. */
  datatype DocStore = DocStore(feeds: map<Id, seq<IndexEntry>>, docs: Collections, nextId: nat)

  /** `migrateLegacyFeedEntries(eventId)` on the whole document store. */
  function MigrateStore(s: DocStore, eventId: Id, now: int): (r: DocStore)
    ensures eventId !in s.feeds ==> r == s
    ensures r.feeds.Keys == s.feeds.Keys
    ensures forall e :: e in s.feeds && e != eventId ==> r.feeds[e] == s.feeds[e]
  {
    if eventId !in s.feeds then s
    else
      var m := MigrateIndex(s.feeds[eventId], s.docs, s.nextId, eventId, now);
      DocStore(s.feeds[eventId := m.entries], m.docs, m.nextId)
  }

  /** Running the repair for the same event again, at any later time, changes nothing. */
  lemma MigrateStoreIdempotent(s: DocStore, eventId: Id, now: int, later: int)
    requires CollectionsBelow(s.docs, s.nextId)
    ensures MigrateStore(MigrateStore(s, eventId, now), eventId, later) == MigrateStore(s, eventId, now)
  {
    if eventId in s.feeds {
      MigrateIndexIdempotent(s.feeds[eventId], s.docs, s.nextId, eventId, now, later);
    }
  }

  /** The repair only adds documents, under fresh identifiers. */
  lemma MigrateStoreGrows(s: DocStore, eventId: Id, now: int)
    requires CollectionsBelow(s.docs, s.nextId)
    ensures var r := MigrateStore(s, eventId, now);
      Grows(s.docs, r.docs) && s.nextId <= r.nextId && CollectionsBelow(r.docs, r.nextId)
  {
    if eventId in s.feeds && !AllRefs(s.feeds[eventId]) {
      FoldGrows(s.feeds[eventId], eventId, now, Migration([], s.docs, s.nextId));
    }
  }
}
