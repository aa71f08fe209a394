/** The document store: per-event feed indexes and the three entry collections. */
module FeedModel {
  import opened Common
  import opened Json

  /** The three kinds of feed entry. */
  datatype EntryType = COMMENT | CHECKIN | PHOTO

  /** The name a kind is stored under in an index entry's `type` field. */
  function KindName(t: EntryType): string {
    match t
    case COMMENT => "COMMENT"
    case CHECKIN => "CHECKIN"
    case PHOTO => "PHOTO"
  }

  /** The kind a stored `type` string names, if any. */
  function ParseKind(s: string): (r: Option<EntryType>)
    ensures r.Some? <==> s in {"COMMENT", "CHECKIN", "PHOTO"}
    ensures r.Some? ==> KindName(r.value) == s
  {
    if s == "COMMENT" then Some(COMMENT)
    else if s == "CHECKIN" then Some(CHECKIN)
    else if s == "PHOTO" then Some(PHOTO)
    else None
  }

  datatype Attendee = Attendee(name: string, email: Option<string>)

  /** Documents of the three collections; `ts` is the entry time in milliseconds. */
  datatype Comment = Comment(eventId: Id, message: string, author: Option<string>, ts: int)
  datatype Checkin = Checkin(eventId: Id, attendee: Attendee, source: Option<string>, meta: Option<Json>, ts: int)
  datatype Photo = Photo(eventId: Id, url: string, caption: Option<string>, ts: int)

  datatype Collections = Collections(
    comments: map<Id, Comment>,
    checkins: map<Id, Checkin>,
    photos: map<Id, Photo>)

  /** Every document of every collection has an identifier below `bound`. */
  ghost predicate CollectionsBelow(c: Collections, bound: nat) {
    KeysBelow(c.comments, bound) && KeysBelow(c.checkins, bound) && KeysBelow(c.photos, bound)
  }

  /** `c2` holds every document of `c1`, unchanged. */
  ghost predicate Grows(c1: Collections, c2: Collections) {
    && (forall k :: k in c1.comments ==> k in c2.comments && c2.comments[k] == c1.comments[k])
    && (forall k :: k in c1.checkins ==> k in c2.checkins && c2.checkins[k] == c1.checkins[k])
    && (forall k :: k in c1.photos ==> k in c2.photos && c2.photos[k] == c1.photos[k])
  }

  /** The payload of a feed entry, per kind: what the API accepts and returns. */
  datatype Payload =
    | CommentPayload(message: string, author: Option<string>)
    | CheckinPayload(attendee: Attendee, source: Option<string>, meta: Option<Json>)
    | PhotoPayload(url: string, caption: Option<string>)

  function PayloadKind(p: Payload): EntryType {
    match p
    case CommentPayload(_, _) => COMMENT
    case CheckinPayload(_, _, _) => CHECKIN
    case PhotoPayload(_, _) => PHOTO
  }

  /** One entry of the feed as the API returns it. */
  datatype FeedItem = FeedItem(kind: EntryType, itemId: Id, payload: Payload, ts: int)

  /** The payload a legacy index entry carried inline, with every field possibly missing. */
  datatype LegacyAttendee = LegacyAttendee(name: Option<string>, email: Option<string>)
  datatype LegacyPayload = LegacyPayload(
    message: Option<string>,
    author: Option<string>,
    attendee: Option<LegacyAttendee>,
    source: Option<string>,
    meta: Option<Json>,
    url: Option<string>,
    caption: Option<string>)

  /** An entry of an event's feed index: a normalised reference into the collection
      named by `kind`, or a legacy entry with its payload inline and no `itemId`. */
  datatype IndexEntry =
    | Ref(kind: string, itemId: Id, ts: int)
    | Legacy(kind: string, payload: LegacyPayload, legacyTs: Option<int>)

  /** Every entry of the index is a normalised reference. */
  predicate AllRefs(entries: seq<IndexEntry>) {
    forall i :: 0 <= i < |entries| ==> entries[i].Ref?
  }

  /** The time an index entry is sorted by; a legacy entry may have none. */
  function SortTs(e: IndexEntry): Option<int> {
    match e
    case Ref(_, _, ts) => Some(ts)
    case Legacy(_, _, ts) => ts
  }

  /** The `{ ts: -1 }` order: later entries first, entries without a time last. */
  predicate NewerOrSame(a: IndexEntry, b: IndexEntry) {
    SortTs(b).None? || (SortTs(a).Some? && SortTs(a).value >= SortTs(b).value)
  }
}
