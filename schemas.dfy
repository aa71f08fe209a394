/** The request schemas of the feed and event routes: what a body, a route parameter or
    a query string must look like, and the typed value a successful parse yields.
    Library format checks are the fields of `Formats`. */
module Schemas {
  import opened Common
  import opened Json
  import opened Errors
  import opened Entities
  import opened FeedModel
  import Text

  /** The format checks and parsers the schemas delegate to libraries. */
  datatype Formats = Formats(
    uuid: string -> Option<Id>,          // zod's `.uuid()`, and the row the identifier names
    objectId: string -> Option<Id>,      // mongoose's `new Types.ObjectId(string)`
    isEmail: string -> bool,             // zod's `.email()`
    isUrl: string -> bool,               // zod's `.url()`
    parseDate: string -> Option<int>,    // `new Date(string)`, in ms; None is an Invalid Date
    parseNumber: string -> Option<real>, // `Number(string)` on text that is not blank; None is NaN
    numberText: real -> string)          // `String(number)`

  /** The outcome of `schema.parse`: the typed value, or the fields that failed. */
  datatype Parsed<+T> = Valid(value: T) | Invalid(fields: FieldErrors)

  function Get(o: map<string, Json>, key: string): Option<Json> {
    if key in o then Some(o[key]) else None
  }

  /** `z.string().min(1)` on a possibly missing value. */
  function NonEmptyString(v: Option<Json>): Option<string> {
    if v.Some? && v.value.JStr? && |v.value.s| >= 1 then Some(v.value.s) else None
  }

  /** `z.string()`: every string passes. */
  predicate AnyString(s: string) { true }

  /** `z.string().min(1)`. */
  predicate NonEmpty(s: string) { |s| >= 1 }

  /** `<string check>.optional()`: None rejects; Some(None) is an absent field. */
  function OptionalString(v: Option<Json>, check: string -> bool): Option<Option<string>> {
    match v
    case None => Some(None)
    case Some(JStr(s)) => if check(s) then Some(Some(s)) else None
    case Some(_) => None
  }

  // ---------------------------------------------------------------- feed.schema.ts

  /** `{ id: z.string().uuid() }` on route parameters (`feedParamsSchema`; the event
      routes' `eventIdParamsSchema` is the same schema). */
  function IdParamsSchema(params: map<string, string>, fm: Formats): (r: Parsed<Id>)
    ensures r.Valid? <==> "id" in params && fm.uuid(params["id"]).Some?
    ensures r.Valid? ==> fm.uuid(params["id"]) == Some(r.value)
    ensures r.Invalid? ==> r.fields == {"id"}
  {
    if "id" in params && fm.uuid(params["id"]).Some? then Valid(fm.uuid(params["id"]).value)
    else Invalid({"id"})
  }

  function CommentPayloadSchema(j: Json): Option<Payload> {
    if !j.JObj? then None
    else
      var message := NonEmptyString(Get(j.fields, "message"));
      var author := OptionalString(Get(j.fields, "author"), NonEmpty);
      if message.Some? && author.Some? then Some(CommentPayload(message.value, author.value)) else None
  }

  function AttendeeSchema(v: Option<Json>, fm: Formats): Option<Attendee> {
    if !(v.Some? && v.value.JObj?) then None
    else
      var name := NonEmptyString(Get(v.value.fields, "name"));
      var email := OptionalString(Get(v.value.fields, "email"), fm.isEmail);
      if name.Some? && email.Some? then Some(Attendee(name.value, email.value)) else None
  }

  /** `z.record(z.string(), z.unknown()).optional()`. */
  function OptionalRecord(v: Option<Json>): Option<Option<Json>> {
    match v
    case None => Some(None)
    case Some(JObj(_)) => Some(v)
    case Some(_) => None
  }

  function CheckinPayloadSchema(j: Json, fm: Formats): Option<Payload> {
    if !j.JObj? then None
    else
      var attendee := AttendeeSchema(Get(j.fields, "attendee"), fm);
      var source := OptionalString(Get(j.fields, "source"), AnyString);
      var meta := OptionalRecord(Get(j.fields, "meta"));
      if attendee.Some? && source.Some? && meta.Some?
      then Some(CheckinPayload(attendee.value, source.value, meta.value))
      else None
  }

  function PhotoPayloadSchema(j: Json, fm: Formats): Option<Payload> {
    if !j.JObj? then None
    else
      var url := Get(j.fields, "url");
      var caption := OptionalString(Get(j.fields, "caption"), AnyString);
      if url.Some? && url.value.JStr? && fm.isUrl(url.value.s) && caption.Some?
      then Some(PhotoPayload(url.value.s, caption.value))
      else None
  }

  /** The payload schema of one kind. */
  function PayloadSchema(t: EntryType, j: Json, fm: Formats): Option<Payload> {
    match t
    case COMMENT => CommentPayloadSchema(j)
    case CHECKIN => CheckinPayloadSchema(j, fm)
    case PHOTO => PhotoPayloadSchema(j, fm)
  }

  datatype FeedEntryInput = FeedEntryInput(kind: EntryType, payload: Payload)

  /** `createFeedEntrySchema`: `type` picks the variant, and the payload is checked
      against that variant's schema only. */
  function CreateFeedEntrySchema(j: Json, fm: Formats): (r: Parsed<FeedEntryInput>)
    ensures r.Valid? ==> PayloadKind(r.value.payload) == r.value.kind && WellFormedPayload(r.value.payload, fm)
    ensures r.Valid? ==> j.JObj? && "payload" in j.fields && Carries(j.fields["payload"], r.value.payload)
    ensures r.Invalid? ==> |r.fields| == 1
  {
    if !j.JObj? then Invalid({""})
    else
      var t := Get(j.fields, "type");
      if !(t.Some? && t.value.JStr? && ParseKind(t.value.s).Some?) then Invalid({"type"})
      else
        var kind := ParseKind(t.value.s).value;
        var p := Get(j.fields, "payload");
        if p.None? then Invalid({"payload"})
        else
          PayloadSchemaSound(kind, p.value, fm);
          match PayloadSchema(kind, p.value, fm)
          case Some(payload) =>
            PayloadSchemaExact(kind, p.value, fm, payload);
            Valid(FeedEntryInput(kind, payload))
          case None => Invalid({"payload"})
  }

  /** What the payload schemas demand, stated on the typed payload: a non-empty comment
      message and (when present) author; a non-empty attendee name, a well-formed email
      when present and an object `meta` when present; a well-formed photo URL. */
  predicate WellFormedPayload(p: Payload, fm: Formats) {
    match p
    case CommentPayload(message, author) => |message| >= 1 && (author.Some? ==> |author.value| >= 1)
    case CheckinPayload(attendee, _, meta) =>
      && |attendee.name| >= 1
      && (attendee.email.Some? ==> fm.isEmail(attendee.email.value))
      && (meta.Some? ==> meta.value.JObj?)
    case PhotoPayload(url, _) => fm.isUrl(url)
  }

  /** `m` with `key` set when the optional string is present. */
  function WithOptional(m: map<string, Json>, key: string, v: Option<string>): map<string, Json> {
    if v.Some? then m[key := JStr(v.value)] else m
  }

  /** The JSON object a client sends for an attendee. */
  function AttendeeJson(a: Attendee): Json {
    JObj(WithOptional(map["name" := JStr(a.name)], "email", a.email))
  }

  /** The JSON object a client sends for a payload. */
  function PayloadJson(p: Payload): Json {
    match p
    case CommentPayload(message, author) =>
      JObj(WithOptional(map["message" := JStr(message)], "author", author))
    case CheckinPayload(attendee, source, meta) =>
      var withSource := WithOptional(map["attendee" := AttendeeJson(attendee)], "source", source);
      JObj(if meta.Some? then withSource["meta" := meta.value] else withSource)
    case PhotoPayload(url, caption) =>
      JObj(WithOptional(map["url" := JStr(url)], "caption", caption))
  }

  /** The JSON an optional string is sent as: the string, or no field at all. */
  function OptionalJson(v: Option<string>): Option<Json> {
    if v.Some? then Some(JStr(v.value)) else None
  }

  /** `j` is an object whose fields, as its kind's schema reads them, hold exactly the
      values of `p`; fields the schema does not name are ignored. */
  predicate Carries(j: Json, p: Payload) {
    && j.JObj?
    && match p
       case CommentPayload(message, author) =>
         Get(j.fields, "message") == Some(JStr(message)) && Get(j.fields, "author") == OptionalJson(author)
       case CheckinPayload(attendee, source, meta) =>
         var a := Get(j.fields, "attendee");
         && a.Some? && a.value.JObj?
         && Get(a.value.fields, "name") == Some(JStr(attendee.name))
         && Get(a.value.fields, "email") == OptionalJson(attendee.email)
         && Get(j.fields, "source") == OptionalJson(source)
         && Get(j.fields, "meta") == meta
       case PhotoPayload(url, caption) =>
         Get(j.fields, "url") == Some(JStr(url)) && Get(j.fields, "caption") == OptionalJson(caption)
  }

  /** A payload schema parses `j` to `p` exactly when `p` is a well-formed payload of the
      schema's kind and `j` carries it. */
  lemma PayloadSchemaExact(t: EntryType, j: Json, fm: Formats, p: Payload)
    ensures PayloadSchema(t, j, fm) == Some(p) <==> PayloadKind(p) == t && WellFormedPayload(p, fm) && Carries(j, p)
  {
  }

  /** What each payload schema refuses: a comment without a non-empty `message`, a
      check-in without an attendee object holding a non-empty `name`, a photo without a
      `url` the URL check accepts, and anything that is not an object. */
  lemma PayloadSchemaRefuses(j: Json, fm: Formats)
    ensures !(j.JObj? && NonEmptyString(Get(j.fields, "message")).Some?) ==> PayloadSchema(COMMENT, j, fm).None?
    ensures !(j.JObj? && Get(j.fields, "attendee").Some? && Get(j.fields, "attendee").value.JObj?
              && NonEmptyString(Get(Get(j.fields, "attendee").value.fields, "name")).Some?)
            ==> PayloadSchema(CHECKIN, j, fm).None?
    ensures !(j.JObj? && Get(j.fields, "url").Some? && Get(j.fields, "url").value.JStr?
              && fm.isUrl(Get(j.fields, "url").value.s))
            ==> PayloadSchema(PHOTO, j, fm).None?
  {
  }

  /** Everything a payload schema accepts is a well-formed payload of its kind. */
  lemma PayloadSchemaSound(t: EntryType, j: Json, fm: Formats)
    ensures PayloadSchema(t, j, fm).Some? ==>
      WellFormedPayload(PayloadSchema(t, j, fm).value, fm) && PayloadKind(PayloadSchema(t, j, fm).value) == t
  {
  }

  /** Every well-formed payload, sent as JSON under its own kind, is accepted and
      parsed back to itself. */
  lemma PayloadSchemaComplete(p: Payload, fm: Formats)
    requires WellFormedPayload(p, fm)
    ensures PayloadSchema(PayloadKind(p), PayloadJson(p), fm) == Some(p)
  {
    match p
    case CommentPayload(message, author) => CommentPayloadComplete(message, author);
    case CheckinPayload(attendee, source, meta) => CheckinPayloadComplete(attendee, source, meta, fm);
    case PhotoPayload(url, caption) => PhotoPayloadComplete(url, caption, fm);
  }

  lemma CommentPayloadComplete(message: string, author: Option<string>)
    requires |message| >= 1 && (author.Some? ==> |author.value| >= 1)
    ensures CommentPayloadSchema(PayloadJson(CommentPayload(message, author))) == Some(CommentPayload(message, author))
  {
    var o := PayloadJson(CommentPayload(message, author)).fields;
    assert Get(o, "message") == Some(JStr(message));
    assert Get(o, "author") == if author.Some? then Some(JStr(author.value)) else None;
  }

  lemma CheckinPayloadComplete(attendee: Attendee, source: Option<string>, meta: Option<Json>, fm: Formats)
    requires WellFormedPayload(CheckinPayload(attendee, source, meta), fm)
    ensures CheckinPayloadSchema(PayloadJson(CheckinPayload(attendee, source, meta)), fm)
              == Some(CheckinPayload(attendee, source, meta))
  {
    var o := PayloadJson(CheckinPayload(attendee, source, meta)).fields;
    assert Get(o, "attendee") == Some(AttendeeJson(attendee));
    assert Get(o, "source") == if source.Some? then Some(JStr(source.value)) else None;
    assert Get(o, "meta") == meta;
    AttendeeComplete(attendee, fm);
  }

  lemma AttendeeComplete(attendee: Attendee, fm: Formats)
    requires |attendee.name| >= 1 && (attendee.email.Some? ==> fm.isEmail(attendee.email.value))
    ensures AttendeeSchema(Some(AttendeeJson(attendee)), fm) == Some(attendee)
  {
    var a := AttendeeJson(attendee).fields;
    assert Get(a, "name") == Some(JStr(attendee.name));
    assert Get(a, "email") == if attendee.email.Some? then Some(JStr(attendee.email.value)) else None;
  }

  lemma PhotoPayloadComplete(url: string, caption: Option<string>, fm: Formats)
    requires fm.isUrl(url)
    ensures PhotoPayloadSchema(PayloadJson(PhotoPayload(url, caption)), fm) == Some(PhotoPayload(url, caption))
  {
    var o := PayloadJson(PhotoPayload(url, caption)).fields;
    assert Get(o, "url") == Some(JStr(url));
    assert Get(o, "caption") == if caption.Some? then Some(JStr(caption.value)) else None;
  }

  /** The discriminated union: an object whose `type` names a kind is accepted exactly
      when its payload passes that kind's schema, whatever the other schemas say, and the
      parsed entry has that kind. Any other `type` is rejected on the `type` field. */
  lemma FeedEntryChecksOnlyItsKind(j: Json, fm: Formats)
    requires j.JObj?
    ensures var t := Get(j.fields, "type");
      if t.Some? && t.value.JStr? && ParseKind(t.value.s).Some? then
        var kind := ParseKind(t.value.s).value;
        && (CreateFeedEntrySchema(j, fm).Valid? <==>
              "payload" in j.fields && PayloadSchema(kind, j.fields["payload"], fm).Some?)
        && (CreateFeedEntrySchema(j, fm).Valid? ==>
              && CreateFeedEntrySchema(j, fm).value.kind == kind
              && PayloadSchema(kind, j.fields["payload"], fm) == Some(CreateFeedEntrySchema(j, fm).value.payload))
      else CreateFeedEntrySchema(j, fm) == Invalid({"type"})
  {
  }

  // --------------------------------------------------------------- event.schema.ts

  datatype EventInput = EventInput(
    title: string,
    description: Option<string>,
    startAt: int,
    endAt: int,
    capacity: nat,
    status: Option<EventStatus>,
    venueId: Id,
    organizerId: Id)

  /** Rounds toward zero, as `Date` does with fractional milliseconds. */
  function TruncateToInt(n: real): int {
    if n >= 0.0 then n.Floor else -((-n).Floor)
  }

  /** The largest distance from the epoch a `Date` can hold, in ms. */
  const MAX_TIME: real := 8640000000000000.0

  /** `String(v)` of an array element as `Array.prototype.join` writes it: null is empty,
      an array is its elements joined by commas, an object is "[object Object]". */
  function ElementText(v: Json, fm: Formats): string
    decreases v, 1, 0
  {
    match v
    case JNull => ""
    case JBool(b) => if b then "true" else "false"
    case JNum(n) => fm.numberText(n)
    case JStr(s) => s
    case JArr(_) => JoinText(v, 0, fm)
    case JObj(_) => "[object Object]"
  }

  /** `items.slice(i).join(",")` for the items of the array `v`. */
  function JoinText(v: Json, i: nat, fm: Formats): string
    requires v.JArr? && i <= |v.items|
    decreases v, 0, |v.items| - i
  {
    if i == |v.items| then ""
    else if i + 1 == |v.items| then ElementText(v.items[i], fm)
    else ElementText(v.items[i], fm) + "," + JoinText(v, i + 1, fm)
  }

  /** `new Date(text)`: the empty text is an Invalid Date. */
  function DateFromText(s: string, fm: Formats): Option<int> {
    if s == "" then None else fm.parseDate(s)
  }

  /** `Number(text)`: text that is empty or only whitespace is 0. */
  function NumberFromText(s: string, fm: Formats): Option<real> {
    if forall k :: 0 <= k < |s| ==> Text.IsWhitespace(s[k]) then Some(0.0) else fm.parseNumber(s)
  }

  /** `z.coerce.date()`: `new Date(value)`, rejected when it is an Invalid Date. An array
      is read as the text it joins to; an object is never a valid date. */
  function CoerceDate(v: Option<Json>, fm: Formats): Option<int> {
    match v
    case None => None
    case Some(JNull) => Some(0)
    case Some(JBool(b)) => Some(if b then 1 else 0)
    case Some(JNum(n)) => if -MAX_TIME <= n <= MAX_TIME then Some(TruncateToInt(n)) else None
    case Some(JStr(s)) => DateFromText(s, fm)
    case Some(JArr(_)) => DateFromText(ElementText(v.value, fm), fm)
    case Some(JObj(_)) => None
  }

  /** `Number(array)`: the number its joined text reads as. Two or more elements leave a
      comma in the text, which is NaN; a lone number reads back as itself; a lone `true`
      or `false` is NaN. */
  function ArrayNumber(v: Json, fm: Formats): Option<real>
    requires v.JArr?
    decreases v
  {
    if |v.items| == 0 then Some(0.0)
    else if |v.items| >= 2 then None
    else
      match v.items[0]
      case JNull => Some(0.0)
      case JBool(_) => None
      case JNum(n) => Some(n)
      case JStr(s) => NumberFromText(s, fm)
      case JArr(_) => ArrayNumber(v.items[0], fm)
      case JObj(_) => None
  }

  /** `Number(value)`, None for NaN. */
  function CoerceNumber(v: Option<Json>, fm: Formats): Option<real> {
    match v
    case None => None
    case Some(JNull) => Some(0.0)
    case Some(JBool(b)) => Some(if b then 1.0 else 0.0)
    case Some(JNum(n)) => Some(n)
    case Some(JStr(s)) => NumberFromText(s, fm)
    case Some(JArr(_)) => ArrayNumber(v.value, fm)
    case Some(JObj(_)) => None
  }

  /** An array coerces as the text it joins to: the empty array is the number 0 and not
      a date, a one-element array coerces as its element's text, and an array of two or
      more elements is never a number. */
  lemma {:induction false} ArrayCoercion(items: seq<Json>, fm: Formats)
    ensures items == [] ==>
              && CoerceNumber(Some(JArr(items)), fm) == Some(0.0)
              && CoerceDate(Some(JArr(items)), fm).None?
              && CoerceCapacity(Some(JArr(items)), fm) == Some(0)
    ensures |items| == 1 && items[0].JStr? ==>
              && CoerceNumber(Some(JArr(items)), fm) == CoerceNumber(Some(items[0]), fm)
              && CoerceDate(Some(JArr(items)), fm) == CoerceDate(Some(items[0]), fm)
    ensures |items| == 1 && items[0].JNum? ==> CoerceNumber(Some(JArr(items)), fm) == Some(items[0].n)
    ensures |items| == 1 && items[0].JNull? ==>
              && CoerceNumber(Some(JArr(items)), fm) == Some(0.0)
              && CoerceDate(Some(JArr(items)), fm).None?
    ensures |items| >= 2 ==> CoerceNumber(Some(JArr(items)), fm).None?
  {
    var v := JArr(items);
    if items == [] {
      assert ElementText(v, fm) == "";
    } else if |items| == 1 {
      assert ElementText(v, fm) == JoinText(v, 0, fm) == ElementText(items[0], fm);
    }
  }

  /** `z.coerce.number().int().min(0)`. */
  function CoerceCapacity(v: Option<Json>, fm: Formats): (r: Option<nat>)
    ensures r.Some? <==> CoerceNumber(v, fm).Some? && CoerceNumber(v, fm).value >= 0.0
                         && CoerceNumber(v, fm).value == CoerceNumber(v, fm).value.Floor as real
    ensures r.Some? ==> r.value as real == CoerceNumber(v, fm).value
  {
    var n := CoerceNumber(v, fm);
    if n.Some? && n.value >= 0.0 && n.value == n.value.Floor as real then Some(n.value.Floor) else None
  }

  function EventStatusName(s: EventStatus): string {
    match s
    case DRAFT => "DRAFT"
    case PUBLISHED => "PUBLISHED"
    case CLOSED => "CLOSED"
  }

  /** `z.nativeEnum(EventStatus).optional()`. */
  function OptionalEventStatus(v: Option<Json>): (r: Option<Option<EventStatus>>)
    ensures r == Some(None) <==> v.None?
    ensures (r.Some? && r.value.Some?) <==> v.Some? && v.value.JStr? && v.value.s in {"DRAFT", "PUBLISHED", "CLOSED"}
    ensures r.Some? && r.value.Some? ==> v == Some(JStr(EventStatusName(r.value.value)))
  {
    match v
    case None => Some(None)
    case Some(JStr(s)) =>
      if s == "DRAFT" then Some(Some(DRAFT))
      else if s == "PUBLISHED" then Some(Some(PUBLISHED))
      else if s == "CLOSED" then Some(Some(CLOSED))
      else None
    case Some(_) => None
  }

  function Uuid(v: Option<Json>, fm: Formats): Option<Id> {
    if v.Some? && v.value.JStr? then fm.uuid(v.value.s) else None
  }

  function Failed<T>(name: string, v: Option<T>): set<string> {
    if v.None? then {name} else {}
  }

  /** `createEventSchema`; every failing field is reported. */
  function CreateEventSchema(j: Json, fm: Formats): Parsed<EventInput> {
    if !j.JObj? then Invalid({""})
    else
      var o := j.fields;
      var title := NonEmptyString(Get(o, "title"));
      var description := OptionalString(Get(o, "description"), AnyString);
      var startAt := CoerceDate(Get(o, "startAt"), fm);
      var endAt := CoerceDate(Get(o, "endAt"), fm);
      var capacity := CoerceCapacity(Get(o, "capacity"), fm);
      var status := OptionalEventStatus(Get(o, "status"));
      var venueId := Uuid(Get(o, "venueId"), fm);
      var organizerId := Uuid(Get(o, "organizerId"), fm);
      if && title.Some? && description.Some? && startAt.Some? && endAt.Some? && capacity.Some?
         && status.Some? && venueId.Some? && organizerId.Some?
      then
        Valid(EventInput(title.value, description.value, startAt.value, endAt.value, capacity.value,
                         status.value, venueId.value, organizerId.value))
      else
        Invalid(Failed("title", title) + Failed("description", description)
          + Failed("startAt", startAt) + Failed("endAt", endAt) + Failed("capacity", capacity)
          + Failed("status", status) + Failed("venueId", venueId) + Failed("organizerId", organizerId))
  }

  /** What `createEventSchema` guarantees of an accepted body: a non-empty title, a
      string description if any, whole non-negative capacity, a listed status if any,
      and UUIDs naming the venue and organizer; each field that breaks its rule is
      reported by name. */
  lemma CreateEventSchemaFields(j: Json, fm: Formats)
    requires j.JObj?
    ensures var r := CreateEventSchema(j, fm);
      var o := j.fields;
      && (r.Valid? ==>
            && |r.value.title| >= 1 && Get(o, "title") == Some(JStr(r.value.title))
            && (r.value.description.Some? ==> Get(o, "description") == Some(JStr(r.value.description.value)))
            && (r.value.description.None? ==> "description" !in o)
            && CoerceNumber(Get(o, "capacity"), fm) == Some(r.value.capacity as real)
            && CoerceDate(Get(o, "startAt"), fm) == Some(r.value.startAt)
            && CoerceDate(Get(o, "endAt"), fm) == Some(r.value.endAt)
            && OptionalEventStatus(Get(o, "status")) == Some(r.value.status)
            && (r.value.status.None? <==> "status" !in o)
            && Get(o, "venueId").Some? && Get(o, "venueId").value.JStr?
            && fm.uuid(Get(o, "venueId").value.s) == Some(r.value.venueId)
            && Get(o, "organizerId").Some? && Get(o, "organizerId").value.JStr?
            && fm.uuid(Get(o, "organizerId").value.s) == Some(r.value.organizerId))
      && (NonEmptyString(Get(o, "title")).None? ==> r.Invalid? && "title" in r.fields)
      && (CoerceCapacity(Get(o, "capacity"), fm).None? ==> r.Invalid? && "capacity" in r.fields)
      && (OptionalEventStatus(Get(o, "status")).None? ==> r.Invalid? && "status" in r.fields)
      && (CoerceDate(Get(o, "startAt"), fm).None? ==> r.Invalid? && "startAt" in r.fields)
      && (CoerceDate(Get(o, "endAt"), fm).None? ==> r.Invalid? && "endAt" in r.fields)
  {
  }

  /** JavaScript truthiness, which `z.coerce.boolean()` applies. */
  predicate Truthy(v: Json) {
    match v
    case JNull => false
    case JBool(b) => b
    case JNum(n) => n != 0.0
    case JStr(s) => s != ""
    case _ => true
  }

  /** `listEventsQuerySchema`: an absent `upcoming` stays absent; any present value is
      coerced by truthiness, never rejected. */
  function ListEventsQuerySchema(query: map<string, Json>): (upcoming: Option<bool>)
    ensures upcoming.None? <==> "upcoming" !in query
    ensures upcoming.Some? ==> upcoming.value == Truthy(query["upcoming"])
  {
    if "upcoming" in query then Some(Truthy(query["upcoming"])) else None
  }

  /** A query string `?upcoming=false` turns the filter on: the string is non-empty. */
  lemma UpcomingFalseStringIsTrue(query: map<string, Json>)
    requires "upcoming" in query && query["upcoming"] == JStr("false")
    ensures ListEventsQuerySchema(query) == Some(true)
  {
  }
}
