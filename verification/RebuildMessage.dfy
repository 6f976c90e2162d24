/** Rebuild requests as they travel on Kafka (analytics/src/kafka_rebuild_parse.go), at the level of JSON field maps. */
module RebuildMessage {
  import opened Common
  import opened Spaces

  /** The value of a JSON field; an absent field is not in the map. */
  datatype Field = Text(text: string) | Number(n: int) | Null | Other

  /** The field names that the parser looks at, and any other. */
  datatype Name =
    | EventId | EventType | SchemaVersion | CorrelationId | CausationId | OccurredAt | RecoveryJobId | SourceContext
    | ExpectedSourceTopic | FromCheckpoint | ToCheckpoint | FromOccurredAt | ToOccurredAt | PageCursor | Attempt
    | Events | HeldEvents | Records | Payloads | OtherName(text: string)

  type Fields = map<Name, Field>

  /** A point in time; Go's zero time is 0 here. */
  type Time = int

  datatype Request = Request(
    eventId: string, eventType: string, schemaVersion: int, correlationId: string, causationId: string, occurredAt: Time,
    jobId: string, context: string, topic: string, fromCp: string, toCp: string, fromAt: Time, toAt: Time,
    hasCp: bool, hasAt: bool, cursor: string, attempt: int)

  /** time.Format and parseKafkaTime. */
  datatype Clock = Clock(format: Time -> string, parse: string -> Option<Time>)

  /** A time that was formatted parses back, and its text is neither blank nor padded. */
  ghost predicate TimesRoundTrip(k: Clock)
  {
    forall t :: k.parse(k.format(t)) == Some(t) && k.format(t) != "" && Trimmed(k.format(t))
  }

  const EVENT_TYPE := "AnalyticsProjectionRebuildRequested"

  predicate ValidContextTopic(context: string, topic: string)
  {
    match context
    case "room" => topic in {"room.gameplay.metrics", "room.match.completed"}
    case "tournament" =>
      topic in {"tournament.match.assigned", "tournament.match.result_recorded", "tournament.players.advanced",
                "tournament.round.completed", "tournament.completed"}
    case "ranking" => topic in {"ranking.player_rating_updated", "ranking.leaderboard_snapshot_published"}
    case _ => false
  }

  predicate Present(m: Fields, f: Name) { f in m && m[f] != Null }

  function RequireText(m: Fields, f: Name): Option<string>
  {
    if !Present(m, f) || !m[f].Text? || Trim(m[f].text) == "" then None else Some(Trim(m[f].text))
  }

  /** optionalNonEmptyString: None is an error, Some("") an absent field. */
  function OptionalNonEmpty(m: Fields, f: Name): Option<string>
  {
    if !Present(m, f) then Some("") else RequireText(m, f)
  }

  function OptionalText(m: Fields, f: Name): Option<string>
  {
    if !Present(m, f) then Some("") else if m[f].Text? then Some(Trim(m[f].text)) else None
  }

  function RequireTime(k: Clock, m: Fields, f: Name): Option<Time>
  {
    if !Present(m, f) || !m[f].Text? || Trim(m[f].text) == "" then None else k.parse(Trim(m[f].text))
  }

  datatype Range<T> = Range(present: bool, from: T, to: T)

  function CheckpointRange(m: Fields): Option<Range<string>>
  {
    var a, b := OptionalNonEmpty(m, FromCheckpoint), OptionalNonEmpty(m, ToCheckpoint);
    if a.None? || b.None? || Present(m, FromCheckpoint) != Present(m, ToCheckpoint) then None
    else Some(Range(Present(m, FromCheckpoint), a.value, b.value))
  }

  function TimeRange(k: Clock, m: Fields): Option<Range<Time>>
  {
    if Present(m, FromOccurredAt) != Present(m, ToOccurredAt) then None
    else if !Present(m, FromOccurredAt) then Some(Range(false, 0, 0))
    else
      var a, b := RequireTime(k, m, FromOccurredAt), RequireTime(k, m, ToOccurredAt);
      if a.None? || b.None? || b.value < a.value then None else Some(Range(true, a.value, b.value))
  }

  function AttemptOf(m: Fields): Option<int>
  {
    if !Present(m, Attempt) then Some(0)
    else if !m[Attempt].Number? || m[Attempt].n < 1 then None
    else Some(m[Attempt].n)
  }

  const FORBIDDEN: set<Name> := {Events, HeldEvents, Records, Payloads}

  /** ParseAnalyticsProjectionRebuildRequested. */
  function Parse(k: Clock, m: Fields): Option<Request>
  {
    var eventId, eventType, correlationId := RequireText(m, EventId), RequireText(m, EventType), RequireText(m, CorrelationId);
    var occurredAt := RequireTime(k, m, OccurredAt);
    var jobId, context, topic := RequireText(m, RecoveryJobId), RequireText(m, SourceContext), RequireText(m, ExpectedSourceTopic);
    var cps, times := CheckpointRange(m), TimeRange(k, m);
    var cursor, causationId, attempt := OptionalText(m, PageCursor), OptionalText(m, CausationId), AttemptOf(m);
    if exists f :: f in FORBIDDEN && Present(m, f) then None
    else if eventId.None? || eventType.None? || correlationId.None? || occurredAt.None? then None
    else if !Present(m, SchemaVersion) || m[SchemaVersion] != Number(1) || eventType.value != EVENT_TYPE then None
    else if jobId.None? || context.None? || topic.None? || !ValidContextTopic(context.value, topic.value) then None
    else if cps.None? || times.None? || (!cps.value.present && !times.value.present) then None
    else if cursor.None? || causationId.None? || attempt.None? then None
    else
      Some(Request(eventId.value, eventType.value, 1, correlationId.value, causationId.value, occurredAt.value,
                   jobId.value, context.value, topic.value, cps.value.from, cps.value.to, times.value.from, times.value.to,
                   cps.value.present, times.value.present, cursor.value, attempt.value))
  }

  /** The value that a request gives to a field, if any. */
  function ValueOf(k: Clock, r: Request, f: Name): Option<Field>
  {
    match f
    case EventId => Some(Text(r.eventId))
    case EventType => Some(Text(EVENT_TYPE))
    case SchemaVersion => Some(Number(1))
    case CorrelationId => Some(Text(r.correlationId))
    case OccurredAt => Some(Text(k.format(r.occurredAt)))
    case RecoveryJobId => Some(Text(r.jobId))
    case SourceContext => Some(Text(r.context))
    case ExpectedSourceTopic => Some(Text(r.topic))
    case CausationId => if r.causationId != "" then Some(Text(r.causationId)) else None
    case FromCheckpoint => if r.hasCp then Some(Text(r.fromCp)) else None
    case ToCheckpoint => if r.hasCp then Some(Text(r.toCp)) else None
    case FromOccurredAt => if r.hasAt then Some(Text(k.format(r.fromAt))) else None
    case ToOccurredAt => if r.hasAt then Some(Text(k.format(r.toAt))) else None
    case PageCursor => if r.cursor != "" then Some(Text(r.cursor)) else None
    case Attempt => if r.attempt > 0 then Some(Number(r.attempt)) else None
    case _ => None
  }

  const WRITTEN: set<Name> := {EventId, EventType, SchemaVersion, CorrelationId, OccurredAt, RecoveryJobId, SourceContext,
                               ExpectedSourceTopic, CausationId, FromCheckpoint, ToCheckpoint, FromOccurredAt, ToOccurredAt,
                               PageCursor, Attempt}

  function Encode(k: Clock, r: Request): Fields
  {
    map f | f in WRITTEN && ValueOf(k, r, f).Some? :: ValueOf(k, r, f).value
  }

  ghost predicate Holds(k: Clock, r: Request, m: Fields, done: set<Name>)
  {
    forall f :: (f in m <==> f in done && ValueOf(k, r, f).Some?) && (f in m ==> ValueOf(k, r, f) == Some(m[f]))
  }

  lemma Written(k: Clock, r: Request, m: Fields, done: set<Name>, f: Name)
    requires Holds(k, r, m, done) && f !in done
    ensures Holds(k, r, if ValueOf(k, r, f).Some? then m[f := ValueOf(k, r, f).value] else m, done + {f})
  {
    hide ValueOf;
  }

  /** EncodeAnalyticsProjectionRebuildRequested, before the map is written as JSON. */
  method EncodeRequest(k: Clock, req: Request) returns (body: Fields)
    ensures body == Encode(k, req)
  {
    hide Holds, ValueOf, Encode;
    Optional(k, req);
    body := map[EventId := Text(req.eventId), EventType := Text(EVENT_TYPE), SchemaVersion := Number(1),
                CorrelationId := Text(req.correlationId), OccurredAt := Text(k.format(req.occurredAt)),
                RecoveryJobId := Text(req.jobId), SourceContext := Text(req.context), ExpectedSourceTopic := Text(req.topic)];
    ghost var done := {EventId, EventType, SchemaVersion, CorrelationId, OccurredAt, RecoveryJobId, SourceContext, ExpectedSourceTopic};
    assert Holds(k, req, body, done) by { Required(k, req, body, done); }
    Written(k, req, body, done, CausationId);
    if req.causationId != "" { body := body[CausationId := Text(req.causationId)]; }
    done := done + {CausationId};
    Written(k, req, body, done, FromCheckpoint);
    if req.hasCp { body := body[FromCheckpoint := Text(req.fromCp)]; }
    done := done + {FromCheckpoint};
    Written(k, req, body, done, ToCheckpoint);
    if req.hasCp { body := body[ToCheckpoint := Text(req.toCp)]; }
    done := done + {ToCheckpoint};
    Written(k, req, body, done, FromOccurredAt);
    if req.hasAt { body := body[FromOccurredAt := Text(k.format(req.fromAt))]; }
    done := done + {FromOccurredAt};
    Written(k, req, body, done, ToOccurredAt);
    if req.hasAt { body := body[ToOccurredAt := Text(k.format(req.toAt))]; }
    done := done + {ToOccurredAt};
    Written(k, req, body, done, PageCursor);
    if req.cursor != "" { body := body[PageCursor := Text(req.cursor)]; }
    done := done + {PageCursor};
    Written(k, req, body, done, Attempt);
    if req.attempt > 0 { body := body[Attempt := Number(req.attempt)]; }
    done := done + {Attempt};
    AllWritten(k, req, body, done);
  }

  /** The values of the fields that may be missing. */
  lemma Optional(k: Clock, r: Request)
    ensures ValueOf(k, r, CausationId) == if r.causationId != "" then Some(Text(r.causationId)) else None
    ensures ValueOf(k, r, FromCheckpoint) == if r.hasCp then Some(Text(r.fromCp)) else None
    ensures ValueOf(k, r, ToCheckpoint) == if r.hasCp then Some(Text(r.toCp)) else None
    ensures ValueOf(k, r, FromOccurredAt) == if r.hasAt then Some(Text(k.format(r.fromAt))) else None
    ensures ValueOf(k, r, ToOccurredAt) == if r.hasAt then Some(Text(k.format(r.toAt))) else None
    ensures ValueOf(k, r, PageCursor) == if r.cursor != "" then Some(Text(r.cursor)) else None
    ensures ValueOf(k, r, Attempt) == if r.attempt > 0 then Some(Number(r.attempt)) else None
  {}

  lemma Required(k: Clock, r: Request, m: Fields, done: set<Name>)
    requires m == map[EventId := Text(r.eventId), EventType := Text(EVENT_TYPE), SchemaVersion := Number(1),
                      CorrelationId := Text(r.correlationId), OccurredAt := Text(k.format(r.occurredAt)),
                      RecoveryJobId := Text(r.jobId), SourceContext := Text(r.context), ExpectedSourceTopic := Text(r.topic)]
    requires done == {EventId, EventType, SchemaVersion, CorrelationId, OccurredAt, RecoveryJobId, SourceContext, ExpectedSourceTopic}
    ensures Holds(k, r, m, done)
  {}

  lemma AllWritten(k: Clock, r: Request, m: Fields, done: set<Name>)
    requires Holds(k, r, m, done) && done == WRITTEN
    ensures m == Encode(k, r)
  {
    hide ValueOf;
  }

  /** What every parsed request satisfies. */
  predicate WellFormed(r: Request)
  {
    && r.eventId != "" && Trimmed(r.eventId) && r.eventType == EVENT_TYPE && r.schemaVersion == 1
    && r.correlationId != "" && Trimmed(r.correlationId) && Trimmed(r.causationId)
    && r.jobId != "" && Trimmed(r.jobId) && r.context != "" && Trimmed(r.context) && r.topic != "" && Trimmed(r.topic)
    && ValidContextTopic(r.context, r.topic)
    && (if r.hasCp then r.fromCp != "" && Trimmed(r.fromCp) && r.toCp != "" && Trimmed(r.toCp) else r.fromCp == "" && r.toCp == "")
    && (if r.hasAt then r.fromAt <= r.toAt else r.fromAt == 0 && r.toAt == 0)
    && (r.hasCp || r.hasAt) && Trimmed(r.cursor) && r.attempt >= 0
  }

  lemma ParsedIsWellFormed(k: Clock, m: Fields)
    requires Parse(k, m).Some?
    ensures WellFormed(Parse(k, m).value)
  {
    hide Trim, Trimmed;
    TrimEmpty();
    forall s ensures Trimmed(Trim(s)) { TrimIsTrimmed(s); }
  }

  lemma TrimEmpty()
    ensures Trimmed("") && Trim("") == "" && Trimmed(EVENT_TYPE)
  {
    PlainEnds(EVENT_TYPE);
  }

  lemma TrimOf(s: string)
    requires Trimmed(s)
    ensures Trim(s) == s
  {
    TrimIsTrimmed(s);
  }

  /** A field is present in an encoded request exactly when the request has a value for it. */
  lemma EncodedField(k: Clock, r: Request, f: Name)
    requires f in WRITTEN
    ensures var m := Encode(k, r);
            (Present(m, f) <==> ValueOf(k, r, f).Some?) && (Present(m, f) ==> f in m && Some(m[f]) == ValueOf(k, r, f))
  {}

  /** A well-formed request is read back exactly as it was written. */
  lemma EncodeRoundTrip(k: Clock, r: Request)
    requires TimesRoundTrip(k) && WellFormed(r)
    ensures Parse(k, Encode(k, r)) == Some(r)
  {
    hide Trim, Trimmed, ValidContextTopic, Encode, CheckpointRange, TimeRange, Present;
    var m := Encode(k, r);
    EncodedField(k, r, EventId); EncodedField(k, r, EventType); EncodedField(k, r, SchemaVersion); EncodedField(k, r, CorrelationId);
    EncodedField(k, r, OccurredAt); EncodedField(k, r, RecoveryJobId); EncodedField(k, r, SourceContext);
    EncodedField(k, r, ExpectedSourceTopic); EncodedField(k, r, CausationId); EncodedField(k, r, PageCursor);
    EncodedField(k, r, Attempt);
    Forbidden(k, r);
    RangesRoundTrip(k, r);
    TrimEmpty();
    TrimOf(r.eventId); TrimOf(EVENT_TYPE); TrimOf(r.correlationId); TrimOf(r.causationId);
    TrimOf(r.jobId); TrimOf(r.context); TrimOf(r.topic); TrimOf(r.cursor); TrimOf(k.format(r.occurredAt));
  }

  lemma RangesRoundTrip(k: Clock, r: Request)
    requires TimesRoundTrip(k) && WellFormed(r)
    ensures CheckpointRange(Encode(k, r)) == Some(Range(r.hasCp, r.fromCp, r.toCp))
    ensures TimeRange(k, Encode(k, r)) == Some(Range(r.hasAt, r.fromAt, r.toAt))
  {
    hide Trim, Trimmed, ValidContextTopic, Encode, Present;
    EncodedField(k, r, FromCheckpoint); EncodedField(k, r, ToCheckpoint);
    EncodedField(k, r, FromOccurredAt); EncodedField(k, r, ToOccurredAt);
    TrimOf(k.format(r.fromAt)); TrimOf(k.format(r.toAt));
    if r.hasCp { TrimOf(r.fromCp); TrimOf(r.toCp); }
  }

  lemma Forbidden(k: Clock, r: Request)
    ensures forall f :: f in FORBIDDEN ==> !Present(Encode(k, r), f)
  {}

  // ---- what is accepted

  /** The field holds this text, apart from white space around it, and is not blank. */
  predicate SaysText(m: Fields, f: Name, value: string)
  {
    f in m && m[f].Text? && Trim(m[f].text) == value && value != ""
  }

  predicate Lacks(m: Fields, f: Name) { f !in m || m[f] == Null }

  predicate SaysTime(k: Clock, m: Fields, f: Name, t: Time)
  {
    f in m && m[f].Text? && Trim(m[f].text) != "" && k.parse(Trim(m[f].text)) == Some(t)
  }

  /** The topics that a context owns. */
  const TOPICS: set<(string, string)> :=
    {("room", "room.gameplay.metrics"), ("room", "room.match.completed"), ("tournament", "tournament.match.assigned"),
     ("tournament", "tournament.match.result_recorded"), ("tournament", "tournament.players.advanced"),
     ("tournament", "tournament.round.completed"), ("tournament", "tournament.completed"),
     ("ranking", "ranking.player_rating_updated"), ("ranking", "ranking.leaderboard_snapshot_published")}

  lemma TopicsOwned(context: string, topic: string)
    ensures ValidContextTopic(context, topic) <==> (context, topic) in TOPICS
  {}

  /** The message has no row data, says who asks for which job and range, and says every field of the request. */
  predicate Says(k: Clock, m: Fields, r: Request)
  {
    && Lacks(m, Events) && Lacks(m, HeldEvents) && Lacks(m, Records) && Lacks(m, Payloads)
    && SchemaVersion in m && m[SchemaVersion] == Number(1) && r.schemaVersion == 1
    && SaysText(m, EventType, "AnalyticsProjectionRebuildRequested") && r.eventType == "AnalyticsProjectionRebuildRequested"
    && SaysText(m, EventId, r.eventId) && SaysText(m, CorrelationId, r.correlationId) && SaysTime(k, m, OccurredAt, r.occurredAt)
    && SaysText(m, RecoveryJobId, r.jobId) && SaysText(m, SourceContext, r.context) && SaysText(m, ExpectedSourceTopic, r.topic)
    && (r.context, r.topic) in TOPICS
    && (if r.hasCp then SaysText(m, FromCheckpoint, r.fromCp) && SaysText(m, ToCheckpoint, r.toCp)
        else Lacks(m, FromCheckpoint) && Lacks(m, ToCheckpoint) && r.fromCp == r.toCp == "")
    && (if r.hasAt then SaysTime(k, m, FromOccurredAt, r.fromAt) && SaysTime(k, m, ToOccurredAt, r.toAt) && r.fromAt <= r.toAt
        else Lacks(m, FromOccurredAt) && Lacks(m, ToOccurredAt) && r.fromAt == r.toAt == 0)
    && (r.hasCp || r.hasAt)
    && (if Lacks(m, PageCursor) then r.cursor == "" else m[PageCursor].Text? && Trim(m[PageCursor].text) == r.cursor)
    && (if Lacks(m, CausationId) then r.causationId == "" else m[CausationId].Text? && Trim(m[CausationId].text) == r.causationId)
    && (if Lacks(m, Attempt) then r.attempt == 0 else m[Attempt].Number? && m[Attempt].n == r.attempt >= 1)
  }

  lemma TextRead(m: Fields, f: Name)
    ensures forall v :: RequireText(m, f) == Some(v) <==> SaysText(m, f, v)
    ensures OptionalNonEmpty(m, f).Some? <==> Lacks(m, f) || RequireText(m, f).Some?
  {
    hide Trim;
  }

  lemma RangesRead(k: Clock, m: Fields, r: Request)
    ensures CheckpointRange(m) == Some(Range(r.hasCp, r.fromCp, r.toCp)) <==>
              if r.hasCp then SaysText(m, FromCheckpoint, r.fromCp) && SaysText(m, ToCheckpoint, r.toCp)
              else Lacks(m, FromCheckpoint) && Lacks(m, ToCheckpoint) && r.fromCp == r.toCp == ""
    ensures TimeRange(k, m) == Some(Range(r.hasAt, r.fromAt, r.toAt)) <==>
              if r.hasAt then SaysTime(k, m, FromOccurredAt, r.fromAt) && SaysTime(k, m, ToOccurredAt, r.toAt) && r.fromAt <= r.toAt
              else Lacks(m, FromOccurredAt) && Lacks(m, ToOccurredAt) && r.fromAt == r.toAt == 0
  {
    hide Trim;
  }

  lemma RestRead(k: Clock, m: Fields, r: Request)
    ensures RequireTime(k, m, OccurredAt) == Some(r.occurredAt) <==> SaysTime(k, m, OccurredAt, r.occurredAt)
    ensures OptionalText(m, PageCursor) == Some(r.cursor) <==>
              if Lacks(m, PageCursor) then r.cursor == "" else m[PageCursor].Text? && Trim(m[PageCursor].text) == r.cursor
    ensures OptionalText(m, CausationId) == Some(r.causationId) <==>
              if Lacks(m, CausationId) then r.causationId == "" else m[CausationId].Text? && Trim(m[CausationId].text) == r.causationId
    ensures AttemptOf(m) == Some(r.attempt) <==>
              if Lacks(m, Attempt) then r.attempt == 0 else m[Attempt].Number? && m[Attempt].n == r.attempt >= 1
    ensures Present(m, SchemaVersion) && m[SchemaVersion] == Number(1) <==> SchemaVersion in m && m[SchemaVersion] == Number(1)
  {
    hide Trim;
  }

  /** A message is read as a request exactly when it says that request; so it says only one. */
  lemma ParsedExactly(k: Clock, m: Fields, r: Request)
    ensures Parse(k, m) == Some(r) <==> Says(k, m, r)
  {
    hide Trim, CheckpointRange, TimeRange, SaysText, SaysTime, RequireText, RequireTime, OptionalText, AttemptOf, ValidContextTopic;
    TextRead(m, EventId);
    TextRead(m, EventType);
    TextRead(m, CorrelationId);
    TextRead(m, RecoveryJobId);
    TextRead(m, SourceContext);
    TextRead(m, ExpectedSourceTopic);
    TopicsOwned(r.context, r.topic);
    RangesRead(k, m, r);
    RestRead(k, m, r);
    NoRowData(m);
  }

  lemma NoRowData(m: Fields)
    ensures (exists f :: f in FORBIDDEN && Present(m, f)) <==>
              !(Lacks(m, Events) && Lacks(m, HeldEvents) && Lacks(m, Records) && Lacks(m, Payloads))
  {
    assert Events in FORBIDDEN && HeldEvents in FORBIDDEN && Records in FORBIDDEN && Payloads in FORBIDDEN;
    assert Present(m, Events) <==> !Lacks(m, Events);
    assert Present(m, HeldEvents) <==> !Lacks(m, HeldEvents);
    assert Present(m, Records) <==> !Lacks(m, Records);
    assert Present(m, Payloads) <==> !Lacks(m, Payloads);
  }

  // ---- follow-ups

  /** buildFollowUp. followUpId is the deterministic event id of the request's page. */
  function FollowUp(req: Request, eventId: string, followUpId: string, cursor: string, now: Time): Request
  {
    req.(eventId := if eventId == "" then followUpId else eventId, causationId := req.eventId, occurredAt := now,
         cursor := cursor, attempt := 1)
  }

  /** Follow-ups of parsed requests survive encoding and parsing unchanged. */
  lemma FollowUpSurvives(k: Clock, m: Fields, eventId: string, followUpId: string, cursor: string, now: Time)
    requires TimesRoundTrip(k) && Parse(k, m).Some?
    requires Trimmed(eventId) && Trimmed(followUpId) && followUpId != "" && Trimmed(cursor)
    ensures var f := FollowUp(Parse(k, m).value, eventId, followUpId, cursor, now);
            WellFormed(f) && Parse(k, Encode(k, f)) == Some(f)
  {
    hide Trimmed, Parse, Encode, ValidContextTopic, TimesRoundTrip;
    ParsedIsWellFormed(k, m);
    EncodeRoundTrip(k, FollowUp(Parse(k, m).value, eventId, followUpId, cursor, now));
  }
}
