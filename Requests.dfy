/**
 The bot's request path: `validate_json` classifies the parsed message text and
 hands a well-formed query to `json_response`, which converts the two
 timestamps, asks the store for the per-bucket sums, looks the granularity up
 in `TYPE_GROUPS` and runs the fill.

 JSON parsing, ISO-8601 parsing, the store's aggregation and the calendar
 arithmetic are outside the model and enter as values and function parameters.
 */
module Requests {
  import opened TimeSeries

  datatype Option<T> = None | Some(value: T)

  /** A parsed JSON value; objects are dictionaries, as `json.loads` builds them. */
  datatype Json =
    | JNull
    | JBool(b: bool)
    | JNumber(n: real)
    | JString(s: string)
    | JArray(items: seq<Json>)
    | JObject(fields: map<string, Json>)

  /** What `json.loads` made of the message text. */
  datatype Parsed = Malformed | Loaded(value: Json)

  /** Python's truth value of a parsed JSON value. */
  predicate Truthy(j: Json) {
    match j
    case JNull => false
    case JBool(b) => b
    case JNumber(n) => n != 0.0
    case JString(s) => s != ""
    case JArray(items) => items != []
    case JObject(fields) => fields != map[]
  }

  const RequiredKeys: set<string> := {"dt_from", "dt_upto", "group_type"}

  datatype Granularity = Month | Day | Hour

  /** The keys of `TYPE_GROUPS`, each standing for its calendar step. */
  const TypeGroups: map<string, Granularity> := map["month" := Month, "day" := Day, "hour" := Hour]

  /** How `validate_json`'s `try` block ends. */
  datatype Verdict =
    | NotJson                 // json.JSONDecodeError
    | EmptyJson               // EmptyJsonClientError
    | InvalidQuery            // KeyError on one of the three lookups
    | NotAnObject             // a truthy non-dictionary: the lookup raises TypeError, which no handler catches
    | HandOff(dtFrom: Json, dtUpto: Json, groupType: Json)

  function Classify(p: Parsed): Verdict {
    match p
    case Malformed => NotJson
    case Loaded(j) =>
      if !Truthy(j) then EmptyJson
      else if !j.JObject? then NotAnObject
      else if "dt_from" !in j.fields || "dt_upto" !in j.fields || "group_type" !in j.fields then InvalidQuery
      else HandOff(j.fields["dt_from"], j.fields["dt_upto"], j.fields["group_type"])
  }

  /** The sample query every error message ends with. */
  const Example: string :=
    "{\n   \"dt_from\": \"2022-09-01T00:00:00\",\n   \"dt_upto\": \"2022-12-31T23:59:00\",\n   \"group_type\": \"month\"\n}\n    "

  const NotJsonMessage: string := "Not json data. For example:\n" + Example
  const EmptyJsonMessage: string := "Empty json data. For example:\n" + Example
  const InvalidQueryMessage: string := "Invalid query. For example:\n" + Example

  /** Where an exception escapes the request path unhandled. */
  datatype Failure =
    | Unsubscriptable         // a truthy non-dictionary indexed by a key
    | BadTimestamp            // fromisoformat given a non-string or a malformed string
    | UnknownGroupType        // TYPE_GROUPS[group_type] with a key it lacks

  /** What the bot makes of one message: a text reply, a series (before `json.dumps`) or an escaped exception. */
  datatype Reply =
    | Message(text: string)
    | Series(labels: seq<Timestamp>, dataset: seq<int>)
    | Raised(failure: Failure)

  /** `datetime.fromisoformat` on a JSON value, with the ISO-8601 parser as a parameter. */
  function TimeOf(j: Json, parseIso: string -> Option<Timestamp>): Option<Timestamp> {
    if j.JString? then parseIso(j.s) else None
  }

  /** `TYPE_GROUPS[group_type]`. */
  function GroupOf(j: Json): Option<Granularity> {
    if j.JString? && j.s in TypeGroups then Some(TypeGroups[j.s]) else None
  }

  /** The calendar step of one granularity, `timestamp + TYPE_GROUPS[...]`. */
  ghost predicate AdvancesAll(advance: (Granularity, Timestamp) -> Timestamp) {
    forall g, t :: advance(g, t) > t
  }

  function StepBy(advance: (Granularity, Timestamp) -> Timestamp, g: Granularity): Timestamp -> Timestamp {
    t => advance(g, t)
  }

  lemma StepByAdvances(advance: (Granularity, Timestamp) -> Timestamp, g: Granularity)
    requires AdvancesAll(advance)
    ensures Advancing(StepBy(advance, g))
  {
  }

  /**
   What `json_response` returns: both timestamps are converted first, then the
   store is queried, then the granularity is looked up, then the fill runs.
   This is the specification of the method `JsonResponse`, with the
   specification `Emit` in place of the loop `Fill`.
   */
  function Respond(dtFrom: Json, dtUpto: Json, groupType: Json, parseIso: string -> Option<Timestamp>,
                   store: (Timestamp, Timestamp, Json) -> seq<Record>,
                   advance: (Granularity, Timestamp) -> Timestamp): Reply
    requires AdvancesAll(advance)
  {
    var from, upto := TimeOf(dtFrom, parseIso), TimeOf(dtUpto, parseIso);
    if from.None? || upto.None? then Raised(BadTimestamp)
    else
      var records := store(from.value, upto.value, groupType);
      match GroupOf(groupType)
      case None => Raised(UnknownGroupType)
      case Some(g) =>
        StepByAdvances(advance, g);
        var out := Emit(from.value, upto.value, StepBy(advance, g), records);
        Series(Labels(out), Dataset(out))
  }

  /**
   `json_response` itself: the same steps as `Respond`, running the fill loop
   `Fill`; its first ensures says it computes exactly `Respond`.
   */
  method JsonResponse(dtFrom: Json, dtUpto: Json, groupType: Json, parseIso: string -> Option<Timestamp>,
                      store: (Timestamp, Timestamp, Json) -> seq<Record>,
                      advance: (Granularity, Timestamp) -> Timestamp)
    returns (reply: Reply)
    requires AdvancesAll(advance)
    ensures reply == Respond(dtFrom, dtUpto, groupType, parseIso, store, advance)
    ensures reply.Series? ==> |reply.labels| == |reply.dataset|
  {
    var from, upto := TimeOf(dtFrom, parseIso), TimeOf(dtUpto, parseIso);
    if from.None? || upto.None? {
      return Raised(BadTimestamp);
    }
    var records := store(from.value, upto.value, groupType);
    var group := GroupOf(groupType);
    if group.None? {
      return Raised(UnknownGroupType);
    }
    StepByAdvances(advance, group.value);
    var labels, dataset, _ := Fill(from.value, upto.value, StepBy(advance, group.value), records);
    reply := Series(labels, dataset);
  }

  /**
   `validate_json`: the three caught errors become their messages, a truthy
   non-dictionary escapes, and a complete query is the delegate's reply.
   */
  method ValidateJson(query: Parsed, parseIso: string -> Option<Timestamp>,
                      store: (Timestamp, Timestamp, Json) -> seq<Record>,
                      advance: (Granularity, Timestamp) -> Timestamp)
    returns (reply: Reply)
    requires AdvancesAll(advance)
    ensures Classify(query) == NotJson ==> reply == Message(NotJsonMessage)
    ensures Classify(query) == EmptyJson ==> reply == Message(EmptyJsonMessage)
    ensures Classify(query) == InvalidQuery ==> reply == Message(InvalidQueryMessage)
    ensures Classify(query) == NotAnObject ==> reply == Raised(Unsubscriptable)
    ensures Classify(query).HandOff? ==>
      var v := Classify(query);
      reply == Respond(v.dtFrom, v.dtUpto, v.groupType, parseIso, store, advance)
  {
    match Classify(query)
    case NotJson => reply := Message(NotJsonMessage);
    case EmptyJson => reply := Message(EmptyJsonMessage);
    case InvalidQuery => reply := Message(InvalidQueryMessage);
    case NotAnObject => reply := Raised(Unsubscriptable);
    case HandOff(dtFrom, dtUpto, groupType) =>
      reply := JsonResponse(dtFrom, dtUpto, groupType, parseIso, store, advance);
  }

  // ---------------------------------------------------------------------------
  // Properties of the classifier

  /**
   The checks run in order: parse, then truthiness, then the keys. A query is
   handed off exactly when it is an object holding all three keys, whatever
   their values.
   */
  lemma ClassifyOutcomes(p: Parsed)
    ensures Classify(p) == NotJson <==> p.Malformed?
    ensures Classify(p) == EmptyJson <==> p.Loaded? && !Truthy(p.value)
    ensures Classify(p) == NotAnObject <==> p.Loaded? && Truthy(p.value) && !p.value.JObject?
    ensures Classify(p) == InvalidQuery <==>
      p.Loaded? && p.value.JObject? && p.value.fields != map[] && !(RequiredKeys <= p.value.fields.Keys)
    ensures Classify(p).HandOff? <==> p.Loaded? && p.value.JObject? && RequiredKeys <= p.value.fields.Keys
    ensures Classify(p).HandOff? ==>
      Classify(p) == HandOff(p.value.fields["dt_from"], p.value.fields["dt_upto"], p.value.fields["group_type"])
  {
    if p.Loaded? && p.value.JObject? && RequiredKeys <= p.value.fields.Keys {
      assert "dt_from" in p.value.fields;
    }
  }

  /** Every falsy value is "empty", `{}` included, before any key is looked at. */
  lemma FalsyIsEmpty()
    ensures Classify(Loaded(JObject(map[]))) == EmptyJson
    ensures Classify(Loaded(JNull)) == EmptyJson
    ensures Classify(Loaded(JNumber(0.0))) == EmptyJson
    ensures Classify(Loaded(JString(""))) == EmptyJson
    ensures Classify(Loaded(JArray([]))) == EmptyJson
    ensures Classify(Loaded(JBool(false))) == EmptyJson
  {
  }

  /** The three caught errors reply with three different texts, each ending in the example query. */
  lemma MessagesDistinct()
    ensures NotJsonMessage != EmptyJsonMessage && NotJsonMessage != InvalidQueryMessage
    ensures EmptyJsonMessage != InvalidQueryMessage
    ensures forall m :: m in {NotJsonMessage, EmptyJsonMessage, InvalidQueryMessage} ==>
      |m| >= |Example| && m[|m| - |Example|..] == Example
  {
    assert NotJsonMessage[0] != EmptyJsonMessage[0];
    assert NotJsonMessage[0] != InvalidQueryMessage[0];
    assert EmptyJsonMessage[0] != InvalidQueryMessage[0];
  }

  // ---------------------------------------------------------------------------
  // Properties of the delegate

  /**
   `json_response` escapes with an exception exactly when a timestamp does not
   convert or the granularity is not a key of `TYPE_GROUPS`; the timestamps are
   checked first. Otherwise it is the fill of the store's records, with the
   granularity's step.
   */
  lemma RespondOutcomes(dtFrom: Json, dtUpto: Json, groupType: Json, parseIso: string -> Option<Timestamp>,
                        store: (Timestamp, Timestamp, Json) -> seq<Record>,
                        advance: (Granularity, Timestamp) -> Timestamp)
    requires AdvancesAll(advance)
    ensures var r := Respond(dtFrom, dtUpto, groupType, parseIso, store, advance);
      && (r == Raised(BadTimestamp) <==> TimeOf(dtFrom, parseIso).None? || TimeOf(dtUpto, parseIso).None?)
      && (r == Raised(UnknownGroupType) <==>
            TimeOf(dtFrom, parseIso).Some? && TimeOf(dtUpto, parseIso).Some? &&
            !(groupType.JString? && groupType.s in {"month", "day", "hour"}))
      && (r.Series? <==> !r.Raised?)
  {
  }

  /**
   A query that names an unknown granularity (say "week") is not rejected by
   `validate_json`: it is handed off and, once its timestamps convert, the
   lookup in `json_response` raises where no handler catches it.
   */
  lemma UnknownGroupTypeEscapes(p: Parsed, parseIso: string -> Option<Timestamp>,
                                store: (Timestamp, Timestamp, Json) -> seq<Record>,
                                advance: (Granularity, Timestamp) -> Timestamp)
    requires AdvancesAll(advance)
    requires p.Loaded? && p.value.JObject? && RequiredKeys <= p.value.fields.Keys
    requires TimeOf(p.value.fields["dt_from"], parseIso).Some? && TimeOf(p.value.fields["dt_upto"], parseIso).Some?
    requires p.value.fields["group_type"] == JString("week")
    ensures Classify(p).HandOff?
    ensures Respond(Classify(p).dtFrom, Classify(p).dtUpto, Classify(p).groupType, parseIso, store, advance)
      == Raised(UnknownGroupType)
  {
    ClassifyOutcomes(p);
  }
}
