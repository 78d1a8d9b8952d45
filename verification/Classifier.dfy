/** Severities, and the reduction of an event to the item a notification is made from. */
module Classifier {
  import opened Options
  import opened Decimal
  import Text
  import Headers
  import opened Json
  import opened EventModel

  // Anything unknown ranks lowest.
  function SeverityRank(severity: string): nat {
    if severity == "critical" then 2 else if severity == "warning" then 1 else 0
  }

  predicate ValidSeverity(s: string) { s in SEVERITIES }

  datatype Item = Item(class_: string, severity: string, summary: string, eventId: string, kind: GoInt)

  const SUBSCRIBED_KINDS: set<GoInt> := NOTICE_KINDS + {OPERATION_REQUEST, EXECUTION_RESULT}

  // The item of an event, or None for a kind the service does not act on.
  function Classify(e: Event): Option<Item> {
    if e.kind == OPERATION_REQUEST then Some(ClassifyRequest(e))
    else if e.kind == EXECUTION_RESULT then Some(ClassifyResult(e))
    else if e.kind == BACKUP_EVENT then Some(ClassifyNotice(e, "backup", "info"))
    else if e.kind == SECURITY_EVENT then Some(ClassifyNotice(e, "security", "warning"))
    else if e.kind == SYSTEM_EVENT then Some(ClassifyNotice(e, "system", "info"))
    else if e.kind == SERVICE_EVENT then Some(ClassifyNotice(e, "service", "info"))
    else None
  }

  function ClassifyNotice(e: Event, defaultClass: string, defaultSeverity: string): Item {
    var n := match DecodeNotice(e.content) case Some(n) => n case None => Notice("", "", "");
    Item(
      if n.class_ == "" then defaultClass else n.class_,
      if n.severity == "" then defaultSeverity else n.severity,
      if n.summary == "" then defaultClass + " event" else n.summary,
      e.id, e.kind)
  }

  // The members of the content, when it is an object; decode errors are ignored.
  function LooseMembers(c: Content): seq<Member> { if c.Doc? then Members(c.value) else [] }

  function ClassifyRequest(e: Event): Item {
    var tool := StringField(LooseMembers(e.content), "tool");
    var summary := if tool == "" then "operation requested" else "operation requested: " + tool;
    Item("operation", "info", summary, e.id, e.kind)
  }

  function ClassifyResult(e: Event): Item {
    match BoolField(LooseMembers(e.content), "ok")
    case None => Item("operation", "info", "operation result", e.id, e.kind)
    case Some(true) => Item("operation", "info", "operation succeeded", e.id, e.kind)
    case Some(false) => Item("operation", "warning", "operation failed", e.id, e.kind)
  }

  /** Exactly the subscribed kinds are kept. */
  lemma ClassifyKeepsSubscribed(e: Event)
    ensures Classify(e).Some? <==> e.kind in SUBSCRIBED_KINDS
  {}

  // The defaults of the four notice kinds.
  function DefaultItem(e: Event): Item
    requires e.kind in NOTICE_KINDS
  {
    var class_ := if e.kind == SYSTEM_EVENT then "system" else if e.kind == SERVICE_EVENT then "service"
      else if e.kind == BACKUP_EVENT then "backup" else "security";
    Item(class_, if e.kind == SECURITY_EVENT then "warning" else "info", class_ + " event", e.id, e.kind)
  }

  // The value of a field: the last string given for it, or the default where that is empty or missing.
  ghost predicate FieldReads(ms: seq<Member>, field: string, default: string, value: string) {
    && (forall i: nat :: LastStringAt(ms, field, i) ==>
          value == if ms[i].value.s == "" then default else ms[i].value.s)
    && ((forall i :: 0 <= i < |ms| ==> !(Names(ms[i], field) && ms[i].value.Str?)) ==> value == default)
  }

  /** The item of every notice, field by field: the last string given for each, in any letter case and
      beside other members, with its kind's default where that is empty or missing; and nothing but
      defaults when any part of the notice is unreadable. */
  lemma NoticeItem(e: Event)
    requires e.kind in NOTICE_KINDS
    ensures Classify(e).Some?
    ensures !Headers.ReadableNotice(e.content) ==> Classify(e) == Some(DefaultItem(e))
    ensures Headers.ReadableNotice(e.content) ==>
      var ms, item, default := Headers.MembersOf(e.content), Classify(e).value, DefaultItem(e);
      && FieldReads(ms, "class", default.class_, item.class_)
      && FieldReads(ms, "severity", default.severity, item.severity)
      && FieldReads(ms, "summary", default.summary, item.summary)
      && item.eventId == e.id && item.kind == e.kind
  {
    Headers.NoticeMeans(e.content);
    LooseAgree(e.content);
    NoticeDefaults(e);
    var ms, default := Headers.MembersOf(e.content), DefaultItem(e);
    StringFieldReads(ms, "class", default.class_);
    StringFieldReads(ms, "severity", default.severity);
    StringFieldReads(ms, "summary", default.summary);
  }

  lemma LooseAgree(c: Content)
    ensures LooseMembers(c) == Headers.MembersOf(c)
  {}

  lemma NoticeDefaults(e: Event)
    requires e.kind in NOTICE_KINDS
    ensures Classify(e) == Some(ClassifyNotice(e, DefaultItem(e).class_, DefaultItem(e).severity))
    ensures DefaultItem(e).summary == DefaultItem(e).class_ + " event"
  {}

  lemma StringFieldReads(ms: seq<Member>, field: string, default: string)
    ensures FieldReads(ms, field, default, if StringField(ms, field) == "" then default else StringField(ms, field))
  {
    StringFieldIsLast(ms, field);
  }

  /** Every event the validator accepts and the service keeps carries a known severity, a class and a
      summary, whatever its content is. */
  lemma AcceptedEventsClassify(e: Event, decoder: string)
    requires Validate(e, decoder) == None && Classify(e).Some?
    ensures var item := Classify(e).value;
      item.severity in {"info", "warning", "critical"} && item.class_ != "" && item.summary != ""
  {}

  /** For notices the validator's severity rule is exactly what the service needs: content that is JSON
      or empty passes if and only if the item's severity is known. */
  lemma NoticeSeverityAgrees(e: Event, decoder: string)
    requires e.kind in NOTICE_KINDS
    ensures Validate(e, decoder) == None <==>
      !e.content.Malformed? && Classify(e).value.severity in {"info", "warning", "critical"}
  {}

  /** The summary of an accepted request names its tool, and the tool is not blank. */
  lemma AcceptedRequestNamesTool(e: Event, decoder: string)
    requires e.kind == OPERATION_REQUEST && Validate(e, decoder) == None
    ensures exists tool :: Text.TrimSpace(tool) != "" && Classify(e).value.summary == "operation requested: " + tool
  {
    var tool := StringField(LooseMembers(e.content), "tool");
    assert Text.TrimSpace(tool) != "" && Classify(e).value.summary == "operation requested: " + tool;
  }

  /** The item of every request: an informational operation, whose summary names the last tool given. */
  lemma RequestItem(e: Event)
    requires e.kind == 2200
    ensures Classify(e).Some?
    ensures var item, ms := Classify(e).value, Headers.MembersOf(e.content);
      && item.class_ == "operation" && item.severity == "info" && item.eventId == e.id && item.kind == 2200
      && (forall tool :: Headers.Says(e.content, "tool", tool) && tool != "" ==>
            item.summary == "operation requested: " + tool)
      && ((forall tool :: Headers.Says(e.content, "tool", tool) ==> tool == "") ==>
            item.summary == "operation requested")
  {
    LooseAgree(e.content);
    var tool := StringField(Headers.MembersOf(e.content), "tool");
    if tool != "" {
      Headers.StringFieldSays(e.content, "tool", tool);
    }
    forall s | s != "" ensures tool == s <==> Headers.Says(e.content, "tool", s) {
      Headers.StringFieldSays(e.content, "tool", s);
    }
  }

  // What the members say about the outcome: the last boolean counts; after a null or where none is given,
  // a value of another type reads as a failure.
  ghost predicate OutcomeReads(ms: seq<Member>, ok: Option<bool>) {
    && (forall i: nat :: LastBooleanAt(ms, "ok", i) && ms[i].value.Bool? ==> ok == Some(ms[i].value.b))
    && (forall i: nat :: LastBooleanAt(ms, "ok", i) && ms[i].value.Null? ==>
          ok == if NamedFrom(ms, "ok", i + 1) then Some(false) else None)
    && ((forall i: nat :: !LastBooleanAt(ms, "ok", i)) ==> ok == if NamedFrom(ms, "ok", 0) then Some(false) else None)
  }

  /** The item of every result: a warning for a failed operation, and informational otherwise. */
  lemma ResultItem(e: Event)
    requires e.kind == 2204
    ensures exists ok ::
      && OutcomeReads(Headers.MembersOf(e.content), ok)
      && Classify(e) == Some(Item(
           "operation",
           if ok == Some(false) then "warning" else "info",
           if ok == None then "operation result"
           else if ok == Some(true) then "operation succeeded" else "operation failed",
           e.id, 2204))
  {
    var ms := Headers.MembersOf(e.content);
    LooseAgree(e.content);
    BoolFieldIs(ms, "ok");
    assert OutcomeReads(ms, BoolField(ms, "ok"));
  }

  /** A result warns exactly when its "ok" reads as false, and a value of the wrong type that is the
      first to set it reads as false too. */
  lemma MistypedOkReadsAsFailure(e: Event, before: seq<Member>, v: Json, length: nat)
    requires e.kind == EXECUTION_RESULT
    requires e.content == Doc(length, Obj(before + [Member("ok", v)]))
    requires !v.Bool? && !v.Null?
    requires BoolField(before, "ok") == None
    ensures Classify(e).value.severity == "warning" && Classify(e).value.summary == "operation failed"
  {
    var ms := before + [Member("ok", v)];
    assert ms[..|ms| - 1] == before;
    assert FoldName("ok") == "ok";
  }
}
