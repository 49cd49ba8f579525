/**
 * The support page's ticket normaliser: it turns the untyped `/api/support`
 * response into SupportTicket records, replacing every missing or ill-typed
 * field by a default.
 */
module SupportTickets {
  import opened Wrappers
  import opened Json

  datatype Status = Open | InProgress | Resolved | Closed
  datatype Priority = Low | Medium | High | Urgent

  /**
   * Where a date field comes from: the text given to `new Date(...)`, or the
   * current time (`new Date()`), which the model leaves abstract.
   */
  datatype DateField = FromText(text: string) | Now

  datatype SupportTicket = SupportTicket(
    id: string,
    subject: string,
    status: Status,
    priority: Priority,
    emailFrom: string,
    createdAt: DateField,
    updatedAt: DateField,
    lastMessage: string,
    messageCount: real)

  /** The string literal of each status, as the TypeScript union spells it. */
  function StatusName(s: Status): string
  {
    match s
    case Open => "open"
    case InProgress => "in_progress"
    case Resolved => "resolved"
    case Closed => "closed"
  }

  /** The page's `validStatuses` list. */
  const StatusNames: seq<string> := ["open", "in_progress", "resolved", "closed"]

  /** The string literal of each priority. */
  function PriorityName(p: Priority): string
  {
    match p
    case Low => "low"
    case Medium => "medium"
    case High => "high"
    case Urgent => "urgent"
  }

  /** The page's `validPriorities` list. */
  const PriorityNames: seq<string> := ["low", "medium", "high", "urgent"]

  /** The `isValidStatus` type guard: recognises exactly the names in StatusNames. */
  function ParseStatus(s: string): (r: Option<Status>)
    ensures r.Some? <==> s in StatusNames
    ensures r.Some? ==> StatusName(r.value) == s
  {
    if s == "open" then Some(Open)
    else if s == "in_progress" then Some(InProgress)
    else if s == "resolved" then Some(Resolved)
    else if s == "closed" then Some(Closed)
    else None
  }

  /** The `isValidPriority` type guard: recognises exactly the names in PriorityNames. */
  function ParsePriority(s: string): (r: Option<Priority>)
    ensures r.Some? <==> s in PriorityNames
    ensures r.Some? ==> PriorityName(r.value) == s
  {
    if s == "low" then Some(Low)
    else if s == "medium" then Some(Medium)
    else if s == "high" then Some(High)
    else if s == "urgent" then Some(Urgent)
    else None
  }

  /** Every status is recognised from its own name. */
  lemma StatusNameRoundTrip(s: Status)
    ensures ParseStatus(StatusName(s)) == Some(s)
  {
    match s
    case Open =>
    case InProgress =>
    case Resolved =>
    case Closed =>
  }

  /** Every priority is recognised from its own name. */
  lemma PriorityNameRoundTrip(p: Priority)
    ensures ParsePriority(PriorityName(p)) == Some(p)
  {
    match p
    case Low =>
    case Medium =>
    case High =>
    case Urgent =>
  }

  /** `key in obj && typeof obj[key] === "string" ? obj[key] : ""` (getId, getSubject, getEmailFrom, getLastMessage). */
  function StringField(obj: map<string, Json>, key: string): (r: string)
    ensures key in obj && obj[key].Str? ==> r == obj[key].s
    ensures r != "" ==> key in obj && obj[key] == Str(r)
  {
    if key in obj && obj[key].Str? then obj[key].s else ""
  }

  /** getStatus: a recognised status string is kept; anything else becomes "open". */
  function GetStatus(obj: map<string, Json>): (r: Status)
    ensures StatusName(r) ==
      if "status" in obj && obj["status"].Str? && obj["status"].s in StatusNames
      then obj["status"].s else "open"
  {
    if "status" in obj && obj["status"].Str? then
      match ParseStatus(obj["status"].s)
      case Some(s) => s
      case None => Open
    else
      Open
  }

  /** getPriority: a recognised priority string is kept; anything else becomes "medium". */
  function GetPriority(obj: map<string, Json>): (r: Priority)
    ensures PriorityName(r) ==
      if "priority" in obj && obj["priority"].Str? && obj["priority"].s in PriorityNames
      then obj["priority"].s else "medium"
  {
    if "priority" in obj && obj["priority"].Str? then
      match ParsePriority(obj["priority"].s)
      case Some(p) => p
      case None => Medium
    else
      Medium
  }

  /** getCreatedAt / getUpdatedAt: a string is parsed as a date, anything else reads the clock. */
  function DateAt(obj: map<string, Json>, key: string): (r: DateField)
    ensures r.FromText? <==> key in obj && obj[key].Str?
    ensures r.FromText? ==> obj[key] == Str(r.text)
  {
    if key in obj && obj[key].Str? then FromText(obj[key].s) else Now
  }

  /** getMessageCount: a number is kept, anything else becomes 0. */
  function GetMessageCount(obj: map<string, Json>): (r: real)
    ensures "messageCount" in obj && obj["messageCount"].Number? ==> r == obj["messageCount"].n
    ensures r != 0.0 ==> "messageCount" in obj && obj["messageCount"] == Number(r)
  {
    if "messageCount" in obj && obj["messageCount"].Number? then obj["messageCount"].n else 0.0
  }

  /** The record built for a ticket that is not a plain object. */
  const DefaultTicket := SupportTicket("", "", Open, Medium, "", Now, Now, "", 0.0)

  /** The `tickets.map(...)` callback: a plain object is read field by field, anything else is the default record. */
  function NormalizeTicket(ticket: Json): (r: SupportTicket)
    ensures !ticket.Obj? ==> r == DefaultTicket
    ensures ticket.Obj? ==>
      && r.id == StringField(ticket.fields, "id")
      && r.subject == StringField(ticket.fields, "subject")
      && r.status == GetStatus(ticket.fields)
      && r.priority == GetPriority(ticket.fields)
      && r.emailFrom == StringField(ticket.fields, "emailFrom")
      && r.createdAt == DateAt(ticket.fields, "createdAt")
      && r.updatedAt == DateAt(ticket.fields, "updatedAt")
      && r.lastMessage == StringField(ticket.fields, "lastMessage")
      && r.messageCount == GetMessageCount(ticket.fields)
  {
    if IsPlainObject(ticket) then
      var obj := ticket.fields;
      SupportTicket(
        StringField(obj, "id"),
        StringField(obj, "subject"),
        GetStatus(obj),
        GetPriority(obj),
        StringField(obj, "emailFrom"),
        DateAt(obj, "createdAt"),
        DateAt(obj, "updatedAt"),
        StringField(obj, "lastMessage"),
        GetMessageCount(obj))
    else
      DefaultTicket
  }

  /** `tickets.map(...)`: one record per element, in the same order. */
  function NormalizeAll(tickets: seq<Json>): (r: seq<SupportTicket>)
    ensures |r| == |tickets|
    ensures forall i :: 0 <= i < |tickets| ==> r[i] == NormalizeTicket(tickets[i])
  {
    if tickets == [] then [] else [NormalizeTicket(tickets[0])] + NormalizeAll(tickets[1..])
  }

  /**
   * The outer shape check of the fetch handler: the new ticket list when the response
   * is a plain object whose `tickets` member is an array, and `None` (the page's data
   * is left as it was) otherwise.
   */
  function TicketsFromResponse(result: Json): (r: Option<seq<SupportTicket>>)
    ensures r.Some? <==> result.Obj? && "tickets" in result.fields && result.fields["tickets"].Arr?
    ensures r.Some? ==> r.value == NormalizeAll(result.fields["tickets"].items)
  {
    if IsPlainObject(result) then
      var tickets := if "tickets" in result.fields then Some(result.fields["tickets"]) else None;
      if tickets.Some? && tickets.value.Arr? then Some(NormalizeAll(tickets.value.items)) else None
    else
      None
  }

  /** A ticket as the API would send it; a date read from the clock is sent as an absent member. */
  function TicketToJson(t: SupportTicket): Json
  {
    var fields := map[
      "id" := Str(t.id),
      "subject" := Str(t.subject),
      "status" := Str(StatusName(t.status)),
      "priority" := Str(PriorityName(t.priority)),
      "emailFrom" := Str(t.emailFrom),
      "lastMessage" := Str(t.lastMessage),
      "messageCount" := Number(t.messageCount)];
    var withCreated := if t.createdAt.FromText? then fields["createdAt" := Str(t.createdAt.text)] else fields;
    Obj(if t.updatedAt.FromText? then withCreated["updatedAt" := Str(t.updatedAt.text)] else withCreated)
  }

  /** A list of tickets as the API would send it. */
  function TicketsToJson(ts: seq<SupportTicket>): (r: seq<Json>)
    ensures |r| == |ts|
    ensures forall i :: 0 <= i < |ts| ==> r[i] == TicketToJson(ts[i])
  {
    if ts == [] then [] else [TicketToJson(ts[0])] + TicketsToJson(ts[1..])
  }

  /** Normalising a well-formed ticket gives it back unchanged. */
  lemma NormalizeTicketRoundTrip(t: SupportTicket)
    ensures NormalizeTicket(TicketToJson(t)) == t
  {
    var obj := TicketToJson(t).fields;
    assert obj["id"] == Str(t.id) && obj["subject"] == Str(t.subject);
    assert obj["emailFrom"] == Str(t.emailFrom) && obj["lastMessage"] == Str(t.lastMessage);
    assert obj["status"] == Str(StatusName(t.status)) by { StatusNameRoundTrip(t.status); }
    assert obj["priority"] == Str(PriorityName(t.priority)) by { PriorityNameRoundTrip(t.priority); }
    assert obj["messageCount"] == Number(t.messageCount);
    assert DateAt(obj, "createdAt") == t.createdAt;
    assert DateAt(obj, "updatedAt") == t.updatedAt;
    StatusNameRoundTrip(t.status);
    PriorityNameRoundTrip(t.priority);
  }

  /** Normalisation is idempotent: a normalised ticket, sent again, normalises to itself. */
  lemma NormalizeTicketIdempotent(ticket: Json)
    ensures NormalizeTicket(TicketToJson(NormalizeTicket(ticket))) == NormalizeTicket(ticket)
  {
    NormalizeTicketRoundTrip(NormalizeTicket(ticket));
  }

  /** A well-formed response carrying a ticket list yields exactly that list. */
  lemma ResponseRoundTrip(ts: seq<SupportTicket>)
    ensures TicketsFromResponse(Obj(map["tickets" := Arr(TicketsToJson(ts))])) == Some(ts)
  {
    var r := NormalizeAll(TicketsToJson(ts));
    forall i | 0 <= i < |ts| ensures r[i] == ts[i] {
      NormalizeTicketRoundTrip(ts[i]);
    }
    assert r == ts;
  }

  /** A ticket element that is not a plain object gets status "open" and priority "medium". */
  lemma NonObjectTicketIsDefault(ticket: Json)
    requires !ticket.Obj?
    ensures StatusName(NormalizeTicket(ticket).status) == "open"
    ensures PriorityName(NormalizeTicket(ticket).priority) == "medium"
  {
  }
}
