/** The client of the spreadsheet-backed course store (services/sheetService.ts):
    response classification, the newest-first read, and the request payloads. */
module SheetService {
  import opened Types

  /** The JSON envelope every reply of the store carries. `status` and `message` may be
      absent; `data` is the operation's value. */
  datatype Envelope<D> = Envelope(status: Option<string>, message: Option<string>, data: D)

  /** What `response.json()` gives: the parsed envelope, or the SyntaxError it throws
      (with the engine's message) when the body is not JSON. */
  datatype Body<D> = Json(envelope: Envelope<D>) | NotJson(syntaxError: string)

  /** An HTTP response as the client sees it: `response.ok`, `response.statusText`,
      what `response.text()` gives and what `response.json()` gives. */
  datatype Response<D> = Response(ok: bool, statusText: string, text: string, json: Body<D>)

  /** The errors `handleResponse` throws: a transport failure (non-2xx status), a
      failure reported by the script in the envelope, or an unparsable body. */
  datatype ApiError =
    | HttpFailure(statusText: string, body: string)
    | ScriptFailure(message: Option<string>)
    | BodyNotJson(syntaxError: string)

  const HttpPrefix := "Erro na API: "
  const ScriptPrefix := "Erro no script: "

  /** The `message` of the thrown Error. An absent envelope message is interpolated by
      the template literal as "undefined". */
  function Message(e: ApiError): (m: string)
    ensures e.HttpFailure? ==> m == HttpPrefix + e.statusText + " - " + e.body
    ensures e.ScriptFailure? && e.message.Some? ==> m == ScriptPrefix + e.message.value
    ensures e.ScriptFailure? && e.message.None? ==> m == ScriptPrefix + "undefined"
  {
    match e
    case HttpFailure(statusText, body) => HttpPrefix + statusText + " - " + body
    case ScriptFailure(message) => ScriptPrefix + (match message case Some(s) => s case None => "undefined")
    case BodyNotJson(syntaxError) => syntaxError
  }

  /** `handleResponse`: the two-tier classification of a reply. */
  function HandleResponse<D>(response: Response<D>): (r: Result<D, ApiError>)
    ensures r.Success? <==>
            response.ok && response.json.Json? && response.json.envelope.status != Some("error")
    ensures r.Success? ==> r.value == response.json.envelope.data
    ensures (r.Failure? && r.error.HttpFailure?) <==> !response.ok
    ensures r.Failure? && r.error.ScriptFailure? ==>
              response.json.Json? && r.error.message == response.json.envelope.message
  {
    if !response.ok then Failure(HttpFailure(response.statusText, response.text))
    else match response.json
      case NotJson(syntaxError) => Failure(BodyNotJson(syntaxError))
      case Json(envelope) =>
        if envelope.status == Some("error") then Failure(ScriptFailure(envelope.message))
        else Success(envelope.data)
  }

  /** A non-ok response fails with `statusText` and the body text, whatever the body
      would parse to: it never yields data. */
  lemma TransportFailureIgnoresBody<D>(response: Response<D>, other: Body<D>)
    requires !response.ok
    ensures HandleResponse(response).Failure?
    ensures Message(HandleResponse(response).error) == HttpPrefix + response.statusText + " - " + response.text
    ensures HandleResponse(response.(json := other)) == HandleResponse(response)
  {
  }

  /** An ok response whose envelope says `status: 'error'` fails with the script's message. */
  lemma ScriptFailureMessage<D>(response: Response<D>, message: string)
    requires response.ok && response.json.Json?
    requires response.json.envelope.status == Some("error")
    requires response.json.envelope.message == Some(message)
    ensures HandleResponse(response).Failure?
    ensures Message(HandleResponse(response).error) == ScriptPrefix + message
  {
  }

  /** The user can always tell the two tiers apart: a transport message and a script
      message are never the same string. */
  lemma TiersAreDistinguishable(transport: ApiError, script: ApiError)
    requires transport.HttpFailure? && script.ScriptFailure?
    ensures Message(transport) != Message(script)
  {
    assert Message(transport)[6] == 'a';
    assert Message(script)[6] == 'o';
  }

  /** The result of `getCourses` is ordered by `createdAt`, newest first. */
  predicate NewestFirst(s: seq<Course>) {
    forall i, j :: 0 <= i < j < |s| ==> s[i].createdAt >= s[j].createdAt
  }

  /** Exchanges two neighbouring elements. */
  method SwapDown(a: array<Course>, j: int)
    requires 0 < j < a.Length
    modifies a
    ensures a[..] == old(a[..])[j - 1 := old(a[j])][j := old(a[j - 1])]
    ensures multiset(a[..]) == multiset(old(a[..]))
  {
    a[j - 1], a[j] := a[j], a[j - 1];
  }

  /** One pass of the insertion sort: moves `a[i]` down past every older course, so the
      prefix ordered newest first grows by one. */
  method InsertNewest(a: array<Course>, i: int)
    requires 0 <= i < a.Length
    requires forall p, q :: 0 <= p < q < i ==> a[p].createdAt >= a[q].createdAt
    modifies a
    ensures forall p, q :: 0 <= p < q <= i ==> a[p].createdAt >= a[q].createdAt
    ensures multiset(a[..]) == multiset(old(a[..]))
  {
    var j := i;
    while j > 0 && a[j - 1].createdAt < a[j].createdAt
      invariant 0 <= j <= i
      invariant forall p, q :: 0 <= p < q <= i && p != j && q != j ==> a[p].createdAt >= a[q].createdAt
      invariant forall q :: j < q <= i ==> a[j].createdAt > a[q].createdAt
      invariant multiset(a[..]) == multiset(old(a[..]))
    {
      SwapDown(a, j);
      j := j - 1;
    }
  }

  /** `data.sort((a, b) => b.createdAt - a.createdAt)`, in place. */
  method SortNewestFirst(a: array<Course>)
    modifies a
    ensures NewestFirst(a[..])
    ensures multiset(a[..]) == multiset(old(a[..]))
  {
    var i := 0;
    while i < a.Length
      invariant 0 <= i <= a.Length
      invariant forall p, q :: 0 <= p < q < i ==> a[p].createdAt >= a[q].createdAt
      invariant multiset(a[..]) == multiset(old(a[..]))
    {
      InsertNewest(a, i);
      i := i + 1;
    }
  }

  /** `getCourses`: the decoded list, newest first; a failure of `handleResponse`
      propagates unchanged and never turns into an empty list. */
  method GetCourses(response: Response<seq<Course>>) returns (r: Result<seq<Course>, ApiError>)
    ensures HandleResponse(response).Failure? ==> r == Failure(HandleResponse(response).error)
    ensures HandleResponse(response).Success? ==>
              && r.Success?
              && NewestFirst(r.value)
              && multiset(r.value) == multiset(HandleResponse(response).value)
  {
    match HandleResponse(response)
    case Failure(e) =>
      r := Failure(e);
    case Success(data) =>
      var a := new Course[|data|](i requires 0 <= i < |data| => data[i]);
      assert a[..] == data;
      SortNewestFirst(a);
      r := Success(a[..]);
  }

  /** Two records dated apart come back with the later one first. */
  lemma LaterRecordFirst(older: Course, newer: Course, listed: seq<Course>)
    requires older.createdAt < newer.createdAt
    requires NewestFirst(listed) && multiset(listed) == multiset([older, newer])
    ensures listed == [newer, older]
  {
  }

  /** The body posted to the script: `{action, id?, data?}`. */
  datatype Payload = Payload(action: string, id: Option<string>, data: Option<CourseFields>)

  /** The three mutations the store's protocol distinguishes. */
  datatype Request =
    | CreateRequest(fields: CourseFields)
    | UpdateRequest(id: string, fields: CourseFields)
    | DeleteRequest(id: string)

  /** How a payload is read by the store: the action selects the request, which takes
      the fields that action uses; anything else is not a request. */
  function RequestOf(p: Payload): (q: Option<Request>)
    ensures q.Some? ==> p.action in {"create", "update", "delete"}
  {
    match p
    case Payload("create", None, Some(fields)) => Some(CreateRequest(fields))
    case Payload("update", Some(id), Some(fields)) => Some(UpdateRequest(id, fields))
    case Payload("delete", Some(id), None) => Some(DeleteRequest(id))
    case _ => None
  }

  /** The payload of `addCourse`: no id and no operator e-mail. */
  function CreatePayload(courseData: CourseFields): (p: Payload)
    ensures p.id.None?
    ensures RequestOf(p) == Some(CreateRequest(courseData))
  {
    Payload("create", None, Some(courseData))
  }

  /** The payload of `updateCourse`. */
  function UpdatePayload(id: string, courseData: CourseFields): (p: Payload)
    ensures RequestOf(p) == Some(UpdateRequest(id, courseData))
  {
    Payload("update", Some(id), Some(courseData))
  }

  /** The payload of `deleteCourse`: the id alone. */
  function DeletePayload(id: string): (p: Payload)
    ensures p.data.None?
    ensures RequestOf(p) == Some(DeleteRequest(id))
  {
    Payload("delete", Some(id), None)
  }

  /** The three services never post the same payload: a create, an update and a delete
      payload differ from one another, and each service's payload determines the
      arguments it was built from. */
  lemma PayloadsAreDistinct(d: CourseFields, d': CourseFields, id: string, id': string)
    ensures CreatePayload(d) != UpdatePayload(id, d')
    ensures CreatePayload(d) != DeletePayload(id)
    ensures UpdatePayload(id, d) != DeletePayload(id')
    ensures CreatePayload(d) == CreatePayload(d') ==> d == d'
    ensures UpdatePayload(id, d) == UpdatePayload(id', d') ==> id == id' && d == d'
    ensures DeletePayload(id) == DeletePayload(id') ==> id == id'
  {
  }

  /** One exchange with the store: the payload posted and the outcome decoded from the reply. */
  datatype Call<T> = Call(request: Payload, outcome: Result<T, ApiError>)

  /** What `deleteCourse` resolves to. */
  datatype DeleteAck = DeleteAck(success: bool)

  /** `addCourse`: posts the create payload; the created record is the reply's data. */
  function AddCourse(courseData: CourseFields, response: Response<Course>): (c: Call<Course>)
    ensures c.request == CreatePayload(courseData)
    ensures c.outcome == HandleResponse(response)
  {
    Call(CreatePayload(courseData), HandleResponse(response))
  }

  /** `updateCourse`: posts the update payload for `id`; the updated record is the reply's data. */
  function UpdateCourse(id: string, courseData: CourseFields, response: Response<Course>): (c: Call<Course>)
    ensures c.request == UpdatePayload(id, courseData)
    ensures c.outcome == HandleResponse(response)
  {
    Call(UpdatePayload(id, courseData), HandleResponse(response))
  }

  /** `deleteCourse`: resolves to `{success: true}` exactly when `handleResponse` does
      not throw, and otherwise fails with its error; the reply's data is ignored. */
  function DeleteCourse<D>(id: string, response: Response<D>): (c: Call<DeleteAck>)
    ensures c.request == DeletePayload(id)
    ensures c.outcome.Success? <==> HandleResponse(response).Success?
    ensures c.outcome.Success? ==> c.outcome.value == DeleteAck(true)
    ensures c.outcome.Failure? ==> c.outcome.error == HandleResponse(response).error
  {
    var outcome := match HandleResponse(response)
      case Success(_) => Success(DeleteAck(true))
      case Failure(e) => Failure(e);
    Call(DeletePayload(id), outcome)
  }
}
