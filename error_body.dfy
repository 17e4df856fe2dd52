/**
 * The error body of `GlobalExceptionHandler.buildError`: a `LinkedHashMap` whose keys are
 * `timestamp`, `status`, `error`, `message` and, only when there are details, `details`.
 */
module ErrorBody {
  import opened Wrappers
  import opened LinkedMaps

  /** The four statuses the handler answers with. */
  datatype HttpStatus = BadRequest | NotFound | Conflict | InternalServerError {
    /** `HttpStatus.value()`. */
    function Code(): int {
      match this
      case BadRequest => 400
      case NotFound => 404
      case Conflict => 409
      case InternalServerError => 500
    }
    /** `HttpStatus.getReasonPhrase()`. */
    function ReasonPhrase(): string {
      match this
      case BadRequest => "Bad Request"
      case NotFound => "Not Found"
      case Conflict => "Conflict"
      case InternalServerError => "Internal Server Error"
    }
  }

  /** The values the body holds: text, a number, `null`, or the field-to-message map. */
  datatype Json = Text(text: string) | Number(number: int) | Null | Object(entries: Entries<string, string>)

  /** The keys `buildError` puts, in the order it puts them. */
  datatype BodyKey = Timestamp | Status | Error | Message | Details {
    function Name(): string {
      match this
      case Timestamp => "timestamp"
      case Status => "status"
      case Error => "error"
      case Message => "message"
      case Details => "details"
    }
  }

  /** `buildError`: the body by successive `put`s; `details` only when it is not null. */
  method BuildError(status: HttpStatus, message: Json, details: Option<Entries<string, string>>, timestamp: string)
    returns (body: Entries<BodyKey, Json>)
    ensures details.None? ==> Keys(body) == [Timestamp, Status, Error, Message]
    ensures details.Some? ==> Keys(body) == [Timestamp, Status, Error, Message, Details]
    ensures Get(body, Timestamp) == Some(Text(timestamp))
    ensures Get(body, Status) == Some(Number(status.Code()))
    ensures Get(body, Error) == Some(Text(status.ReasonPhrase()))
    ensures Get(body, Message) == Some(message)
    ensures Get(body, Details).Some? <==> details.Some?
    ensures details.Some? ==> Get(body, Details) == Some(Object(details.value))
  {
    var stamp, code, reason := Text(timestamp), Number(status.Code()), Text(status.ReasonPhrase());
    body := [];
    PutNew(body, Timestamp, stamp);
    body := Put(body, Timestamp, stamp);
    PutNew(body, Status, code);
    body := Put(body, Status, code);
    PutNew(body, Error, reason);
    body := Put(body, Error, reason);
    PutNew(body, Message, message);
    body := Put(body, Message, message);
    BodyEntries(body, stamp, code, reason, message);
    if details.Some? {
      PutDetails(body, Object(details.value));
      body := Put(body, Details, Object(details.value));
    }
  }

  /** The four entries every body starts with, looked up by key. */
  lemma BodyEntries(body: Entries<BodyKey, Json>, stamp: Json, code: Json, reason: Json, message: Json)
    requires body == [(Timestamp, stamp), (Status, code), (Error, reason), (Message, message)]
    ensures Keys(body) == [Timestamp, Status, Error, Message]
    ensures Get(body, Timestamp) == Some(stamp) && Get(body, Status) == Some(code)
    ensures Get(body, Error) == Some(reason) && Get(body, Message) == Some(message)
    ensures Get(body, Details) == None
  {
    var ks := Keys(body);
    assert ks[0] == Timestamp && ks[1] == Status && ks[2] == Error && ks[3] == Message;
    assert ks == [Timestamp, Status, Error, Message];
    assert DistinctKeys(body);
    GetEntry(body, Timestamp, stamp);
    GetEntry(body, Status, code);
    GetEntry(body, Error, reason);
    GetEntry(body, Message, message);
  }

  /** The `details` entry is put after the four keys every body has. */
  lemma PutDetails(body: Entries<BodyKey, Json>, details: Json)
    requires Keys(body) == [Timestamp, Status, Error, Message]
    ensures Keys(Put(body, Details, details)) == [Timestamp, Status, Error, Message, Details]
    ensures forall k :: Get(Put(body, Details, details), k) == if k == Details then Some(details) else Get(body, k)
  {
    assert Details !in Keys(body);
    PutNew(body, Details, details);
    KeysAppend(body, (Details, details));
    forall k ensures Get(Put(body, Details, details), k) == if k == Details then Some(details) else Get(body, k) {
      PutGet(body, Details, details, k);
    }
  }
}
