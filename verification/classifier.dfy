/**
 * Classification of one probe result into an (alive, message) pair, as the
 * monitor's `check_website_status` does once the HTTP request has been made.
 */
module Classifier {
  import opened Wrappers
  import opened Decimal
  import opened Text

  /**
   * What one GET request to a target produced. Elapsed times are the
   * already formatted `:.2f` renderings, and exception texts are the
   * `str(e)` of the library's exception; both are opaque here.
   */
  datatype ProbeOutcome =
      /** The server answered. `elapsed` is the time measured right after
          the answer; `errorText` and `elapsedAtError` are what the HTTP
          error path renders when the status is rejected (the exception's
          text and a second clock reading taken in the handler). */
    | Response(status: int, elapsed: string, errorText: string, elapsedAtError: string)
    | ConnectionFailure(detail: string)
    | TimeoutFailure(detail: string)
    | OtherRequestFailure(detail: string)

  datatype CheckOutcome = CheckOutcome(alive: bool, message: string)

  /** Which branch of the classification fired. */
  datatype Verdict =
    | NotFound
    | Unavailable
    | HttpError
    | Up
    | ConnectionFailed
    | TimedOut
    | OtherError

  /**
   * The rule by which the HTTP library's `raise_for_status` rejects a
   * status: client errors 400-499 and server errors 500-599. This is an
   * assumption about the library, which is not part of this model.
   */
  predicate RaiseForStatusRejects(status: int) {
    400 <= status < 600
  }


  const NotFoundPhrase := "404 Not Found"
  const UnavailablePhrase := "503 Service Unavailable"
  const HttpErrorPhrase := "HTTP error occurred"
  const UpPhrase := "Website is up and running"
  const ConnectionPhrase := "Connection error occurred"
  const TimeoutPhrase := "Timeout occurred"
  const OtherPhrase := "An error occurred"

  /** The canonical phrase each verdict's message opens with. */
  function Phrase(v: Verdict): string {
    match v
    case NotFound => NotFoundPhrase
    case Unavailable => UnavailablePhrase
    case HttpError => HttpErrorPhrase
    case Up => UpPhrase
    case ConnectionFailed => ConnectionPhrase
    case TimedOut => TimeoutPhrase
    case OtherError => OtherPhrase
  }

  /** The fixed text every message of a verdict starts with, up to its first variable part. */
  function Lead(v: Verdict): string {
    Phrase(v) + match v
      case NotFound => " - The requested resource was not found on this server. Response time: "
      case Unavailable => " - The server cannot handle the request. Response time: "
      case Up => ". Status code: "
      case _ => ": "
  }

  const Seconds := " seconds"

  /** The message and liveness `check_website_status` returns, branch by branch in source order. */
  function Classify(p: ProbeOutcome): (r: CheckOutcome)
    ensures r.alive <==> p.Response? && !RaiseForStatusRejects(p.status)
  {
    match p
    case Response(status, elapsed, errorText, elapsedAtError) =>
      if status == 404 then
        CheckOutcome(false, Lead(NotFound) + (elapsed + Seconds))
      else if status == 503 then
        CheckOutcome(false, Lead(Unavailable) + (elapsed + Seconds))
      else if RaiseForStatusRejects(status) then
        CheckOutcome(false, Lead(HttpError) + (errorText + ". Response time: " + elapsedAtError + Seconds))
      else
        CheckOutcome(true, Lead(Up) + (IntToString(status) + ". Response time: " + elapsed + Seconds))
    case ConnectionFailure(detail) => CheckOutcome(false, Lead(ConnectionFailed) + detail)
    case TimeoutFailure(detail) => CheckOutcome(false, Lead(TimedOut) + detail)
    case OtherRequestFailure(detail) => CheckOutcome(false, Lead(OtherError) + detail)
  }

  /**
   * The first-match decision table stated case by case: each verdict with
   * the exact condition under which it is the one that fires.
   */
  function Rule(p: ProbeOutcome): (v: Verdict)
    ensures v == NotFound <==> p.Response? && p.status == 404
    ensures v == Unavailable <==> p.Response? && p.status == 503
    ensures v == HttpError <==> p.Response? && p.status != 404 && p.status != 503 && RaiseForStatusRejects(p.status)
    ensures v == Up <==> p.Response? && !RaiseForStatusRejects(p.status)
    ensures v == ConnectionFailed <==> p.ConnectionFailure?
    ensures v == TimedOut <==> p.TimeoutFailure?
    ensures v == OtherError <==> p.OtherRequestFailure?
  {
    match p
    case Response(status, _, _, _) =>
      if status == 404 then NotFound
      else if status == 503 then Unavailable
      else if RaiseForStatusRejects(status) then HttpError
      else Up
    case ConnectionFailure(_) => ConnectionFailed
    case TimeoutFailure(_) => TimedOut
    case OtherRequestFailure(_) => OtherError
  }

  /** Reads back from a message which branch produced it: the first character names the candidate, and the whole lead must follow. */
  function VerdictOf(message: string): Option<Verdict> {
    if message == [] then None
    else
      match VerdictOfInitial(message[0])
      case Some(v) => if StartsWith(message, Lead(v)) then Some(v) else None
      case None => None
  }

  /** Reads back the status code from an up message. */
  function StatusOf(message: string): Option<int> {
    if StartsWith(message, Lead(Up)) then ParseInt(TakeUntil(message[|Lead(Up)|..], '.'))
    else None
  }

  /** The first character of each lead; no two verdicts share one. */
  function LeadInitial(v: Verdict): char {
    match v
    case NotFound => '4'
    case Unavailable => '5'
    case HttpError => 'H'
    case Up => 'W'
    case ConnectionFailed => 'C'
    case TimedOut => 'T'
    case OtherError => 'A'
  }

  lemma LeadStartsWithInitial(v: Verdict)
    ensures |Lead(v)| >= 1 && Lead(v)[0] == LeadInitial(v)
  {
  }

  /** The inverse of `LeadInitial`. */
  function VerdictOfInitial(c: char): (r: Option<Verdict>)
    ensures r.Some? ==> LeadInitial(r.value) == c
  {
    if c == '4' then Some(NotFound)
    else if c == '5' then Some(Unavailable)
    else if c == 'H' then Some(HttpError)
    else if c == 'W' then Some(Up)
    else if c == 'C' then Some(ConnectionFailed)
    else if c == 'T' then Some(TimedOut)
    else if c == 'A' then Some(OtherError)
    else None
  }

  lemma VerdictOfLead(v: Verdict, rest: string)
    ensures VerdictOf(Lead(v) + rest) == Some(v)
  {
    var s := Lead(v) + rest;
    LeadStartsWithInitial(v);
    assert s[0] == LeadInitial(v);
    assert VerdictOfInitial(LeadInitial(v)) == Some(v);
    assert s[..|Lead(v)|] == Lead(v);
  }

  /**
   * Each branch's message opens with its canonical phrase; in particular
   * 404 and 503 always win over the generic HTTP-error message, and
   * transport failures are down with the phrase of their handler.
   */
  lemma ClassifyPhrases(p: ProbeOutcome)
    ensures StartsWith(Classify(p).message, Phrase(Rule(p)))
    ensures p.Response? && p.status == 404 ==>
              !Classify(p).alive && StartsWith(Classify(p).message, NotFoundPhrase)
    ensures p.Response? && p.status == 503 ==>
              !Classify(p).alive && StartsWith(Classify(p).message, UnavailablePhrase)
    ensures p.Response? && p.status != 404 && p.status != 503 && RaiseForStatusRejects(p.status) ==>
              !Classify(p).alive && StartsWith(Classify(p).message, HttpErrorPhrase)
    ensures Classify(p).alive ==> StartsWith(Classify(p).message, UpPhrase)
    ensures p.ConnectionFailure? ==> !Classify(p).alive && StartsWith(Classify(p).message, ConnectionPhrase)
    ensures p.TimeoutFailure? ==> !Classify(p).alive && StartsWith(Classify(p).message, TimeoutPhrase)
    ensures p.OtherRequestFailure? ==> !Classify(p).alive && StartsWith(Classify(p).message, OtherPhrase)
  {
  }

  /**
   * The message alone determines which branch fired, and the target is
   * alive exactly when the branch is the up one.
   */
  lemma ClassifyFollowsRule(p: ProbeOutcome)
    ensures VerdictOf(Classify(p).message) == Some(Rule(p))
    ensures Classify(p).alive <==> Rule(p) == Up
  {
    var m := Classify(p).message;
    match p
    case Response(status, elapsed, errorText, elapsedAtError) =>
      if status == 404 {
        VerdictOfLead(NotFound, elapsed + Seconds);
      } else if status == 503 {
        VerdictOfLead(Unavailable, elapsed + Seconds);
      } else if RaiseForStatusRejects(status) {
        VerdictOfLead(HttpError, errorText + ". Response time: " + elapsedAtError + Seconds);
      } else {
        VerdictOfLead(Up, IntToString(status) + ". Response time: " + elapsed + Seconds);
      }
    case ConnectionFailure(detail) => VerdictOfLead(ConnectionFailed, detail);
    case TimeoutFailure(detail) => VerdictOfLead(TimedOut, detail);
    case OtherRequestFailure(detail) => VerdictOfLead(OtherError, detail);
  }

  /**
   * 404 and 503 are statuses `raise_for_status` rejects, yet their
   * dedicated branches come first, so the generic HTTP-error message is
   * never produced for them.
   */
  lemma SpecificStatusesPrecedeHttpError(s: int, elapsed: string, errorText: string, elapsedAtError: string)
    requires s == 404 || s == 503
    ensures RaiseForStatusRejects(s)
    ensures VerdictOf(Classify(Response(s, elapsed, errorText, elapsedAtError)).message) != Some(HttpError)
  {
    ClassifyFollowsRule(Response(s, elapsed, errorText, elapsedAtError));
  }

  /** The up message carries the status code, and it can be read back exactly. */
  lemma UpMessageCarriesStatus(p: ProbeOutcome)
    requires Classify(p).alive
    ensures StatusOf(Classify(p).message) == Some(p.status)
  {
    var digits := IntToString(p.status);
    var tail := ". Response time: " + p.elapsed + Seconds;
    var m := Classify(p).message;
    assert m == Lead(Up) + (digits + tail);
    assert m[..|Lead(Up)|] == Lead(Up);
    assert m[|Lead(Up)|..] == digits + tail;
    TakeUntilConcat(digits, '.', tail);
    ParseIntToString(p.status);
  }

  /**
   * Statuses the library does not reject count as up even outside 2xx and
   * 3xx: every informational 1xx answer, and every status of 600 or more.
   */
  lemma InformationalStatusIsUp(s: int, elapsed: string, errorText: string, elapsedAtError: string)
    requires 100 <= s < 200 || s >= 600
    ensures Classify(Response(s, elapsed, errorText, elapsedAtError)).alive
  {
  }
}
