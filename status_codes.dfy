/**
 * The reason phrases that the generator reads from `STATUS_CODES` of node:http, for
 * the codes of the status table. Outside the table the lookup is undefined, which a
 * JavaScript template renders as the text "undefined".
 */
module StatusCodes {
  import opened StatusTable

  /** `${STATUS_CODES[code]}`, looked up century by century. */
  function ReasonPhrase(code: int): string {
    if code < 200 then "undefined"
    else if code < 300 then
      match code
      case 200 => "OK"
      case 201 => "Created"
      case 202 => "Accepted"
      case 203 => "Non-Authoritative Information"
      case 204 => "No Content"
      case 205 => "Reset Content"
      case 206 => "Partial Content"
      case 207 => "Multi-Status"
      case 208 => "Already Reported"
      case 226 => "IM Used"
      case _ => "undefined"
    else if code < 400 then
      match code
      case 300 => "Multiple Choices"
      case 301 => "Moved Permanently"
      case 302 => "Found"
      case 303 => "See Other"
      case 304 => "Not Modified"
      case 305 => "Use Proxy"
      case 307 => "Temporary Redirect"
      case 308 => "Permanent Redirect"
      case _ => "undefined"
    else if code < 500 then
      match code
      case 400 => "Bad Request"
      case 401 => "Unauthorized"
      case 402 => "Payment Required"
      case 403 => "Forbidden"
      case 404 => "Not Found"
      case 405 => "Method Not Allowed"
      case 406 => "Not Acceptable"
      case 407 => "Proxy Authentication Required"
      case 408 => "Request Timeout"
      case 409 => "Conflict"
      case 410 => "Gone"
      case 411 => "Length Required"
      case 412 => "Precondition Failed"
      case 413 => "Payload Too Large"
      case 414 => "URI Too Long"
      case 415 => "Unsupported Media Type"
      case 416 => "Range Not Satisfiable"
      case 417 => "Expectation Failed"
      case 418 => "I'm a Teapot"
      case 421 => "Misdirected Request"
      case 422 => "Unprocessable Entity"
      case 423 => "Locked"
      case 424 => "Failed Dependency"
      case 425 => "Too Early"
      case 426 => "Upgrade Required"
      case 428 => "Precondition Required"
      case 429 => "Too Many Requests"
      case 431 => "Request Header Fields Too Large"
      case 451 => "Unavailable For Legal Reasons"
      case _ => "undefined"
    else if code < 600 then
      match code
      case 500 => "Internal Server Error"
      case 501 => "Not Implemented"
      case 502 => "Bad Gateway"
      case 503 => "Service Unavailable"
      case 504 => "Gateway Timeout"
      case 505 => "HTTP Version Not Supported"
      case 506 => "Variant Also Negotiates"
      case 507 => "Insufficient Storage"
      case 508 => "Loop Detected"
      case 509 => "Bandwidth Limit Exceeded"
      case 510 => "Not Extended"
      case 511 => "Network Authentication Required"
      case _ => "undefined"
    else "undefined"
  }

  /** Every code of block `b` has a reason phrase of its own. */
  predicate BlockHasPhrases(b: seq<Entry>) {
    forall k :: 0 <= k < |b| ==> ReasonPhrase(b[k].code) != "undefined"
  }

  lemma BlockHasPhrasesAppend(a: seq<Entry>, b: seq<Entry>)
    requires BlockHasPhrases(a) && BlockHasPhrases(b)
    ensures BlockHasPhrases(a + b)
  {
    forall k | 0 <= k < |a + b|
      ensures ReasonPhrase((a + b)[k].code) != "undefined"
    {
      if k < |a| {
        assert (a + b)[k] == a[k];
      } else {
        assert (a + b)[k] == b[k - |a|];
      }
    }
  }

  /** No code of the table is rendered as "undefined" by the generator. */
  lemma CodesHavePhrases()
    ensures BlockHasPhrases(Codes)
  {
    SuccessfulHasPhrases();
    RedirectionHasPhrases();
    ClientErrorHasPhrases();
    ServerErrorHasPhrases();
    BlockHasPhrasesAppend(Successful, Redirection);
    BlockHasPhrasesAppend(Successful + Redirection, ClientError);
    BlockHasPhrasesAppend(Successful + Redirection + ClientError, ServerError);
  }

  lemma SuccessfulHasPhrases()
    ensures BlockHasPhrases(Successful)
  {
  }

  lemma RedirectionHasPhrases()
    ensures BlockHasPhrases(Redirection)
  {
  }

  lemma ClientErrorHasPhrases()
    ensures BlockHasPhrases(ClientError)
  {
  }

  lemma ServerErrorHasPhrases()
    ensures BlockHasPhrases(ServerError)
  {
  }
}
