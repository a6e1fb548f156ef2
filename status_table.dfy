/**
 * The status table of codes.ts: every supported HTTP status code with the names of
 * its assertion function (the first is canonical, the rest are aliases) and the
 * names of its negated function, plus the codes whose responses must not carry a
 * body. The generator relies on the table being well formed; `WellFormed` says
 * what that means and `IdentifierSlots.CodesWellFormed` proves it of the table.
 */
module StatusTable {

  datatype Entry = Entry(code: int, names: seq<string>, negations: seq<string>)

  /** The codes bound without a default message (`mustNotContainBodyCodes`). */
  const MustNotContainBodyCodes: seq<int> := [204, 205, 304]

  /** The 2xx entries. */
  const Successful: seq<Entry> := [
    Entry(200, ["ok", "successful"], ["notOk", "failed"]),
    Entry(201, ["created"], ["notCreated", "creationFailed"]),
    Entry(202, ["accepted"], ["notAccepted", "rejected"]),
    Entry(203, ["nonAuthoritativeInformation"], ["notNonAuthoritativeInformation", "authoritativeInformation"]),
    Entry(204, ["noContent"], ["notNoContent", "content"]),
    Entry(205, ["resetContent"], ["notResetContent"]),
    Entry(206, ["partialContent"], ["notPartialContent", "entireContent", "fullContent"]),
    Entry(207, ["multiStatus"], ["notMultiStatus", "singleStatus"]),
    Entry(208, ["alreadyReported"], ["notAlreadyReported"]),
    Entry(226, ["imUsed"], ["notImUsed"])
  ]

  /** The 3xx entries. */
  const Redirection: seq<Entry> := [
    Entry(300, ["multipleChoices"], ["notMultipleChoices"]),
    Entry(301, ["movedPermanently"], ["notMovedPermanently"]),
    Entry(302, ["temporaryFound", "redirect"], ["notTemporaryFound", "noRedirect"]),
    Entry(303, ["seeOther"], ["notSeeOther"]),
    Entry(304, ["notModified"], ["modified"]),
    Entry(305, ["useProxy", "proxy"], ["notUseProxy"]),
    Entry(307, ["temporaryRedirect"], ["notTemporaryRedirect"]),
    Entry(308, ["permanentRedirect"], ["notPermanentRedirect"])
  ]

  /** The 4xx entries. */
  const ClientError: seq<Entry> := [
    Entry(400, ["badRequest", "invalid"], ["goodRequest", "valid", "correct"]),
    Entry(401, ["unauthorized"], ["authorized", "authenticated"]),
    Entry(402, ["paymentRequired"], ["paymentNotRequired", "paymentOptional"]),
    Entry(403, ["forbidden"], ["notForbidden", "allowed", "permitted"]),
    Entry(404, ["notFound"], ["found"]),
    Entry(405, ["methodNotAllowed"], ["methodAllowed"]),
    Entry(406, ["notAcceptable"], ["acceptable"]),
    Entry(407, ["proxyAuthRequired"], ["proxyAuthNotRequired", "proxyAuthOptional"]),
    Entry(408, ["requestTimeout"], ["notRequestTimeout", "requestFast"]),
    Entry(409, ["conflict"], ["notConflict", "match"]),
    Entry(410, ["gone"], ["notGone", "present"]),
    Entry(411, ["lengthRequired"], ["lengthNotRequired", "lengthOptional"]),
    Entry(412, ["preconditionFailed"], ["successfulPrecondition", "preconditionMet", "preconditionPassed"]),
    Entry(413, ["payloadTooLarge"], ["notPayloadTooLarge", "payloadSmall"]),
    Entry(414, ["uriTooLong"], ["uriNotTooLong", "uriShort"]),
    Entry(415, ["unsupportedMediaType"], ["supportedMediaType"]),
    Entry(416, ["rangeNotSatisfiable"], ["rangeSatisfiable"]),
    Entry(417, ["expectationFailed"], ["expectationSuccessful", "expectationMet", "expectationPassed"]),
    Entry(418, ["teapot"], ["notTeapot"]),
    Entry(421, ["misdirectedRequest"], ["correctlyDirectedRequest", "directedRequest"]),
    Entry(422, ["unprocessableEntity"], ["processableEntity"]),
    Entry(423, ["locked"], ["unlocked", "open"]),
    Entry(424, ["failedDependency"], ["successfulDependency", "dependencyMet", "dependencyPassed"]),
    Entry(425, ["tooEarly"], ["notTooEarly", "afterSufficientTime", "onTime"]),
    Entry(426, ["upgradeRequired"], ["upgradeNotRequired", "upgradeOptional"]),
    Entry(428, ["preconditionRequired"], ["preconditionNotRequired", "preconditionOptional"]),
    Entry(429, ["tooManyRequests"], ["notTooManyRequests", "fewRequests"]),
    Entry(431, ["requestHeaderFieldsTooLarge"], ["requestHeaderFieldsAcceptable", "requestHeaderFieldsSmall"]),
    Entry(451, ["unavailableForLegalReasons"], ["availableForLegalReasons"])
  ]

  /** The 5xx entries. */
  const ServerError: seq<Entry> := [
    Entry(500, ["internalServerError"], ["noError", "notInternalServerError"]),
    Entry(501, ["notImplemented"], ["implemented"]),
    Entry(502, ["badGateway"], ["goodGateway"]),
    Entry(503, ["serviceUnavailable"], ["serviceAvailable"]),
    Entry(504, ["gatewayTimeout"], ["notGatewayTimeout", "gatewayResponsive"]),
    Entry(505, ["httpVersionNotSupported"], ["httpVersionSupported"]),
    Entry(506, ["variantAlsoNegotiates"], ["notVariantAlsoNegotiates", "variantNotNegotiating"]),
    Entry(507, ["insufficientStorage"], ["sufficientStorage", "storageAvailable"]),
    Entry(508, ["loopDetected"], ["loopNotDetected", "noLoop"]),
    Entry(509, ["bandwidthLimitExceeded"], ["bandwidthLimitNotExceeded", "bandwidthAvailable"]),
    Entry(510, ["notExtended"], ["extended"]),
    Entry(511, ["networkAuthenticationRequired"], ["networkAuthenticationNotRequired", "networkAuthenticationOptional"])
  ]
  /** The table in source order, kept in four century blocks so that the verifier can evaluate it. */
  const Codes: seq<Entry> := Successful + Redirection + ClientError + ServerError

  /** Every identifier an entry contributes: its names, then its negations. */
  function Ids(e: Entry): seq<string> {
    e.names + e.negations
  }

  /** The place of one identifier: the entry, and the index within `Ids` of that entry. */
  datatype Pos = Pos(entry: nat, index: nat)

  predicate ValidPos(t: seq<Entry>, p: Pos) {
    p.entry < |t| && p.index < |Ids(t[p.entry])|
  }

  function Id(t: seq<Entry>, p: Pos): string
    requires ValidPos(t, p)
  {
    Ids(t[p.entry])[p.index]
  }

  /** Each entry has a canonical name and a canonical negation. */
  predicate NamesNonEmpty(t: seq<Entry>) {
    forall k :: 0 <= k < |t| ==> |t[k].names| > 0 && |t[k].negations| > 0
  }

  /** No identifier occurs twice anywhere in the table: each one becomes an export of the same module. */
  ghost predicate UniqueIdentifiers(t: seq<Entry>) {
    forall p, q :: ValidPos(t, p) && ValidPos(t, q) && Id(t, p) == Id(t, q) ==> p == q
  }

  predicate StrictlyAscending(t: seq<Entry>) {
    forall i, j :: 0 <= i < j < |t| ==> t[i].code < t[j].code
  }

  predicate AdjacentAscending(t: seq<Entry>) {
    forall i :: 0 <= i < |t| - 1 ==> t[i].code < t[i + 1].code
  }

  /** Codes are in 200..599, so each one's century is one of the four README groups. */
  predicate CodesInRange(t: seq<Entry>) {
    forall k :: 0 <= k < |t| ==> 200 <= t[k].code <= 599
  }

  predicate HasCode(t: seq<Entry>, c: int) {
    exists k :: 0 <= k < |t| && t[k].code == c
  }

  predicate BodylessCodesPresent(t: seq<Entry>, bodyless: seq<int>) {
    forall c :: c in bodyless ==> HasCode(t, c)
  }

  ghost predicate WellFormed(t: seq<Entry>) {
    && NamesNonEmpty(t)
    && UniqueIdentifiers(t)
    && StrictlyAscending(t)
    && CodesInRange(t)
    && BodylessCodesPresent(t, MustNotContainBodyCodes)
  }

  /** Ascending neighbours give an ascending table, hence pairwise distinct codes. */
  lemma {:induction false} AscendingFromAdjacent(t: seq<Entry>)
    requires AdjacentAscending(t)
    ensures StrictlyAscending(t)
    ensures forall i, j :: 0 <= i < |t| && 0 <= j < |t| && t[i].code == t[j].code ==> i == j
  {
    forall i, j | 0 <= i < j < |t|
      ensures t[i].code < t[j].code
    {
      AscendingBetween(t, i, j);
    }
  }

  lemma {:induction false} AscendingBetween(t: seq<Entry>, i: nat, j: nat)
    requires AdjacentAscending(t) && i < j < |t|
    ensures t[i].code < t[j].code
    decreases j - i
  {
    if i + 1 < j {
      AscendingBetween(t, i + 1, j);
    }
  }

  /** Two ascending runs, the first ending below the second's start, make one. */
  lemma AdjacentAscendingAppend(a: seq<Entry>, b: seq<Entry>)
    requires AdjacentAscending(a) && AdjacentAscending(b)
    requires |a| > 0 && |b| > 0 ==> a[|a| - 1].code < b[0].code
    ensures AdjacentAscending(a + b)
  {
    forall i | 0 <= i < |a + b| - 1
      ensures (a + b)[i].code < (a + b)[i + 1].code
    {
      if i + 1 < |a| {
        assert (a + b)[i] == a[i] && (a + b)[i + 1] == a[i + 1];
      } else if i + 1 == |a| {
        assert (a + b)[i] == a[|a| - 1] && (a + b)[i + 1] == b[0];
      } else {
        assert (a + b)[i] == b[i - |a|] && (a + b)[i + 1] == b[i - |a| + 1];
      }
    }
  }

  /** The three entry-local conditions, checked on one block of the table. */
  predicate BlockWellFormed(b: seq<Entry>) {
    NamesNonEmpty(b) && AdjacentAscending(b) && CodesInRange(b)
  }

  lemma BlockAppend(a: seq<Entry>, b: seq<Entry>)
    requires BlockWellFormed(a) && BlockWellFormed(b)
    requires |a| > 0 && |b| > 0 ==> a[|a| - 1].code < b[0].code
    ensures BlockWellFormed(a + b)
  {
    AdjacentAscendingAppend(a, b);
    assert forall k :: 0 <= k < |a + b| ==> (a + b)[k] == if k < |a| then a[k] else b[k - |a|];
  }

  /** The entry-local conditions at index `k` of a block. */
  predicate EntryOk(b: seq<Entry>, k: nat)
    requires k < |b|
  {
    && |b[k].names| > 0 && |b[k].negations| > 0
    && 200 <= b[k].code <= 599
    && (k + 1 < |b| ==> b[k].code < b[k + 1].code)
  }

  lemma BlockFromEntries(b: seq<Entry>)
    requires forall k :: 0 <= k < |b| ==> EntryOk(b, k)
    ensures BlockWellFormed(b)
  {
    forall k | 0 <= k < |b|
      ensures |b[k].names| > 0 && |b[k].negations| > 0 && 200 <= b[k].code <= 599
      ensures k + 1 < |b| ==> b[k].code < b[k + 1].code
    {
      assert EntryOk(b, k);
    }
  }

  lemma SuccessfulWellFormed()
    ensures BlockWellFormed(Successful)
  {
    assert forall k :: 0 <= k < |Successful| ==> EntryOk(Successful, k);
    BlockFromEntries(Successful);
  }

  lemma RedirectionWellFormed()
    ensures BlockWellFormed(Redirection)
  {
    assert forall k :: 0 <= k < |Redirection| ==> EntryOk(Redirection, k);
    BlockFromEntries(Redirection);
  }

  /** The 4xx block is the largest; it is checked in three parts. */
  lemma ClientErrorWellFormed()
    ensures BlockWellFormed(ClientError)
  {
    ClientErrorEntries(0, 10);
    ClientErrorEntries(10, 20);
    ClientErrorEntries(20, |ClientError|);
    BlockFromEntries(ClientError);
  }

  lemma ClientErrorEntries(lo: nat, hi: nat)
    requires (lo, hi) in {(0, 10), (10, 20), (20, |ClientError|)}
    ensures forall k :: lo <= k < hi ==> EntryOk(ClientError, k)
  {
  }

  lemma ServerErrorWellFormed()
    ensures BlockWellFormed(ServerError)
  {
    assert forall k :: 0 <= k < |ServerError| ==> EntryOk(ServerError, k);
    BlockFromEntries(ServerError);
  }

  lemma CodesBlockWellFormed()
    ensures NamesNonEmpty(Codes) && AdjacentAscending(Codes) && CodesInRange(Codes)
  {
    SuccessfulWellFormed();
    RedirectionWellFormed();
    ClientErrorWellFormed();
    ServerErrorWellFormed();
    BlockAppend(Successful, Redirection);
    BlockAppend(Successful + Redirection, ClientError);
    BlockAppend(Successful + Redirection + ClientError, ServerError);
  }

  /** 204 and 205 are entries 4 and 5 of the table, 304 is entry 14. */
  lemma CodesHaveBodylessCodes()
    ensures BodylessCodesPresent(Codes, MustNotContainBodyCodes)
  {
    assert Codes[4].code == 204 && Codes[5].code == 205 && Codes[14].code == 304;
  }
}
