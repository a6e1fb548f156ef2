/**
 * The identifiers of the status table are plain text: none holds a `$`, which a
 * replacement string of `String.prototype.replace` would expand, or a `!`, which
 * the README markers `<!-- ... -->` hold. Each entry is checked by a lemma of its own.
 */
module PlainIdentifiers {
  import opened Text
  import opened StatusTable

  /** Every identifier of `e` is plain. */
  predicate EntryPlain(e: Entry) {
    forall m :: 0 <= m < |Ids(e)| ==> Plain(Ids(e)[m])
  }

  /** Every identifier of the table `t` is plain. */
  predicate IdentifiersPlain(t: seq<Entry>) {
    forall k :: 0 <= k < |t| ==> EntryPlain(t[k])
  }

  lemma IdentifiersPlainAppend(a: seq<Entry>, b: seq<Entry>)
    requires IdentifiersPlain(a) && IdentifiersPlain(b)
    ensures IdentifiersPlain(a + b)
  {
    forall k | 0 <= k < |a + b|
      ensures EntryPlain((a + b)[k])
    {
      if k < |a| {
        assert (a + b)[k] == a[k];
      } else {
        assert (a + b)[k] == b[k - |a|];
      }
    }
  }

  /** No identifier of the table holds a `$` or a `!`. */
  lemma CodesIdentifiersPlain()
    ensures IdentifiersPlain(Codes)
  {
    SuccessfulPlain();
    RedirectionPlain();
    ClientErrorPlain();
    ServerErrorPlain();
    IdentifiersPlainAppend(Successful, Redirection);
    IdentifiersPlainAppend(Successful + Redirection, ClientError);
    IdentifiersPlainAppend(Successful + Redirection + ClientError, ServerError);
  }

  lemma SuccessfulPlain()
    ensures IdentifiersPlain(Successful)
  {
    Plain200(); Plain201(); Plain202(); Plain203(); Plain204(); Plain205(); Plain206(); Plain207();
    Plain208(); Plain226();
  }

  lemma Plain200()
    ensures EntryPlain(Successful[0])
  {
    assert Plain("ok");
    assert Plain("successful");
    assert Plain("notOk");
    assert Plain("failed");
  }

  lemma Plain201()
    ensures EntryPlain(Successful[1])
  {
    assert Plain("created");
    assert Plain("notCreated");
    assert Plain("creationFailed");
  }

  lemma Plain202()
    ensures EntryPlain(Successful[2])
  {
    assert Plain("accepted");
    assert Plain("notAccepted");
    assert Plain("rejected");
  }

  lemma Plain203()
    ensures EntryPlain(Successful[3])
  {
    assert Plain("nonAuthoritativeInformation");
    assert Plain("notNonAuthoritativeInformation");
    assert Plain("authoritativeInformation");
  }

  lemma Plain204()
    ensures EntryPlain(Successful[4])
  {
    assert Plain("noContent");
    assert Plain("notNoContent");
    assert Plain("content");
  }

  lemma Plain205()
    ensures EntryPlain(Successful[5])
  {
    assert Plain("resetContent");
    assert Plain("notResetContent");
  }

  lemma Plain206()
    ensures EntryPlain(Successful[6])
  {
    assert Plain("partialContent");
    assert Plain("notPartialContent");
    assert Plain("entireContent");
    assert Plain("fullContent");
  }

  lemma Plain207()
    ensures EntryPlain(Successful[7])
  {
    assert Plain("multiStatus");
    assert Plain("notMultiStatus");
    assert Plain("singleStatus");
  }

  lemma Plain208()
    ensures EntryPlain(Successful[8])
  {
    assert Plain("alreadyReported");
    assert Plain("notAlreadyReported");
  }

  lemma Plain226()
    ensures EntryPlain(Successful[9])
  {
    assert Plain("imUsed");
    assert Plain("notImUsed");
  }

  lemma RedirectionPlain()
    ensures IdentifiersPlain(Redirection)
  {
    Plain300(); Plain301(); Plain302(); Plain303(); Plain304(); Plain305(); Plain307(); Plain308();
  }

  lemma Plain300()
    ensures EntryPlain(Redirection[0])
  {
    assert Plain("multipleChoices");
    assert Plain("notMultipleChoices");
  }

  lemma Plain301()
    ensures EntryPlain(Redirection[1])
  {
    assert Plain("movedPermanently");
    assert Plain("notMovedPermanently");
  }

  lemma Plain302()
    ensures EntryPlain(Redirection[2])
  {
    assert Plain("temporaryFound");
    assert Plain("redirect");
    assert Plain("notTemporaryFound");
    assert Plain("noRedirect");
  }

  lemma Plain303()
    ensures EntryPlain(Redirection[3])
  {
    assert Plain("seeOther");
    assert Plain("notSeeOther");
  }

  lemma Plain304()
    ensures EntryPlain(Redirection[4])
  {
    assert Plain("notModified");
    assert Plain("modified");
  }

  lemma Plain305()
    ensures EntryPlain(Redirection[5])
  {
    assert Plain("useProxy");
    assert Plain("proxy");
    assert Plain("notUseProxy");
  }

  lemma Plain307()
    ensures EntryPlain(Redirection[6])
  {
    assert Plain("temporaryRedirect");
    assert Plain("notTemporaryRedirect");
  }

  lemma Plain308()
    ensures EntryPlain(Redirection[7])
  {
    assert Plain("permanentRedirect");
    assert Plain("notPermanentRedirect");
  }

  /** The 4xx block is the largest; it is checked in three parts. */
  lemma ClientErrorPlain()
    ensures IdentifiersPlain(ClientError)
  {
    ClientErrorPlainLow();
    ClientErrorPlainMiddle();
    ClientErrorPlainHigh();
  }

  lemma ClientErrorPlainLow()
    ensures forall k :: 0 <= k < 10 ==> EntryPlain(ClientError[k])
  {
    Plain400(); Plain401(); Plain402(); Plain403(); Plain404(); Plain405(); Plain406(); Plain407();
    Plain408(); Plain409();
  }

  lemma ClientErrorPlainMiddle()
    ensures forall k :: 10 <= k < 20 ==> EntryPlain(ClientError[k])
  {
    Plain410(); Plain411(); Plain412(); Plain413(); Plain414(); Plain415(); Plain416(); Plain417();
    Plain418(); Plain421();
  }

  lemma ClientErrorPlainHigh()
    ensures forall k :: 20 <= k < 29 ==> EntryPlain(ClientError[k])
  {
    Plain422(); Plain423(); Plain424(); Plain425(); Plain426(); Plain428(); Plain429(); Plain431();
    Plain451();
  }

  lemma Plain400()
    ensures EntryPlain(ClientError[0])
  {
    assert Plain("badRequest");
    assert Plain("invalid");
    assert Plain("goodRequest");
    assert Plain("valid");
    assert Plain("correct");
  }

  lemma Plain401()
    ensures EntryPlain(ClientError[1])
  {
    assert Plain("unauthorized");
    assert Plain("authorized");
    assert Plain("authenticated");
  }

  lemma Plain402()
    ensures EntryPlain(ClientError[2])
  {
    assert Plain("paymentRequired");
    assert Plain("paymentNotRequired");
    assert Plain("paymentOptional");
  }

  lemma Plain403()
    ensures EntryPlain(ClientError[3])
  {
    assert Plain("forbidden");
    assert Plain("notForbidden");
    assert Plain("allowed");
    assert Plain("permitted");
  }

  lemma Plain404()
    ensures EntryPlain(ClientError[4])
  {
    assert Plain("notFound");
    assert Plain("found");
  }

  lemma Plain405()
    ensures EntryPlain(ClientError[5])
  {
    assert Plain("methodNotAllowed");
    assert Plain("methodAllowed");
  }

  lemma Plain406()
    ensures EntryPlain(ClientError[6])
  {
    assert Plain("notAcceptable");
    assert Plain("acceptable");
  }

  lemma Plain407()
    ensures EntryPlain(ClientError[7])
  {
    assert Plain("proxyAuthRequired");
    assert Plain("proxyAuthNotRequired");
    assert Plain("proxyAuthOptional");
  }

  lemma Plain408()
    ensures EntryPlain(ClientError[8])
  {
    assert Plain("requestTimeout");
    assert Plain("notRequestTimeout");
    assert Plain("requestFast");
  }

  lemma Plain409()
    ensures EntryPlain(ClientError[9])
  {
    assert Plain("conflict");
    assert Plain("notConflict");
    assert Plain("match");
  }

  lemma Plain410()
    ensures EntryPlain(ClientError[10])
  {
    assert Plain("gone");
    assert Plain("notGone");
    assert Plain("present");
  }

  lemma Plain411()
    ensures EntryPlain(ClientError[11])
  {
    assert Plain("lengthRequired");
    assert Plain("lengthNotRequired");
    assert Plain("lengthOptional");
  }

  lemma Plain412()
    ensures EntryPlain(ClientError[12])
  {
    assert Plain("preconditionFailed");
    assert Plain("successfulPrecondition");
    assert Plain("preconditionMet");
    assert Plain("preconditionPassed");
  }

  lemma Plain413()
    ensures EntryPlain(ClientError[13])
  {
    assert Plain("payloadTooLarge");
    assert Plain("notPayloadTooLarge");
    assert Plain("payloadSmall");
  }

  lemma Plain414()
    ensures EntryPlain(ClientError[14])
  {
    assert Plain("uriTooLong");
    assert Plain("uriNotTooLong");
    assert Plain("uriShort");
  }

  lemma Plain415()
    ensures EntryPlain(ClientError[15])
  {
    assert Plain("unsupportedMediaType");
    assert Plain("supportedMediaType");
  }

  lemma Plain416()
    ensures EntryPlain(ClientError[16])
  {
    assert Plain("rangeNotSatisfiable");
    assert Plain("rangeSatisfiable");
  }

  lemma Plain417()
    ensures EntryPlain(ClientError[17])
  {
    assert Plain("expectationFailed");
    assert Plain("expectationSuccessful");
    assert Plain("expectationMet");
    assert Plain("expectationPassed");
  }

  lemma Plain418()
    ensures EntryPlain(ClientError[18])
  {
    assert Plain("teapot");
    assert Plain("notTeapot");
  }

  lemma Plain421()
    ensures EntryPlain(ClientError[19])
  {
    assert Plain("misdirectedRequest");
    assert Plain("correctlyDirectedRequest");
    assert Plain("directedRequest");
  }

  lemma Plain422()
    ensures EntryPlain(ClientError[20])
  {
    assert Plain("unprocessableEntity");
    assert Plain("processableEntity");
  }

  lemma Plain423()
    ensures EntryPlain(ClientError[21])
  {
    assert Plain("locked");
    assert Plain("unlocked");
    assert Plain("open");
  }

  lemma Plain424()
    ensures EntryPlain(ClientError[22])
  {
    assert Plain("failedDependency");
    assert Plain("successfulDependency");
    assert Plain("dependencyMet");
    assert Plain("dependencyPassed");
  }

  lemma Plain425()
    ensures EntryPlain(ClientError[23])
  {
    assert Plain("tooEarly");
    assert Plain("notTooEarly");
    assert Plain("afterSufficientTime");
    assert Plain("onTime");
  }

  lemma Plain426()
    ensures EntryPlain(ClientError[24])
  {
    assert Plain("upgradeRequired");
    assert Plain("upgradeNotRequired");
    assert Plain("upgradeOptional");
  }

  lemma Plain428()
    ensures EntryPlain(ClientError[25])
  {
    assert Plain("preconditionRequired");
    assert Plain("preconditionNotRequired");
    assert Plain("preconditionOptional");
  }

  lemma Plain429()
    ensures EntryPlain(ClientError[26])
  {
    assert Plain("tooManyRequests");
    assert Plain("notTooManyRequests");
    assert Plain("fewRequests");
  }

  lemma Plain431()
    ensures EntryPlain(ClientError[27])
  {
    assert Plain("requestHeaderFieldsTooLarge");
    assert Plain("requestHeaderFieldsAcceptable");
    assert Plain("requestHeaderFieldsSmall");
  }

  lemma Plain451()
    ensures EntryPlain(ClientError[28])
  {
    assert Plain("unavailableForLegalReasons");
    assert Plain("availableForLegalReasons");
  }

  lemma ServerErrorPlain()
    ensures IdentifiersPlain(ServerError)
  {
    Plain500(); Plain501(); Plain502(); Plain503(); Plain504(); Plain505(); Plain506(); Plain507();
    Plain508(); Plain509(); Plain510(); Plain511();
  }

  lemma Plain500()
    ensures EntryPlain(ServerError[0])
  {
    assert Plain("internalServerError");
    assert Plain("noError");
    assert Plain("notInternalServerError");
  }

  lemma Plain501()
    ensures EntryPlain(ServerError[1])
  {
    assert Plain("notImplemented");
    assert Plain("implemented");
  }

  lemma Plain502()
    ensures EntryPlain(ServerError[2])
  {
    assert Plain("badGateway");
    assert Plain("goodGateway");
  }

  lemma Plain503()
    ensures EntryPlain(ServerError[3])
  {
    assert Plain("serviceUnavailable");
    assert Plain("serviceAvailable");
  }

  lemma Plain504()
    ensures EntryPlain(ServerError[4])
  {
    assert Plain("gatewayTimeout");
    assert Plain("notGatewayTimeout");
    assert Plain("gatewayResponsive");
  }

  lemma Plain505()
    ensures EntryPlain(ServerError[5])
  {
    assert Plain("httpVersionNotSupported");
    assert Plain("httpVersionSupported");
  }

  lemma Plain506()
    ensures EntryPlain(ServerError[6])
  {
    assert Plain("variantAlsoNegotiates");
    assert Plain("notVariantAlsoNegotiates");
    assert Plain("variantNotNegotiating");
  }

  lemma Plain507()
    ensures EntryPlain(ServerError[7])
  {
    assert Plain("insufficientStorage");
    assert Plain("sufficientStorage");
    assert Plain("storageAvailable");
  }

  lemma Plain508()
    ensures EntryPlain(ServerError[8])
  {
    assert Plain("loopDetected");
    assert Plain("loopNotDetected");
    assert Plain("noLoop");
  }

  lemma Plain509()
    ensures EntryPlain(ServerError[9])
  {
    assert Plain("bandwidthLimitExceeded");
    assert Plain("bandwidthLimitNotExceeded");
    assert Plain("bandwidthAvailable");
  }

  lemma Plain510()
    ensures EntryPlain(ServerError[10])
  {
    assert Plain("notExtended");
    assert Plain("extended");
  }

  lemma Plain511()
    ensures EntryPlain(ServerError[11])
  {
    assert Plain("networkAuthenticationRequired");
    assert Plain("networkAuthenticationNotRequired");
    assert Plain("networkAuthenticationOptional");
  }
}
