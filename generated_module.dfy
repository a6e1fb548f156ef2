/**
 * The module generated from the status table, src/main.ts, as its users see it:
 * it loads, every identifier of the table is one of its exports, aliases denote
 * the same function as their canonical name, and the assertions behave as the
 * usage examples of src/main.test.ts expect.
 */
module GeneratedModule {
  import opened Wrappers
  import opened JsValue
  import opened ResponseAssertion
  import opened StatusTable
  import opened StatusCodes
  import opened IdentifierSlots
  import opened Bindings

  /** src/main.ts loads, and exports exactly what the table calls for. */
  lemma MainLoads()
    ensures Interpret(ModuleDecls(Codes), map[]) == Some(TableExports(Codes))
  {
    CodesWellFormed();
    ModuleLoads(Codes);
  }

  /** The export of the identifier at place `p` of the table. */
  lemma ExportAt(p: Pos)
    requires ValidPos(Codes, p)
    ensures Id(Codes, p) in TableExports(Codes) && TableExports(Codes)[Id(Codes, p)] == Denotation(Codes, p)
  {
    CodesUniqueIdentifiers();
    ExportsDenote(Codes);
  }

  /** The canonical name of entry `k` is exported as the assertion for its code and default message. */
  lemma CanonicalExport(k: nat)
    requires k < |Codes|
    ensures |Codes[k].names| > 0 && Codes[k].names[0] in TableExports(Codes)
    ensures TableExports(Codes)[Codes[k].names[0]] == Create(Codes[k].code, Message(Codes[k].code))
  {
    CodesBlockWellFormed();
    ExportAt(Pos(k, 0));
  }

  /** `successful` is `ok`, the assertion for 200 with the message "OK"; `notOk` is its negation. */
  lemma OkExports()
    ensures var x := TableExports(Codes);
      && "ok" in x && "successful" in x && "notOk" in x
      && x["ok"] == x["successful"] == Create(200, Some("OK"))
      && x["notOk"] == Negate(Create(200, Some("OK")))
  {
    assert Codes[0] == Successful[0];
    ExportAt(Pos(0, 0));
    ExportAt(Pos(0, 1));
    ExportAt(Pos(0, 2));
  }

  /** `redirect` is `temporaryFound`, the assertion for 302 with the message "Found". */
  lemma RedirectExports()
    ensures var x := TableExports(Codes);
      && "temporaryFound" in x && "redirect" in x
      && x["temporaryFound"] == x["redirect"] == Create(302, Some("Found"))
  {
    assert Codes[12] == Redirection[2];
    ExportAt(Pos(12, 0));
    ExportAt(Pos(12, 1));
  }

  /** `valid` and `correct` are `goodRequest`, the negation of the assertion for 400. */
  lemma ValidExports()
    ensures var x := TableExports(Codes);
      && "goodRequest" in x && "valid" in x && "correct" in x
      && x["goodRequest"] == x["valid"] == x["correct"] == Negate(Create(400, Some("Bad Request")))
  {
    assert Codes[18] == ClientError[0];
    ExportAt(Pos(18, 2));
    ExportAt(Pos(18, 3));
    ExportAt(Pos(18, 4));
  }

  /** `found` is the negation of `notFound`, the assertion for 404. */
  lemma FoundExport()
    ensures var x := TableExports(Codes);
      && "found" in x && x["found"] == Negate(Create(404, Some("Not Found")))
  {
    assert Codes[22] == ClientError[4];
    ExportAt(Pos(22, 1));
  }

  /** The only codes of the table that the Fetch Standard forbids a body for are the ones bound without a message. */
  lemma NullBodyCodesOfTable(k: nat)
    requires k < |Codes|
    ensures Codes[k].code in NullBodyStatus <==> Codes[k].code in MustNotContainBodyCodes
  {
    CodesBlockWellFormed();
  }

  /**
   * Triggering the canonical assertion of any entry: without a body it throws a
   * response with the entry's code; with the body "Custom Body" it throws a response
   * exactly when the code is not one of the codes that must not carry a body, and
   * fails with a TypeError otherwise.
   */
  lemma CanonicalAssertionsAndBodies(k: nat)
    requires k < |Codes|
    ensures |Codes[k].names| > 0 && Codes[k].names[0] in TableExports(Codes)
    ensures var f := TableExports(Codes)[Codes[k].names[0]];
      && Call(f, Bool(true), Absent, Absent).outcome.ThrownResponse?
      && "status" in Call(f, Bool(true), Absent, Absent).outcome.response.init
      && Call(f, Bool(true), Absent, Absent).outcome.response.init["status"] == Int(Codes[k].code)
      && (Call(f, Bool(true), Literal(Str("Custom Body")), Absent).outcome.ThrownResponse?
          <==> Codes[k].code !in MustNotContainBodyCodes)
      && (Call(f, Bool(true), Literal(Str("Custom Body")), Absent).outcome.ThrownTypeError?
          <==> Codes[k].code in MustNotContainBodyCodes)
  {
    CanonicalExport(k);
    NullBodyCodesOfTable(k);
  }

  /** `ok(true)` and `ok([])` throw 200 with the body "OK"; `ok()` and `ok(false)` return. */
  lemma OkExamples()
    ensures "ok" in TableExports(Codes)
    ensures var ok := TableExports(Codes)["ok"];
      && Call(ok, Bool(true), Absent, Absent) == Run(ThrownResponse(Resp(Str("OK"), map["status" := Int(200)])), [])
      && Call(ok, Arr([]), Absent, Absent) == Run(ThrownResponse(Resp(Str("OK"), map["status" := Int(200)])), [])
      && Call(ok, Undefined, Absent, Absent) == Run(Returned, [])
      && Call(ok, Bool(false), Absent, Absent) == Run(Returned, [])
  {
    OkExports();
    MergedInitWithoutFields(200, Undefined);
  }

  /** `notOk(true)` and `notOk([])` return; `notOk()` and `notOk(false)` throw 200 with the body "OK". */
  lemma NotOkExamples()
    ensures "notOk" in TableExports(Codes)
    ensures var notOk := TableExports(Codes)["notOk"];
      && Call(notOk, Bool(true), Absent, Absent) == Run(Returned, [])
      && Call(notOk, Arr([]), Absent, Absent) == Run(Returned, [])
      && Call(notOk, Undefined, Absent, Absent) == Run(ThrownResponse(Resp(Str("OK"), map["status" := Int(200)])), [])
      && Call(notOk, Bool(false), Absent, Absent) == Run(ThrownResponse(Resp(Str("OK"), map["status" := Int(200)])), [])
  {
    OkExports();
    MergedInitWithoutFields(200, Undefined);
  }

  /** `valid(false, "Invalid input")` throws 400 with that body, and `found(null, "Item not found")` throws 404 with that body. */
  lemma NegatedExamples()
    ensures "valid" in TableExports(Codes) && "found" in TableExports(Codes)
    ensures Call(TableExports(Codes)["valid"], Bool(false), Literal(Str("Invalid input")), Absent)
         == Run(ThrownResponse(Resp(Str("Invalid input"), map["status" := Int(400)])), [])
    ensures Call(TableExports(Codes)["found"], Null, Literal(Str("Item not found")), Absent)
         == Run(ThrownResponse(Resp(Str("Item not found"), map["status" := Int(404)])), [])
  {
    ValidExports();
    FoundExport();
    MergedInitWithoutFields(400, Undefined);
    MergedInitWithoutFields(404, Undefined);
  }
}
