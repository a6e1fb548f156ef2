/**
 * The text of src/main.ts as scripts/prebuild.ts writes it (lines 6-19 and 21-82):
 * a fixed preamble holding the two combinators, then one block per entry of the
 * status table, joined by newlines. Each block is the JSDoc comment and
 * declaration of the canonical assertion, the export line of its aliases, and the
 * same for the canonical negation. `RenderDecls` renders the declarations of
 * `Bindings` one by one; `EntryTextRendersDecls` shows that the template emits
 * exactly the declarations whose loading `Bindings.ModuleLoads` describes.
 */
module Emit {
  import opened Wrappers
  import opened Text
  import opened StatusTable
  import opened StatusCodes
  import opened Bindings

  /** The `${code} ${text}` of a JSDoc comment. */
  function StatusText(code: int): string {
    IntText(code) + " " + ReasonPhrase(code)
  }

  function Truthiness(negate: bool): string {
    if negate then "falsy" else "truthy"
  }

  const DocOpen := "/**\n * Throws a `Response` with status `"
  const DocAfterStatus := "` if the condition is "
  const DocAfterWord := ".\n *\n * @param condition - The condition to assert. If "
  const DocAfterSecondWord :=
    ", a response is thrown.\n"
    + " * @param body - Optional response body, or a function returning a body.\n"
    + " * @param init - Optional response init options, or a function returning init options.\n"
    + " * @throws {Response} - A `Response` object with status `"
  const DocClose := "` and the given body/init.\n */"

  /** The part of a comment between its two mentions of the status. */
  function DocMiddle(truthiness: string): string {
    DocAfterStatus + truthiness + DocAfterWord + truthiness + DocAfterSecondWord
  }

  /** The comment's template, for the status text `status` and the condition word `truthiness`. */
  function DocComment(status: string, truthiness: string): string {
    DocOpen + status + DocMiddle(truthiness) + status + DocClose
  }

  /** `jsDocComment(code, negate)`. */
  function JsDocComment(code: int, negate: bool): string {
    DocComment(StatusText(code), Truthiness(negate))
  }

  /**
   * The comment names the status (`<code> <reason phrase>` in a `jsDocComment`) in
   * its summary line and again in its `@throws` line.
   */
  lemma DocCommentStatus(status: string, truthiness: string)
    ensures var r := DocComment(status, truthiness);
      && OccursAt(r, status, |DocOpen|)
      && OccursAt(r, status, |r| - |DocClose| - |status|)
  {
    TemplateStatus(DocOpen, status, DocMiddle(truthiness), DocClose);
  }

  /** Where a comment names the condition: right after "If the condition is ". */
  function WordAt(status: string): nat {
    |DocOpen| + |status| + |DocAfterStatus|
  }

  /**
   * The comment names the condition with the same word in its summary line and
   * again in its `@param condition` line.
   */
  lemma DocCommentWord(status: string, truthiness: string)
    ensures var r, t := DocComment(status, truthiness), truthiness;
      OccursAt(r, t, WordAt(status)) && OccursAt(r, t, WordAt(status) + |t| + |DocAfterWord|)
  {
    TemplateWord(DocOpen, status, DocAfterStatus, truthiness, DocAfterWord, DocAfterSecondWord, DocClose);
  }

  /** The word is "truthy" for an assertion and "falsy" for a negation, and not the other one. */
  lemma DocCommentTruthiness(status: string, negate: bool)
    ensures OccursAt(DocComment(status, Truthiness(negate)), "truthy", WordAt(status)) <==> !negate
    ensures OccursAt(DocComment(status, Truthiness(negate)), "falsy", WordAt(status)) <==> negate
  {
    DocCommentWord(status, Truthiness(negate));
    var r, i := DocComment(status, Truthiness(negate)), WordAt(status);
    OccursHead(r, Truthiness(negate), i);
    if OccursAt(r, "truthy", i) {
      OccursHead(r, "truthy", i);
    }
    if OccursAt(r, "falsy", i) {
      OccursHead(r, "falsy", i);
    }
  }

  /** The template's code and fixed text around a declaration. */
  const Preamble: string :=
    ""
    + "export type HttpResponseAssertion = (\n"
    + "  condition?: unknown,\n"
    + "  body?: BodyInit | (() => BodyInit),\n"
    + "  init?: ResponseInit | (() => ResponseInit)\n"
    + ") => asserts condition;\n"
    + "\n"
    + "export type Falsy = false | 0 | \"\" | null | undefined;\n"
    + "\n"
    + "export type HttpResponseAssertionFalsy = (\n"
    + "  condition?: unknown,\n"
    + "  body?: BodyInit | (() => BodyInit),\n"
    + "  init?: ResponseInit | (() => ResponseInit)\n"
    + ") => asserts condition is Falsy;\n"
    + "\n"
    + "function createResponseAssertionFunction(status: number, message?: string): HttpResponseAssertion {\n"
    + "  return (condition, body, init) => {\n"
    + "    if (condition) {\n"
    + "      throw new Response(\n"
    + "        (typeof body === \"function\" ? body() : body) ?? message,\n"
    + "        { status, ...(typeof init === \"function\" ? init() : init) }\n"
    + "      );\n"
    + "    }\n"
    + "  };\n"
    + "}\n"
    + "\n"
    + "function negate(assert: HttpResponseAssertion): HttpResponseAssertionFalsy {\n"
    + "  return (condition, ...rest) => assert(!condition, ...rest);\n"
    + "}\n"
    + "\n"

  /** `, "<message>"`, the message argument of a canonical assertion, when there is one. */
  function MessageArg(message: Option<string>): string {
    if message.Some? then ", \"" + message.value + "\"" else ""
  }

  /** `local as alias` for every alias, in order, joined by ", ". */
  function AliasClauses(local: string, aliases: seq<string>): string {
    Join(Map(aliases, alias => local + " as " + alias), ", ")
  }

  /** The comment and declaration of a canonical assertion; `messageArg` is its text after the code. */
  function CreateText(name: string, code: int, messageArg: string): string {
    JsDocComment(code, false) + "\n"
    + "export const " + name + ": HttpResponseAssertionFalsy = createResponseAssertionFunction(" + IntText(code)
    + messageArg + ");\n"
  }

  /** The comment and declaration of a canonical negation of `target`, for the status `code`. */
  function NegateText(name: string, target: string, code: int): string {
    JsDocComment(code, true) + "\n"
    + "export const " + name + ": HttpResponseAssertion = negate(" + target + ");\n"
  }

  /** The export line of the aliases of `local`. */
  function AliasLine(local: string, aliases: seq<string>): string {
    "export { " + AliasClauses(local, aliases) + " };\n"
  }

  /** The text emitted for one entry of the table: the template of lines 58-78. */
  function EntryText(e: Entry): string {
    var name, aliases := Head(e.names), Rest(e.names);
    var negation, negationAliases := Head(e.negations), Rest(e.negations);
    CreateText(name, e.code, if e.code in MustNotContainBodyCodes then "" else ", \"" + ReasonPhrase(e.code) + "\"")
    + (if |aliases| > 0 then AliasLine(name, aliases) else "")
    + NegateText(negation, name, e.code)
    + (if |negationAliases| > 0 then AliasLine(negation, negationAliases) else "")
  }

  /** The entries' texts, in table order. */
  function EntryTexts(t: seq<Entry>): (r: seq<string>)
    ensures |r| == |t| && forall i :: 0 <= i < |t| ==> r[i] == EntryText(t[i])
  {
    seq(|t|, i requires 0 <= i < |t| => EntryText(t[i]))
  }

  /** The whole of src/main.ts. */
  function MainText(t: seq<Entry>): string {
    Preamble + Join(EntryTexts(t), "\n")
  }

  /**
   * One declaration as the generated module spells it; declarations of a function
   * are preceded by their JSDoc comment, which names the status `code`.
   */
  function DeclText(d: Decl, code: int): string {
    match d
    case DefineCreate(name, c, message) => CreateText(name, c, MessageArg(message))
    case DefineNegate(name, target) => NegateText(name, target, code)
    case ExportAliases(local, aliases) => AliasLine(local, aliases)
  }

  /** The declarations rendered one after the other. */
  function RenderDecls(ds: seq<Decl>, code: int): string {
    ConcatMap(ds, d => DeclText(d, code))
  }

  /** Rendering a sequence of declarations is rendering its parts one after the other. */
  lemma RenderAppend(a: seq<Decl>, b: seq<Decl>, code: int)
    ensures RenderDecls(a + b, code) == RenderDecls(a, code) + RenderDecls(b, code)
  {
    ConcatMapAppend(a, b, d => DeclText(d, code));
  }

  lemma RenderOne(d: Decl, code: int)
    ensures RenderDecls([d], code) == DeclText(d, code)
  {
    ConcatMapOne(d, d => DeclText(d, code));
  }

  /** The message argument of a canonical assertion is the reason phrase, unless the code must not carry a body. */
  lemma MessageArgOf(code: int)
    ensures MessageArg(Message(code))
         == if code in MustNotContainBodyCodes then "" else ", \"" + ReasonPhrase(code) + "\""
  {
  }

  /** The alias declarations of `local` render as its alias line, or as nothing when it has no aliases. */
  lemma RenderAliases(local: string, aliases: seq<string>, code: int)
    ensures RenderDecls(AliasDecls(local, aliases), code) == if |aliases| > 0 then AliasLine(local, aliases) else ""
  {
    if |aliases| > 0 {
      RenderOne(ExportAliases(local, aliases), code);
    }
  }

  /**
   * The text emitted for an entry declares exactly `EntryDecls(e)`, in that order:
   * the canonical assertion (with a message argument exactly when the code may carry
   * a body), its alias line only when it has aliases, the canonical negation of the
   * canonical name, and the negation's alias line only when it has aliases.
   */
  lemma EntryTextRendersDecls(e: Entry)
    ensures EntryText(e) == RenderDecls(EntryDecls(e), e.code)
  {
    EntryTextByDecls(e);
    RenderEntryDecls(e);
    AliasPartsRendered(e);
  }

  /** In the rendering of an entry's declarations, each alias part is its alias line or nothing. */
  lemma AliasPartsRendered(e: Entry)
    ensures var name, negation := Head(e.names), Head(e.negations);
      DeclText(DefineCreate(name, e.code, Message(e.code)), e.code)
      + RenderDecls(AliasDecls(name, Rest(e.names)), e.code)
      + DeclText(DefineNegate(negation, name), e.code)
      + RenderDecls(AliasDecls(negation, Rest(e.negations)), e.code)
      == DeclText(DefineCreate(name, e.code, Message(e.code)), e.code)
         + (if |Rest(e.names)| > 0 then AliasLine(name, Rest(e.names)) else "")
         + DeclText(DefineNegate(negation, name), e.code)
         + (if |Rest(e.negations)| > 0 then AliasLine(negation, Rest(e.negations)) else "")
  {
    var name, negation := Head(e.names), Head(e.negations);
    RenderAliases(name, Rest(e.names), e.code);
    RenderAliases(negation, Rest(e.negations), e.code);
    ReplaceSecondAndFourth(
      DeclText(DefineCreate(name, e.code, Message(e.code)), e.code),
      RenderDecls(AliasDecls(name, Rest(e.names)), e.code),
      DeclText(DefineNegate(negation, name), e.code),
      RenderDecls(AliasDecls(negation, Rest(e.negations)), e.code),
      if |Rest(e.names)| > 0 then AliasLine(name, Rest(e.names)) else "",
      if |Rest(e.negations)| > 0 then AliasLine(negation, Rest(e.negations)) else "");
  }

  /** The template's text for an entry, in terms of the texts of its declarations. */
  lemma EntryTextByDecls(e: Entry)
    ensures var name, negation := Head(e.names), Head(e.negations);
      EntryText(e)
      == DeclText(DefineCreate(name, e.code, Message(e.code)), e.code)
         + (if |Rest(e.names)| > 0 then AliasLine(name, Rest(e.names)) else "")
         + DeclText(DefineNegate(negation, name), e.code)
         + (if |Rest(e.negations)| > 0 then AliasLine(negation, Rest(e.negations)) else "")
  {
    MessageArgOf(e.code);
  }

  /** The rendering of `EntryDecls(e)`, declaration by declaration. */
  lemma RenderEntryDecls(e: Entry)
    ensures var name, negation := Head(e.names), Head(e.negations);
      RenderDecls(EntryDecls(e), e.code)
      == DeclText(DefineCreate(name, e.code, Message(e.code)), e.code)
         + RenderDecls(AliasDecls(name, Rest(e.names)), e.code)
         + DeclText(DefineNegate(negation, name), e.code)
         + RenderDecls(AliasDecls(negation, Rest(e.negations)), e.code)
  {
    EntryDeclsInOrder(e, d => DeclText(d, e.code));
  }

  /** `EntryDecls(e)` rendered with any renderer `f`, declaration by declaration. */
  lemma EntryDeclsInOrder(e: Entry, f: Decl -> string)
    ensures var name, negation := Head(e.names), Head(e.negations);
      ConcatMap(EntryDecls(e), f)
      == f(DefineCreate(name, e.code, Message(e.code)))
         + ConcatMap(AliasDecls(name, Rest(e.names)), f)
         + f(DefineNegate(negation, name))
         + ConcatMap(AliasDecls(negation, Rest(e.negations)), f)
  {
    var name, negation := Head(e.names), Head(e.negations);
    var d1 := [DefineCreate(name, e.code, Message(e.code))];
    var d2 := AliasDecls(name, Rest(e.names));
    var d3 := [DefineNegate(negation, name)];
    var d4 := AliasDecls(negation, Rest(e.negations));
    assert EntryDecls(e) == d1 + d2 + d3 + d4;
    ConcatMapAppend(d1 + d2 + d3, d4, f);
    ConcatMapAppend(d1 + d2, d3, f);
    ConcatMapAppend(d1, d2, f);
    ConcatMapOne(d1[0], f);
    ConcatMapOne(d3[0], f);
  }

  /**
   * src/main.ts is the preamble followed by, entry by entry in table order and
   * separated by blank lines, the rendered declarations of each entry: the
   * declarations whose loading `Bindings.ModuleLoads` describes.
   */
  lemma MainTextDeclares(t: seq<Entry>)
    ensures MainText(t)
         == Preamble + Join(seq(|t|, i requires 0 <= i < |t| => RenderDecls(EntryDecls(t[i]), t[i].code)), "\n")
  {
    var rendered := seq(|t|, i requires 0 <= i < |t| => RenderDecls(EntryDecls(t[i]), t[i].code));
    forall i | 0 <= i < |t|
      ensures EntryTexts(t)[i] == rendered[i]
    {
      EntryTextRendersDecls(t[i]);
    }
    assert EntryTexts(t) == rendered;
  }

  /** An alias line is emitted exactly when there are aliases, and it lists each of them. */
  lemma AliasLineIffAliases(e: Entry)
    ensures var r := RenderDecls(AliasDecls(Head(e.names), Rest(e.names)), e.code);
      && (r == "" <==> |e.names| <= 1)
      && (|e.names| > 1 ==> r == "export { " + AliasClauses(e.names[0], e.names[1..]) + " };\n")
  {
    RenderAliases(Head(e.names), Rest(e.names), e.code);
  }
}
