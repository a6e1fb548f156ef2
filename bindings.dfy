/**
 * The exports of the generated module src/main.ts (lines 38-1189). The generator
 * emits, for every entry of the status table and in table order, four kinds of
 * declaration: the canonical assertion, an export line for its aliases, the
 * canonical negation, and an export line for the negation's aliases. Here those
 * declarations are values (`Decl`), and loading the module is `Interpret`, which
 * fails as a JavaScript module does when one export name is declared twice.
 */
module Bindings {
  import opened Wrappers
  import opened ResponseAssertion
  import opened StatusTable
  import opened StatusCodes

  /** One declaration of the generated module. */
  datatype Decl =
    /** `export const name = createResponseAssertionFunction(code)`, with `, "message"` when a message is bound. */
    | DefineCreate(name: string, code: int, message: Option<string>)
    /** `export const name = negate(target)`. */
    | DefineNegate(name: string, target: string)
    /** `export { local as a1, local as a2, ... }`. */
    | ExportAliases(local: string, aliases: seq<string>)

  /** What the module exports: every export name with the assertion function it denotes. */
  type Exports = map<string, AssertFn>

  /** The first element of a destructured list; `undefined` when there is none. */
  function Head(xs: seq<string>): string {
    if |xs| > 0 then xs[0] else "undefined"
  }

  /** The rest element of a destructured list. */
  function Rest(xs: seq<string>): seq<string> {
    if |xs| > 0 then xs[1..] else []
  }

  /**
   * The default message bound to an assertion for `code`: none for the codes whose
   * responses must not carry a body, the reason phrase for every other code.
   */
  function Message(code: int): (m: Option<string>)
    ensures m.None? <==> code in MustNotContainBodyCodes
    ensures m.Some? ==> m.value == ReasonPhrase(code)
  {
    if code in MustNotContainBodyCodes then None else Some(ReasonPhrase(code))
  }

  /** The alias export line, present only when there are aliases. */
  function AliasDecls(local: string, aliases: seq<string>): seq<Decl> {
    if |aliases| > 0 then [ExportAliases(local, aliases)] else []
  }

  /** The declarations emitted for one entry, in the order they are emitted. */
  function EntryDecls(e: Entry): seq<Decl> {
    [DefineCreate(Head(e.names), e.code, Message(e.code))]
    + AliasDecls(Head(e.names), Rest(e.names))
    + [DefineNegate(Head(e.negations), Head(e.names))]
    + AliasDecls(Head(e.negations), Rest(e.negations))
  }

  /** The declarations of the whole module: the entries' declarations in table order. */
  function ModuleDecls(t: seq<Entry>): seq<Decl> {
    if |t| == 0 then [] else ModuleDecls(t[..|t| - 1]) + EntryDecls(t[|t| - 1])
  }

  /** Exporting `f` under `name`; a name exported twice makes the module fail to load. */
  function Declare(env: Exports, name: string, f: AssertFn): Option<Exports> {
    if name in env then None else Some(env[name := f])
  }

  function DeclareAll(env: Exports, names: seq<string>, f: AssertFn): Option<Exports>
    decreases |names|
  {
    if |names| == 0 then Some(env)
    else
      match Declare(env, names[0], f)
      case None => None
      case Some(env') => DeclareAll(env', names[1..], f)
  }

  /** Evaluating one declaration; a reference to a name not yet declared fails. */
  function Step(env: Exports, d: Decl): Option<Exports> {
    match d
    case DefineCreate(name, code, message) => Declare(env, name, Create(code, message))
    case DefineNegate(name, target) =>
      if target in env then Declare(env, name, Negate(env[target])) else None
    case ExportAliases(local, aliases) =>
      if local in env then DeclareAll(env, aliases, env[local]) else None
  }

  /** Loading the declarations `ds` in order on top of the exports `env`. */
  function Interpret(ds: seq<Decl>, env: Exports): Option<Exports>
    decreases |ds|
  {
    if |ds| == 0 then Some(env)
    else
      match Step(env, ds[0])
      case None => None
      case Some(env') => Interpret(ds[1..], env')
  }

  /** `env` with every one of `names` bound to `f`. */
  function Bind(env: Exports, names: seq<string>, f: AssertFn): Exports
    decreases |names|
  {
    if |names| == 0 then env else Bind(env[names[0] := f], names[1..], f)
  }

  /** `env` with an entry's names bound to its assertion and its negations to the negation. */
  function BindEntry(env: Exports, e: Entry): Exports {
    var f := Create(e.code, Message(e.code));
    Bind(Bind(env, e.names, f), e.negations, Negate(f))
  }

  /** The exports the table calls for: each entry's, in table order. */
  function TableExports(t: seq<Entry>): Exports {
    if |t| == 0 then map[] else BindEntry(TableExports(t[..|t| - 1]), t[|t| - 1])
  }

  /** The function the identifier at place `p` should denote. */
  function Denotation(t: seq<Entry>, p: Pos): AssertFn
    requires ValidPos(t, p)
  {
    var e := t[p.entry];
    if p.index < |e.names| then Create(e.code, Message(e.code)) else Negate(Create(e.code, Message(e.code)))
  }

  predicate Distinct(xs: seq<string>) {
    forall i, j :: 0 <= i < j < |xs| ==> xs[i] != xs[j]
  }

  /** Loading declarations one after the other is loading their concatenation. */
  lemma {:induction false} InterpretAppend(a: seq<Decl>, b: seq<Decl>, env: Exports)
    ensures Interpret(a + b, env)
         == match Interpret(a, env)
            case None => None
            case Some(env') => Interpret(b, env')
    decreases |a|
  {
    if |a| == 0 {
      assert a + b == b;
    } else {
      assert (a + b)[0] == a[0] && (a + b)[1..] == a[1..] + b;
      match Step(env, a[0])
      case None =>
      case Some(env') => InterpretAppend(a[1..], b, env');
    }
  }

  /** What `Bind` binds: the new names to `f`, every other name as before. */
  lemma {:induction false} BindLookup(env: Exports, names: seq<string>, f: AssertFn)
    ensures forall x :: x in Bind(env, names, f) <==> x in env || x in names
    ensures forall x :: x in names ==> Bind(env, names, f)[x] == f
    ensures forall x :: x in env && x !in names ==> Bind(env, names, f)[x] == env[x]
    decreases |names|
  {
    if |names| > 0 {
      BindLookup(env[names[0] := f], names[1..], f);
      assert forall x :: x in names <==> x == names[0] || x in names[1..];
    }
  }

  /** Fresh, distinct names are all exported, each as `f`. */
  lemma {:induction false} DeclareAllFresh(env: Exports, names: seq<string>, f: AssertFn)
    requires Distinct(names)
    requires forall i :: 0 <= i < |names| ==> names[i] !in env
    ensures DeclareAll(env, names, f) == Some(Bind(env, names, f))
    decreases |names|
  {
    if |names| > 0 {
      var env' := env[names[0] := f];
      forall i | 0 <= i < |names[1..]|
        ensures names[1..][i] !in env'
      {
        assert names[1..][i] == names[i + 1];
      }
      DeclareAllFresh(env', names[1..], f);
    }
  }

  /**
   * A declaration exporting `f` under `names[0]`, followed by the alias line for the
   * rest of `names`, exports all of `names` as `f`.
   */
  lemma BlockLoads(env: Exports, first: Decl, names: seq<string>, f: AssertFn)
    requires |names| > 0 && Distinct(names)
    requires forall i :: 0 <= i < |names| ==> names[i] !in env
    requires Step(env, first) == Some(env[names[0] := f])
    ensures Interpret([first] + AliasDecls(names[0], Rest(names)), env) == Some(Bind(env, names, f))
  {
    var env1 := env[names[0] := f];
    var aliases := Rest(names);
    InterpretAppend([first], AliasDecls(names[0], aliases), env);
    assert Interpret([first], env) == Some(env1) by {
      assert [first][1..] == [];
    }
    if |aliases| > 0 {
      forall i | 0 <= i < |aliases|
        ensures aliases[i] !in env1
      {
        assert aliases[i] == names[i + 1];
      }
      DeclareAllFresh(env1, aliases, f);
      var d := [ExportAliases(names[0], aliases)];
      assert Interpret(d, env1) == DeclareAll(env1, aliases, f) by {
        assert d[1..] == [];
      }
    } else {
      assert AliasDecls(names[0], aliases) == [];
    }
  }

  /**
   * An entry whose identifiers are distinct and not yet exported adds exactly its
   * own exports.
   */
  lemma EntryLoads(e: Entry, env: Exports)
    requires |e.names| > 0 && |e.negations| > 0
    requires Distinct(Ids(e))
    requires forall m :: 0 <= m < |Ids(e)| ==> Ids(e)[m] !in env
    ensures Interpret(EntryDecls(e), env) == Some(BindEntry(env, e))
  {
    var f := Create(e.code, Message(e.code));
    var name, negation := e.names[0], e.negations[0];
    forall i, j | 0 <= i < j < |e.names| ensures e.names[i] != e.names[j] {
      assert e.names[i] == Ids(e)[i] && e.names[j] == Ids(e)[j];
    }
    forall i, j | 0 <= i < j < |e.negations| ensures e.negations[i] != e.negations[j] {
      assert e.negations[i] == Ids(e)[|e.names| + i] && e.negations[j] == Ids(e)[|e.names| + j];
    }
    forall i | 0 <= i < |e.names| ensures e.names[i] !in env {
      assert e.names[i] == Ids(e)[i];
    }
    var env2 := Bind(env, e.names, f);
    BindLookup(env, e.names, f);
    forall i | 0 <= i < |e.negations| ensures e.negations[i] !in env2 {
      assert e.negations[i] == Ids(e)[|e.names| + i];
      forall j | 0 <= j < |e.names| ensures e.names[j] != e.negations[i] {
        assert e.names[j] == Ids(e)[j];
      }
    }
    var d1 := [DefineCreate(name, e.code, Message(e.code))] + AliasDecls(name, Rest(e.names));
    var d2 := [DefineNegate(negation, name)] + AliasDecls(negation, Rest(e.negations));
    BlockLoads(env, d1[0], e.names, f);
    BlockLoads(env2, d2[0], e.negations, Negate(f));
    assert EntryDecls(e) == d1 + d2;
    InterpretAppend(d1, d2, env);
  }

  /** No identifier of `e` occurs in `t`. */
  ghost predicate Apart(t: seq<Entry>, e: Entry) {
    forall p, m :: ValidPos(t, p) && 0 <= m < |Ids(e)| ==> Id(t, p) != Ids(e)[m]
  }

  /** What `BindEntry` binds the identifiers of the entry to. */
  lemma BindEntryValue(env: Exports, e: Entry, m: nat)
    requires Distinct(Ids(e)) && m < |Ids(e)|
    ensures Ids(e)[m] in BindEntry(env, e)
    ensures BindEntry(env, e)[Ids(e)[m]]
         == if m < |e.names| then Create(e.code, Message(e.code)) else Negate(Create(e.code, Message(e.code)))
  {
    var f := Create(e.code, Message(e.code));
    BindLookup(env, e.names, f);
    BindLookup(Bind(env, e.names, f), e.negations, Negate(f));
    if m < |e.names| {
      assert Ids(e)[m] == e.names[m];
      forall i | 0 <= i < |e.negations| ensures e.negations[i] != Ids(e)[m] {
        assert e.negations[i] == Ids(e)[|e.names| + i];
      }
    } else {
      assert Ids(e)[m] == e.negations[m - |e.names|];
    }
  }

  /** `BindEntry` leaves every name that is not an identifier of the entry alone. */
  lemma BindEntryKeeps(env: Exports, e: Entry, x: string)
    requires x in env
    requires forall m :: 0 <= m < |Ids(e)| ==> Ids(e)[m] != x
    ensures x in BindEntry(env, e) && BindEntry(env, e)[x] == env[x]
  {
    var f := Create(e.code, Message(e.code));
    BindLookup(env, e.names, f);
    BindLookup(Bind(env, e.names, f), e.negations, Negate(f));
    assert forall i :: 0 <= i < |e.names| ==> e.names[i] == Ids(e)[i];
    assert forall i :: 0 <= i < |e.negations| ==> e.negations[i] == Ids(e)[|e.names| + i];
  }

  /** What uniqueness in a table says about its last entry and the entries before it. */
  lemma UniqueSplit(t: seq<Entry>)
    requires |t| > 0 && UniqueIdentifiers(t)
    ensures UniqueIdentifiers(t[..|t| - 1])
    ensures Distinct(Ids(t[|t| - 1]))
    ensures Apart(t[..|t| - 1], t[|t| - 1])
  {
    var n := |t| - 1;
    var t' := t[..n];
    forall p, q | ValidPos(t', p) && ValidPos(t', q) && Id(t', p) == Id(t', q)
      ensures p == q
    {
      assert t'[p.entry] == t[p.entry] && t'[q.entry] == t[q.entry];
      assert ValidPos(t, p) && ValidPos(t, q) && Id(t, p) == Id(t, q);
    }
    forall i, j | 0 <= i < j < |Ids(t[n])|
      ensures Ids(t[n])[i] != Ids(t[n])[j]
    {
      assert Id(t, Pos(n, i)) == Ids(t[n])[i] && Id(t, Pos(n, j)) == Ids(t[n])[j];
    }
    forall p, m | ValidPos(t', p) && 0 <= m < |Ids(t[n])|
      ensures Id(t', p) != Ids(t[n])[m]
    {
      assert t'[p.entry] == t[p.entry];
      assert Id(t', p) == Id(t, p) && Ids(t[n])[m] == Id(t, Pos(n, m));
    }
  }

  /** The table's exports are named by exactly the table's identifiers. */
  lemma {:induction false} ExportsKeys(t: seq<Entry>)
    ensures forall p :: ValidPos(t, p) ==> Id(t, p) in TableExports(t)
    ensures forall x :: x in TableExports(t) ==> exists p :: ValidPos(t, p) && Id(t, p) == x
  {
    if |t| > 0 {
      var n := |t| - 1;
      var t', e := t[..n], t[n];
      var f := Create(e.code, Message(e.code));
      ExportsKeys(t');
      var env1 := Bind(TableExports(t'), e.names, f);
      BindLookup(TableExports(t'), e.names, f);
      BindLookup(env1, e.negations, Negate(f));
      forall p | ValidPos(t, p)
        ensures Id(t, p) in TableExports(t)
      {
        if p.entry < n {
          assert t'[p.entry] == t[p.entry] && ValidPos(t', p) && Id(t', p) == Id(t, p);
        } else if p.index < |e.names| {
          assert Id(t, p) == e.names[p.index];
        } else {
          assert Id(t, p) == e.negations[p.index - |e.names|];
        }
      }
      forall x | x in TableExports(t)
        ensures exists p :: ValidPos(t, p) && Id(t, p) == x
      {
        if x in e.names {
          var i :| 0 <= i < |e.names| && e.names[i] == x;
          assert ValidPos(t, Pos(n, i)) && Id(t, Pos(n, i)) == x;
        } else if x in e.negations {
          var i :| 0 <= i < |e.negations| && e.negations[i] == x;
          assert ValidPos(t, Pos(n, |e.names| + i)) && Id(t, Pos(n, |e.names| + i)) == x;
        } else {
          var p :| ValidPos(t', p) && Id(t', p) == x;
          assert t'[p.entry] == t[p.entry] && ValidPos(t, p) && Id(t, p) == x;
        }
      }
    }
  }

  /**
   * In a table without a repeated identifier, each identifier is exported as the
   * assertion of its entry when it is one of the entry's names, and as that
   * assertion's negation when it is one of its negations.
   */
  lemma {:induction false} ExportsDenote(t: seq<Entry>)
    requires UniqueIdentifiers(t)
    ensures forall p :: ValidPos(t, p) ==>
              Id(t, p) in TableExports(t) && TableExports(t)[Id(t, p)] == Denotation(t, p)
  {
    ExportsKeys(t);
    if |t| > 0 {
      var n := |t| - 1;
      var t', e := t[..n], t[n];
      UniqueSplit(t);
      ExportsDenote(t');
      ExportsKeys(t');
      forall p | ValidPos(t, p)
        ensures TableExports(t)[Id(t, p)] == Denotation(t, p)
      {
        if p.entry < n {
          assert t'[p.entry] == t[p.entry] && ValidPos(t', p) && Id(t', p) == Id(t, p);
          assert Denotation(t', p) == Denotation(t, p);
          BindEntryKeeps(TableExports(t'), e, Id(t, p));
        } else {
          BindEntryValue(TableExports(t'), e, p.index);
        }
      }
    }
  }

  /**
   * The generated module loads, and exports exactly what the table calls for, when
   * every entry has a canonical name and a canonical negation and no identifier
   * occurs twice in the table.
   */
  lemma {:induction false} ModuleLoads(t: seq<Entry>)
    requires NamesNonEmpty(t) && UniqueIdentifiers(t)
    ensures Interpret(ModuleDecls(t), map[]) == Some(TableExports(t))
  {
    if |t| > 0 {
      var n := |t| - 1;
      var t', e := t[..n], t[n];
      UniqueSplit(t);
      assert NamesNonEmpty(t') by {
        forall k | 0 <= k < |t'| ensures |t'[k].names| > 0 && |t'[k].negations| > 0 {
          assert t'[k] == t[k];
        }
      }
      ModuleLoads(t');
      ExportsKeys(t');
      forall m | 0 <= m < |Ids(e)|
        ensures Ids(e)[m] !in TableExports(t')
      {
        assert forall p :: ValidPos(t', p) ==> Id(t', p) != Ids(e)[m];
      }
      EntryLoads(e, TableExports(t'));
      InterpretAppend(ModuleDecls(t'), EntryDecls(e), map[]);
    }
  }

  /** Exporting a list of names succeeds only when they are distinct and fresh. */
  lemma {:induction false} DeclareAllSome(env: Exports, names: seq<string>, f: AssertFn)
    requires DeclareAll(env, names, f).Some?
    ensures Distinct(names)
    ensures forall i :: 0 <= i < |names| ==> names[i] !in env
    decreases |names|
  {
    if |names| > 0 {
      var env' := env[names[0] := f];
      DeclareAllSome(env', names[1..], f);
      forall i | 0 < i < |names| ensures names[i] != names[0] && names[i] !in env {
        assert names[i] == names[1..][i - 1];
      }
      forall i, j | 0 < i < j < |names| ensures names[i] != names[j] {
        assert names[i] == names[1..][i - 1] && names[j] == names[1..][j - 1];
      }
    }
  }

  /** The counterpart of `BlockLoads`: the block loads only when `names` are distinct and fresh. */
  lemma BlockSome(env: Exports, first: Decl, names: seq<string>, f: AssertFn)
    requires |names| > 0
    requires Step(env, first) == Declare(env, names[0], f)
    requires Interpret([first] + AliasDecls(names[0], Rest(names)), env).Some?
    ensures Distinct(names)
    ensures forall i :: 0 <= i < |names| ==> names[i] !in env
  {
    var aliases := Rest(names);
    InterpretAppend([first], AliasDecls(names[0], aliases), env);
    assert [first][1..] == [];
    var env1 := env[names[0] := f];
    assert names[0] !in env;
    if |aliases| > 0 {
      var d := [ExportAliases(names[0], aliases)];
      assert d[1..] == [];
      assert Interpret(d, env1).Some?;
      DeclareAllSome(env1, aliases, f);
      forall i | 0 < i < |names| ensures names[i] != names[0] && names[i] !in env {
        assert names[i] == aliases[i - 1];
      }
      forall i, j | 0 < i < j < |names| ensures names[i] != names[j] {
        assert names[i] == aliases[i - 1] && names[j] == aliases[j - 1];
      }
    }
  }

  /** The counterpart of `EntryLoads`: an entry loads only when its identifiers are distinct and fresh. */
  lemma EntrySome(e: Entry, env: Exports)
    requires |e.names| > 0 && |e.negations| > 0
    requires Interpret(EntryDecls(e), env).Some?
    ensures Distinct(Ids(e))
    ensures forall m :: 0 <= m < |Ids(e)| ==> Ids(e)[m] !in env
  {
    var f := Create(e.code, Message(e.code));
    var name, negation := e.names[0], e.negations[0];
    var d1 := [DefineCreate(name, e.code, Message(e.code))] + AliasDecls(name, Rest(e.names));
    var d2 := [DefineNegate(negation, name)] + AliasDecls(negation, Rest(e.negations));
    assert EntryDecls(e) == d1 + d2;
    InterpretAppend(d1, d2, env);
    BlockSome(env, d1[0], e.names, f);
    BlockLoads(env, d1[0], e.names, f);
    var env2 := Bind(env, e.names, f);
    BindLookup(env, e.names, f);
    BlockSome(env2, d2[0], e.negations, Negate(f));
    forall m | 0 <= m < |Ids(e)|
      ensures Ids(e)[m] !in env
    {
      if m >= |e.names| {
        assert Ids(e)[m] == e.negations[m - |e.names|];
      }
    }
    forall i | 0 <= i < |e.names| ensures e.names[i] in env2 { }
    DistinctJoin(e.names, e.negations, env2);
  }

  /** Two distinct lists make a distinct list when the second avoids a map holding the first. */
  lemma DistinctJoin(a: seq<string>, b: seq<string>, env: Exports)
    requires Distinct(a) && Distinct(b)
    requires forall i :: 0 <= i < |a| ==> a[i] in env
    requires forall i :: 0 <= i < |b| ==> b[i] !in env
    ensures Distinct(a + b)
  {
    forall i, j | 0 <= i < j < |a + b|
      ensures (a + b)[i] != (a + b)[j]
    {
      if j < |a| {
        assert (a + b)[i] == a[i] && (a + b)[j] == a[j];
      } else if i < |a| {
        assert (a + b)[i] == a[i] && (a + b)[j] == b[j - |a|];
      } else {
        assert (a + b)[i] == b[i - |a|] && (a + b)[j] == b[j - |a|];
      }
    }
  }

  /** A table without repetition, extended by an entry apart from it and without repetition of its own. */
  lemma UniqueJoin(t: seq<Entry>)
    requires |t| > 0
    requires UniqueIdentifiers(t[..|t| - 1]) && Distinct(Ids(t[|t| - 1])) && Apart(t[..|t| - 1], t[|t| - 1])
    ensures UniqueIdentifiers(t)
  {
    var n := |t| - 1;
    var t', e := t[..n], t[n];
    forall p, q | ValidPos(t, p) && ValidPos(t, q) && Id(t, p) == Id(t, q)
      ensures p == q
    {
      if p.entry < n {
        assert t'[p.entry] == t[p.entry] && ValidPos(t', p) && Id(t', p) == Id(t, p);
      }
      if q.entry < n {
        assert t'[q.entry] == t[q.entry] && ValidPos(t', q) && Id(t', q) == Id(t, q);
      }
    }
  }

  /**
   * The converse of `ModuleLoads`: if the generated module loads, no identifier
   * occurs twice in the table. A repeated identifier is a module that fails to load.
   */
  lemma {:induction false} LoadsOnlyIfUnique(t: seq<Entry>)
    requires NamesNonEmpty(t)
    requires Interpret(ModuleDecls(t), map[]).Some?
    ensures UniqueIdentifiers(t)
  {
    if |t| > 0 {
      var n := |t| - 1;
      var t', e := t[..n], t[n];
      assert NamesNonEmpty(t') by {
        forall k | 0 <= k < |t'| ensures |t'[k].names| > 0 && |t'[k].negations| > 0 {
          assert t'[k] == t[k];
        }
      }
      InterpretAppend(ModuleDecls(t'), EntryDecls(e), map[]);
      LoadsOnlyIfUnique(t');
      ModuleLoads(t');
      EntrySome(e, TableExports(t'));
      ExportsKeys(t');
      UniqueJoin(t);
    }
  }
}
