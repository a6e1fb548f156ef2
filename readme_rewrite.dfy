/**
 * The last step of scripts/prebuild.ts (lines 98-128): README.md is read, the
 * region between the start marker `<!-- <Assertion Functions> -->` and the end
 * marker `<!-- </Assertion Functions> -->` is replaced by freshly generated
 * tables, and the file is written back.
 *
 * The replacement is `String.prototype.replace` with the non-global regular
 * expression `/<!-- <Assertion Functions> -->([\S\s]*?)<!-- <\/Assertion Functions> -->/m`
 * and a replacement string, so it replaces the first region only, and `$` patterns
 * in the replacement string are expanded by the GetSubstitution operation of
 * ECMA-262 (section 22.1.3.19.1 of the 2024 edition). The markers are parameters
 * of the replacement; reading and writing the file are left out.
 */
module ReadmeRewrite {
  import opened Wrappers
  import opened Text
  import opened StatusTable
  import opened ReadmeGroups
  import opened PlainIdentifiers

  /** What a replacement string can refer to: the text before the match, the match, the text after it, and its one capture. */
  datatype MatchParts = MatchParts(before: string, matched: string, after: string, capture: string)

  predicate NoDollar(t: string) {
    forall i :: 0 <= i < |t| ==> t[i] != '$'
  }

  /**
   * The reference at the start of a non-empty replacement string, as GetSubstitution
   * reads it for a regular expression with one capture group and no named groups:
   * its expansion and its length. `$$` is `$`, `` $` `` the text before the match,
   * `$&` the match, `$'` the text after it, `$1` and `$01` the capture; a two-digit
   * reference beyond the one capture falls back to its first digit, and every other
   * `$` and every other character stands for itself.
   */
  function Reference(t: string, m: MatchParts): (r: (string, nat))
    requires |t| > 0
    ensures 1 <= r.1 <= |t|
  {
    if t[0] != '$' || |t| == 1 then ([t[0]], 1)
    else if t[1] == '$' then ("$", 2)
    else if t[1] == '`' then (m.before, 2)
    else if t[1] == '&' then (m.matched, 2)
    else if t[1] == '\'' then (m.after, 2)
    else if IsDigit(t[1]) then
      if |t| > 2 && IsDigit(t[2]) && DigitValue(t[1]) * 10 + DigitValue(t[2]) <= 1 then
        (if t[2] == '1' then m.capture else t[..3], 3)
      else
        (if t[1] == '1' then m.capture else t[..2], 2)
    else ([t[0]], 1)
  }

  /** GetSubstitution: every reference of the replacement string expanded, from left to right. */
  function Substitute(t: string, m: MatchParts): string
    decreases |t|
  {
    if |t| == 0 then ""
    else
      var r := Reference(t, m);
      r.0 + Substitute(t[r.1..], m)
  }

  /** A replacement string without `$` is inserted as it is. */
  lemma {:induction false} SubstituteLiteral(t: string, m: MatchParts)
    requires NoDollar(t)
    ensures Substitute(t, m) == t
    decreases |t|
  {
    if |t| > 0 {
      SubstituteLiteral(t[1..], m);
      assert [t[0]] + t[1..] == t;
    }
  }

  /** `$$`, `` $` ``, `$&` and `$'` expand to a dollar sign, the text before the match, the match and the text after it. */
  lemma SubstituteSpecials(m: MatchParts)
    ensures Substitute("$$", m) == "$"
    ensures Substitute("$`", m) == m.before
    ensures Substitute("$&", m) == m.matched
    ensures Substitute("$'", m) == m.after
  {
    assert "$$"[2..] == "$`"[2..] == "$&"[2..] == "$'"[2..] == [];
  }

  /** `$1` and `$01` expand to the capture; `$10` is `$1` followed by `0`, as there is no tenth group. */
  lemma SubstituteCaptures(m: MatchParts)
    ensures Substitute("$1", m) == Substitute("$01", m) == m.capture
    ensures Substitute("$10", m) == m.capture + "0"
  {
    assert "$1"[2..] == "$01"[3..] == [];
    assert "$10"[2..] == "0" && "0"[1..] == [];
  }

  /** References to groups the expression does not have, and `$` before other characters, stay as written. */
  lemma SubstituteUnknown(m: MatchParts)
    ensures Substitute("$00", m) == "$00" && Substitute("$2", m) == "$2" && Substitute("$<", m) == "$<"
  {
    assert "$00"[3..] == "$2"[2..] == [] && "$00"[..3] == "$00";
    assert "$<"[1..] == "<" && "<"[1..] == [];
  }

  /**
   * `s.replace(/open([\S\s]*?)close/, replacer)`: the first `open` that has a
   * `close` after it, up to the first such `close`, is replaced by what the replacer
   * makes of the match; without such a region `s` is returned unchanged.
   */
  function ReplaceRegionBy(s: string, open: string, close: string, replacer: MatchParts -> string): string {
    match Locate(s, open, close)
    case None => s
    case Some((i, j)) => ReplaceAt(s, i, j, open, close, replacer)
  }

  /**
   * Where the regular expression matches: the first `open`, and the first `close`
   * at or after its end, if there are both. `LocateNone` and `LocateRegion` state
   * what the result means.
   */
  function Locate(s: string, open: string, close: string): (r: Option<(nat, nat)>)
    ensures r.Some? ==> r.value.0 + |open| <= r.value.1 && r.value.1 + |close| <= |s|
  {
    var i := IndexOf(s, open, 0);
    if i == -1 then None
    else
      var j := IndexOf(s, close, i + |open|);
      if j == -1 then None else Some((i, j))
  }

  /** The text with the match of `open` at `i` through `close` at `j` replaced by the replacer's result. */
  function ReplaceAt(s: string, i: nat, j: nat, open: string, close: string, replacer: MatchParts -> string): string
    requires i + |open| <= j && j + |close| <= |s|
  {
    var k := j + |close|;
    s[..i] + replacer(MatchParts(s[..i], s[i..k], s[k..], s[i + |open|..j])) + s[k..]
  }

  /** A replacement string as a replacer: the match is replaced by the expanded string. */
  function Expansion(template: string): MatchParts -> string {
    m => Substitute(template, m)
  }

  /** `s.replace(/open([\S\s]*?)close/, template)` with a replacement string. */
  function ReplaceRegion(s: string, open: string, close: string, template: string): string {
    ReplaceRegionBy(s, open, close, Expansion(template))
  }

  /** `s` has an `open` followed, at or after its end, by a `close`. */
  predicate HasRegion(s: string, open: string, close: string) {
    exists i, j :: 0 <= i && i + |open| <= j <= |s| && OccursAt(s, open, i) && OccursAt(s, close, j)
  }

  /** `open` occurs in `pre + open` only at its end. */
  predicate FirstOpen(pre: string, open: string) {
    forall k :: 0 <= k < |pre| ==> !OccursAt(pre + open, open, k)
  }

  /** `close` occurs in `mid + close` only at its end. */
  predicate FirstClose(mid: string, close: string) {
    forall k :: 0 <= k < |mid| ==> !OccursAt(mid + close, close, k)
  }

  /** Without a region the text is left as it is. */
  lemma ReplaceWithoutRegion(s: string, open: string, close: string, replacer: MatchParts -> string)
    requires !HasRegion(s, open, close)
    ensures ReplaceRegionBy(s, open, close, replacer) == s
  {
    LocateNone(s, open, close);
  }

  /** The regular expression matches nowhere exactly when the text has no region. */
  lemma LocateNone(s: string, open: string, close: string)
    ensures Locate(s, open, close) == None <==> !HasRegion(s, open, close)
  {
    var i := IndexOf(s, open, 0);
    IndexOfFirst(s, open, 0);
    if i != -1 {
      IndexOfFirst(s, close, i + |open|);
      if HasRegion(s, open, close) {
        var i0, j0 :| 0 <= i0 && i0 + |open| <= j0 <= |s| && OccursAt(s, open, i0) && OccursAt(s, close, j0);
        assert OccursFrom(s, close, i + |open|);
      }
    }
  }

  /** The first `open` in `pre + open + rest` is the one after `pre`. */
  lemma OpenPlace(pre: string, open: string, rest: string)
    requires FirstOpen(pre, open)
    ensures IndexOf(pre + open + rest, open, 0) == |pre|
  {
    var s := pre + open + rest;
    assert OccursAt(s, open, |pre|) && forall k :: 0 <= k < |pre| ==> !OccursAt(s, open, k) by {
      OccursBetween(pre, open, rest);
      forall k | 0 <= k < |pre| ensures !OccursAt(s, open, k) {
        OccursInPrefix(pre + open, rest, open, k);
      }
    }
    IndexOfIs(s, open, 0, |pre|);
  }

  /** The first `close` at or after `|a|` in `a + (mid + close + post)` is the one after `mid`. */
  lemma ClosePlace(a: string, mid: string, close: string, post: string)
    requires FirstClose(mid, close)
    ensures IndexOf(a + (mid + close + post), close, |a|) == |a| + |mid|
  {
    var s := a + (mid + close + post);
    assert OccursAt(s, close, |a| + |mid|) && forall k :: |a| <= k < |a| + |mid| ==> !OccursAt(s, close, k) by {
      CloseAfterMid(a, mid, close, post);
      NoCloseInMid(a, mid, close, post);
    }
    IndexOfIs(s, close, |a|, |a| + |mid|);
  }

  lemma CloseAfterMid(a: string, mid: string, close: string, post: string)
    ensures OccursAt(a + (mid + close + post), close, |a| + |mid|)
  {
    OccursBetween(mid, close, post);
    OccursShifted(a, mid + close + post, close, |mid|);
  }

  lemma NoCloseInMid(a: string, mid: string, close: string, post: string)
    requires FirstClose(mid, close)
    ensures forall k :: |a| <= k < |a| + |mid| ==> !OccursAt(a + (mid + close + post), close, k)
  {
    forall k | |a| <= k < |a| + |mid| ensures !OccursAt(a + (mid + close + post), close, k) {
      OccursInPrefix(mid + close, post, close, k - |a|);
      OccursShifted(a, mid + close + post, close, k - |a|);
    }
  }

  /** The first `open` of `pre + open + mid + close + post` is the one after `pre`. */
  lemma OpenInRegion(pre: string, open: string, mid: string, close: string, post: string)
    requires FirstOpen(pre, open)
    ensures IndexOf(pre + open + mid + close + post, open, 0) == |pre|
  {
    RegroupTail(pre, open, mid, close, post);
    OpenPlace(pre, open, mid + close + post);
  }

  /** The first `close` after that `open` is the one after `mid`. */
  lemma CloseInRegion(pre: string, open: string, mid: string, close: string, post: string)
    requires FirstClose(mid, close)
    ensures IndexOf(pre + open + mid + close + post, close, |pre| + |open|) == |pre| + |open| + |mid|
  {
    RegroupTail(pre, open, mid, close, post);
    ClosePlace(pre + open, mid, close, post);
  }

  /** The places where `open` and `close` are found in `pre + open + mid + close + post`. */
  lemma RegionPlaces(pre: string, open: string, mid: string, close: string, post: string)
    requires FirstOpen(pre, open) && FirstClose(mid, close)
    ensures var s := pre + open + mid + close + post;
      && IndexOf(s, open, 0) == |pre|
      && IndexOf(s, close, |pre| + |open|) == |pre| + |open| + |mid|
  {
    OpenInRegion(pre, open, mid, close, post);
    CloseInRegion(pre, open, mid, close, post);
  }

  /**
   * When the first `open` of a text ends `pre` and the first `close` after it ends
   * `mid`, the region from that `open` to that `close` is replaced by the expanded
   * template, and the text before and after it is kept.
   */
  lemma ReplaceFirstRegion(pre: string, open: string, mid: string, close: string, post: string,
                           replacer: MatchParts -> string)
    requires FirstOpen(pre, open) && FirstClose(mid, close)
    ensures ReplaceRegionBy(pre + open + mid + close + post, open, close, replacer)
         == pre + replacer(MatchParts(pre, open + mid + close, post, mid)) + post
  {
    RegionPlaces(pre, open, mid, close, post);
    ReplaceAtPlaces(pre, open, mid, close, post, replacer);
  }

  lemma ReplaceAtPlaces(pre: string, open: string, mid: string, close: string, post: string,
                        replacer: MatchParts -> string)
    requires var s := pre + open + mid + close + post;
      && IndexOf(s, open, 0) == |pre|
      && IndexOf(s, close, |pre| + |open|) == |pre| + |open| + |mid|
    ensures ReplaceRegionBy(pre + open + mid + close + post, open, close, replacer)
         == pre + replacer(MatchParts(pre, open + mid + close, post, mid)) + post
  {
    Located(pre + open + mid + close + post, open, close, |pre|, |pre| + |open| + |mid|);
    ReplaceFound(pre + open + mid + close + post, open, close, replacer, |pre|, |pre| + |open| + |mid|);
    ReplaceAtRegion(pre, open, mid, close, post, replacer);
  }

  /** Where the first region is known, the replacement is made there. */
  lemma ReplaceFound(s: string, open: string, close: string, replacer: MatchParts -> string, i: nat, j: nat)
    requires Locate(s, open, close) == Some((i, j))
    ensures i + |open| <= j && j + |close| <= |s|
    ensures ReplaceRegionBy(s, open, close, replacer) == ReplaceAt(s, i, j, open, close, replacer)
  {
  }

  /** The match starts at the first `open` and ends with the first `close` after it. */
  lemma Located(s: string, open: string, close: string, i: nat, j: nat)
    requires IndexOf(s, open, 0) == i && IndexOf(s, close, i + |open|) == j
    ensures Locate(s, open, close) == Some((i, j))
  {
  }

  lemma ReplaceAtRegion(pre: string, open: string, mid: string, close: string, post: string,
                        replacer: MatchParts -> string)
    ensures ReplaceAt(pre + open + mid + close + post, |pre|, |pre| + |open| + |mid|, open, close, replacer)
         == pre + replacer(MatchParts(pre, open + mid + close, post, mid)) + post
  {
    SliceParts(pre, open, mid, close, post);
  }

  /** A template without `$` replaces the region word for word. */
  lemma ReplaceFirstRegionLiterally(pre: string, open: string, mid: string, close: string, post: string, template: string)
    requires FirstOpen(pre, open) && FirstClose(mid, close) && NoDollar(template)
    ensures ReplaceRegion(pre + open + mid + close + post, open, close, template) == pre + template + post
  {
    ReplaceFirstRegion(pre, open, mid, close, post, Expansion(template));
    SubstituteLiteral(template, MatchParts(pre, open + mid + close, post, mid));
  }

  /** Where the regular expression matches, `open` and `close` occur, each for the first time. */
  lemma LocateRegion(s: string, open: string, close: string, i: nat, j: nat)
    requires Locate(s, open, close) == Some((i, j))
    ensures OccursAt(s, open, i) && forall k :: 0 <= k < i ==> !OccursAt(s, open, k)
    ensures OccursAt(s, close, j) && forall k :: i + |open| <= k < j ==> !OccursAt(s, close, k)
  {
    IndexOfFirst(s, open, 0);
    IndexOfFirst(s, close, i + |open|);
  }

  /** A text with a region is split by it: before the first `open`, between it and the first `close` after it, and after that. */
  lemma SplitAtRegion(s: string, open: string, close: string) returns (pre: string, mid: string, post: string)
    requires HasRegion(s, open, close)
    ensures s == pre + open + mid + close + post && FirstOpen(pre, open) && FirstClose(mid, close)
  {
    LocateNone(s, open, close);
    var i, j := Locate(s, open, close).value.0, Locate(s, open, close).value.1;
    LocateRegion(s, open, close, i, j);
    pre, mid, post := s[..i], s[i + |open|..j], s[j + |close|..];
    CutAtRegion(s, open, close, i, j);
    RegroupTail(pre, open, mid, close, post);
    FirstOpenOfSplit(s, pre, open, mid + close + post);
    FirstCloseOfSplit(s, pre + open, mid, close, post);
  }

  /** The text around an `open` at `i` and a `close` at `j`, cut into five parts. */
  lemma CutAtRegion(s: string, open: string, close: string, i: int, j: int)
    requires 0 <= i && i + |open| <= j && OccursAt(s, open, i) && OccursAt(s, close, j)
    ensures s == s[..i] + open + s[i + |open|..j] + close + s[j + |close|..]
  {
    CutFour(s, i, i + |open|, j, j + |close|);
  }

  /** No `open` before `|pre|` in `s == pre + open + rest` means none before it in `pre + open`. */
  lemma FirstOpenOfSplit(s: string, pre: string, open: string, rest: string)
    requires s == pre + open + rest
    requires forall k :: 0 <= k < |pre| ==> !OccursAt(s, open, k)
    ensures FirstOpen(pre, open)
  {
    forall k | 0 <= k < |pre| ensures !OccursAt(pre + open, open, k) {
      OccursInPrefix(pre + open, rest, open, k);
    }
  }

  /** No `close` from `|a|` to `|a| + |mid|` in `s == a + (mid + close + post)` means none before `|mid|` in `mid + close`. */
  lemma FirstCloseOfSplit(s: string, a: string, mid: string, close: string, post: string)
    requires s == a + (mid + close + post)
    requires forall k :: |a| <= k < |a| + |mid| ==> !OccursAt(s, close, k)
    ensures FirstClose(mid, close)
  {
    forall k | 0 <= k < |mid| ensures !OccursAt(mid + close, close, k) {
      OccursInPrefix(mid + close, post, close, k);
      OccursShifted(a, mid + close + post, close, k);
    }
  }

  /** Replacing the region by the match itself, `$&`, changes nothing. */
  lemma ReplaceByMatchKeepsText(s: string, open: string, close: string)
    ensures ReplaceRegion(s, open, close, "$&") == s
  {
    if HasRegion(s, open, close) {
      var pre, mid, post := SplitAtRegion(s, open, close);
      ReplaceFirstRegion(pre, open, mid, close, post, Expansion("$&"));
      SubstituteSpecials(MatchParts(pre, open + mid + close, post, mid));
      RegroupMiddle(pre, open, mid, close, post);
    } else {
      ReplaceWithoutRegion(s, open, close, Expansion("$&"));
    }
  }

  /**
   * Replacing the region by `open + body + close` a second time changes nothing,
   * when the template has no `$` and `close` first occurs after `body` at its end.
   */
  lemma ReplaceRegionIdempotent(s: string, open: string, close: string, body: string)
    requires NoDollar(open + body + close) && FirstClose(body, close)
    ensures var r := ReplaceRegion(s, open, close, open + body + close);
      ReplaceRegion(r, open, close, open + body + close) == r
  {
    var template := open + body + close;
    if HasRegion(s, open, close) {
      var pre, mid, post := SplitAtRegion(s, open, close);
      ReplaceFirstRegionLiterally(pre, open, mid, close, post, template);
      RegroupMiddle(pre, open, body, close, post);
      ReplaceFirstRegionLiterally(pre, open, body, close, post, template);
    } else {
      ReplaceWithoutRegion(s, open, close, Expansion(template));
    }
  }

  /**
   * A body that ends in a line break and holds no `close` meets `FirstClose`, for a
   * `close` without line breaks.
   */
  lemma FirstCloseAfterLineBreak(body: string, close: string)
    requires |body| > 0 && body[|body| - 1] == '\n'
    requires forall i :: 0 <= i < |close| ==> close[i] != '\n'
    requires forall k :: 0 <= k ==> !OccursAt(body, close, k)
    ensures FirstClose(body, close)
  {
    forall k | 0 <= k < |body| ensures !OccursAt(body + close, close, k) {
      if k + |close| <= |body| {
        OccursInPrefix(body, close, close, k);
      } else {
        var d := |body| - 1 - k;
        assert (body + close)[k..k + |close|][d] == '\n' != close[d];
      }
    }
  }

  const StartMarker := "<!-- <Assertion Functions> -->"
  const EndMarker := "<!-- </Assertion Functions> -->"

  lemma MarkersPlain()
    ensures NoDollar(StartMarker) && NoDollar(EndMarker)
    ensures forall i :: 0 <= i < |EndMarker| ==> EndMarker[i] != '\n'
  {
  }

  /** The generated region between the markers: the groups' sections, set off by blank lines. */
  function RegionBody(t: seq<Entry>, markdownTable: seq<seq<string>> -> string): string {
    "\n\n" + Join(Sections(t, markdownTable), "\n\n") + "\n\n"
  }

  /** The README after the prebuild script has run on it. */
  function UpdateReadme(readme: string, t: seq<Entry>, markdownTable: seq<seq<string>> -> string): string {
    ReplaceRegion(readme, StartMarker, EndMarker, StartMarker + RegionBody(t, markdownTable) + EndMarker)
  }

  /** The generated region of a table with plain identifiers, rendered by a `markdownTable` that keeps text plain, is plain. */
  lemma RegionBodyPlain(t: seq<Entry>, markdownTable: seq<seq<string>> -> string)
    requires IdentifiersPlain(t) && KeepsPlain(markdownTable)
    ensures Plain(RegionBody(t, markdownTable))
  {
    var sections := Sections(t, markdownTable);
    SectionsPlain(t, markdownTable);
    assert Plain("\n\n");
    JoinPlain(sections, "\n\n");
    var joined := Join(sections, "\n\n");
    PlainConcat("\n\n", joined);
    PlainConcat("\n\n" + joined, "\n\n");
  }

  /** Plain generated text holds no `$` for the replacement to expand and no end marker. */
  lemma PlainBodySafe(body: string)
    requires Plain(body)
    ensures NoDollar(body)
    ensures forall k :: !OccursAt(body, EndMarker, k)
  {
    assert EndMarker[1] == '!';
    PlainAvoids(body, EndMarker, 1);
  }

  /**
   * A README whose markers enclose a region gets the generated tables between them
   * and keeps the text before the start marker and after the end marker.
   */
  lemma UpdateReadmeReplacesRegion(pre: string, mid: string, post: string, t: seq<Entry>,
                                   markdownTable: seq<seq<string>> -> string)
    requires FirstOpen(pre, StartMarker) && FirstClose(mid, EndMarker)
    requires IdentifiersPlain(t) && KeepsPlain(markdownTable)
    ensures UpdateReadme(pre + StartMarker + mid + EndMarker + post, t, markdownTable)
         == pre + StartMarker + RegionBody(t, markdownTable) + EndMarker + post
  {
    MarkersPlain();
    RegionBodyPlain(t, markdownTable);
    PlainBodySafe(RegionBody(t, markdownTable));
    ReplaceByMarkedBody(pre, StartMarker, mid, EndMarker, post, RegionBody(t, markdownTable));
  }

  /** The README update for the status table of `codes.ts`. */
  lemma CodesReadmeReplacesRegion(pre: string, mid: string, post: string, markdownTable: seq<seq<string>> -> string)
    requires FirstOpen(pre, StartMarker) && FirstClose(mid, EndMarker)
    requires KeepsPlain(markdownTable)
    ensures UpdateReadme(pre + StartMarker + mid + EndMarker + post, Codes, markdownTable)
         == pre + StartMarker + RegionBody(Codes, markdownTable) + EndMarker + post
  {
    CodesIdentifiersPlain();
    UpdateReadmeReplacesRegion(pre, mid, post, Codes, markdownTable);
  }

  /** A region replaced by a literal `open + body + close` keeps its markers and takes the new body. */
  lemma ReplaceByMarkedBody(pre: string, open: string, mid: string, close: string, post: string, body: string)
    requires FirstOpen(pre, open) && FirstClose(mid, close)
    requires NoDollar(open) && NoDollar(body) && NoDollar(close)
    ensures ReplaceRegion(pre + open + mid + close + post, open, close, open + body + close)
         == pre + open + body + close + post
  {
    NoDollarConcat(open, body, close);
    ReplaceFirstRegionLiterally(pre, open, mid, close, post, open + body + close);
    RegroupMiddle(pre, open, body, close, post);
  }

  lemma NoDollarConcat(a: string, b: string, c: string)
    requires NoDollar(a) && NoDollar(b) && NoDollar(c)
    ensures NoDollar(a + b + c)
  {
    forall i | 0 <= i < |a + b + c| ensures (a + b + c)[i] != '$' {
      if i < |a| {
      } else if i < |a| + |b| {
        assert (a + b + c)[i] == b[i - |a|];
      } else {
        assert (a + b + c)[i] == c[i - |a| - |b|];
      }
    }
  }

  /**
   * Running the prebuild script twice leaves the README as the first run left it,
   * for a table with plain identifiers and a `markdownTable` that keeps text plain.
   */
  lemma UpdateReadmeIdempotent(readme: string, t: seq<Entry>, markdownTable: seq<seq<string>> -> string)
    requires IdentifiersPlain(t) && KeepsPlain(markdownTable)
    ensures var r := UpdateReadme(readme, t, markdownTable);
      UpdateReadme(r, t, markdownTable) == r
  {
    var body := RegionBody(t, markdownTable);
    RegionBodyPlain(t, markdownTable);
    PlainBodySafe(body);
    MarkersPlain();
    assert body[|body| - 1] == '\n';
    FirstCloseAfterLineBreak(body, EndMarker);
    NoDollarConcat(StartMarker, body, EndMarker);
    ReplaceRegionIdempotent(readme, StartMarker, EndMarker, body);
  }

  /** Running the prebuild script twice on any README, with the status table of `codes.ts`, changes nothing the second time. */
  lemma CodesReadmeIdempotent(readme: string, markdownTable: seq<seq<string>> -> string)
    requires KeepsPlain(markdownTable)
    ensures var r := UpdateReadme(readme, Codes, markdownTable);
      UpdateReadme(r, Codes, markdownTable) == r
  {
    CodesIdentifiersPlain();
    UpdateReadmeIdempotent(readme, Codes, markdownTable);
  }

  /** A README without the markers is written back unchanged. */
  lemma UpdateReadmeWithoutMarkers(readme: string, t: seq<Entry>, markdownTable: seq<seq<string>> -> string)
    requires !HasRegion(readme, StartMarker, EndMarker)
    ensures UpdateReadme(readme, t, markdownTable) == readme
  {
    ReplaceWithoutRegion(readme, StartMarker, EndMarker, Expansion(StartMarker + RegionBody(t, markdownTable) + EndMarker));
  }
}
