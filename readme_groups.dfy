/**
 * The tables that scripts/prebuild.ts writes into README.md (lines 84-124): the
 * status table grouped by century with `Object.groupBy`, the groups listed in the
 * order `Object.entries` gives them, and per group a heading and a markdown table
 * with one row per entry, whose name cells `printFunctions` renders.
 *
 * `markdownTable` is a library function; it is a parameter of the model.
 */
module ReadmeGroups {
  import opened Wrappers
  import opened Text
  import opened StatusTable
  import opened Bindings
  import opened PlainIdentifiers

  /**
   * `Math.floor(code / 100) * 100`: the multiple of 100 at or below `code`, written
   * with the remainder (which is never negative, as the floor needs).
   */
  function Century(code: int): int {
    code - code % 100
  }

  lemma CenturyBounds(code: int)
    ensures Century(code) % 100 == 0 && Century(code) <= code < Century(code) + 100
  {
  }

  /** The bucket of a code is the only multiple of 100 within 99 below it. */
  lemma CenturyUnique(code: int, r: int)
    requires r % 100 == 0 && r <= code < r + 100
    ensures r == Century(code)
  {
    assert r == (r / 100) * 100;
  }

  /** Buckets follow the order of the codes. */
  lemma CenturyMonotone(a: int, b: int)
    requires a <= b
    ensures Century(a) <= Century(b)
  {
  }

  /** A code that is not negative has a bucket that is not negative. */
  lemma CenturyNonNegative(code: int)
    requires 0 <= code
    ensures 0 <= Century(code) <= code
  {
    if code < 100 {
      CenturyUnique(code, 0);
    }
  }

  /** The codes from 200 to 599 fall in the buckets 200, 300, 400 and 500. */
  lemma CenturyOfStatus(code: int)
    requires 200 <= code <= 599
    ensures Century(code) in {200, 300, 400, 500}
  {
    if code < 300 {
      CenturyUnique(code, 200);
    } else if code < 400 {
      CenturyUnique(code, 300);
    } else if code < 500 {
      CenturyUnique(code, 400);
    } else {
      CenturyUnique(code, 500);
    }
  }

  /** Some entry of `t` falls in the bucket `k`. */
  predicate HasCentury(t: seq<Entry>, k: int) {
    exists i :: 0 <= i < |t| && Century(t[i].code) == k
  }

  /**
   * The keys `Object.groupBy` creates, in creation order: each entry's bucket, at the
   * first entry that falls in it.
   */
  function GroupKeys(t: seq<Entry>): (ks: seq<int>)
    ensures forall i, j :: 0 <= i < j < |ks| ==> ks[i] != ks[j]
    decreases |t|
  {
    if |t| == 0 then []
    else
      var ks := GroupKeys(t[..|t| - 1]);
      var k := Century(t[|t| - 1].code);
      if k in ks then ks else ks + [k]
  }

  /** A table and the same table without its last entry have the same buckets, but for that entry's. */
  lemma HasCenturyLast(t: seq<Entry>, k: int)
    requires |t| > 0
    ensures HasCentury(t, k) <==> HasCentury(t[..|t| - 1], k) || Century(t[|t| - 1].code) == k
  {
    var t' := t[..|t| - 1];
    if HasCentury(t', k) {
      var i :| 0 <= i < |t'| && Century(t'[i].code) == k;
      assert t[i] == t'[i];
    }
    if HasCentury(t, k) && Century(t[|t| - 1].code) != k {
      var i :| 0 <= i < |t| && Century(t[i].code) == k;
      assert t'[i] == t[i];
    }
  }

  /** The groups are exactly the buckets some entry falls in. */
  lemma {:induction false} GroupKeysMembers(t: seq<Entry>, k: int)
    ensures k in GroupKeys(t) <==> HasCentury(t, k)
    decreases |t|
  {
    if |t| > 0 {
      GroupKeysMembers(t[..|t| - 1], k);
      HasCenturyLast(t, k);
    }
  }

  /** The entries of bucket `k`, in table order: the array `Object.groupBy` collects for `k`. */
  function Group(t: seq<Entry>, k: int): (g: seq<Entry>)
    ensures |g| <= |t| && forall i :: 0 <= i < |g| ==> Century(g[i].code) == k
    decreases |t|
  {
    if |t| == 0 then []
    else Group(t[..|t| - 1], k) + (if Century(t[|t| - 1].code) == k then [t[|t| - 1]] else [])
  }

  /** A group takes its entries from the table, each no more often than the table holds it. */
  lemma {:induction false} GroupFromTable(t: seq<Entry>, k: int)
    ensures multiset(Group(t, k)) <= multiset(t)
    ensures forall i :: 0 <= i < |Group(t, k)| ==> Group(t, k)[i] in t
    decreases |t|
  {
    if |t| > 0 {
      var t' := t[..|t| - 1];
      GroupFromTable(t', k);
      assert t == t' + [t[|t| - 1]];
      assert multiset(t) == multiset(t') + multiset{t[|t| - 1]};
      var g := Group(t, k);
      forall i | 0 <= i < |g| ensures g[i] in t {
        assert g[i] in multiset(g);
      }
    }
  }

  /** A bucket no entry falls in has no entries. */
  lemma {:induction false} GroupOfAbsent(t: seq<Entry>, k: int)
    requires !HasCentury(t, k)
    ensures Group(t, k) == []
    decreases |t|
  {
    if |t| > 0 {
      HasCenturyLast(t, k);
      GroupOfAbsent(t[..|t| - 1], k);
    }
  }

  /**
   * `String(k)` is an array index (section 6.1.7 of ECMA-262), so `Object.entries`
   * lists `k` among the integer keys, ahead of every other key.
   */
  predicate IsIndexKey(k: int) {
    0 <= k < 0xFFFF_FFFF
  }

  /** The keys of `ks` that are array indices, in order. */
  function IndexKeys(ks: seq<int>): (r: seq<int>)
    ensures forall i :: 0 <= i < |r| ==> IsIndexKey(r[i])
    decreases |ks|
  {
    if |ks| == 0 then [] else (if IsIndexKey(ks[0]) then [ks[0]] else []) + IndexKeys(ks[1..])
  }

  /** The keys of `ks` that are not array indices, in order. */
  function OtherKeys(ks: seq<int>): (r: seq<int>)
    ensures forall i :: 0 <= i < |r| ==> !IsIndexKey(r[i])
    decreases |ks|
  {
    if |ks| == 0 then [] else (if IsIndexKey(ks[0]) then [] else [ks[0]]) + OtherKeys(ks[1..])
  }

  predicate Ascending(s: seq<int>) {
    forall i, j :: 0 <= i < j < |s| ==> s[i] <= s[j]
  }

  /** `s` with `x` inserted in front of the first element not smaller than it. */
  function Insert(x: int, s: seq<int>): (r: seq<int>)
    ensures multiset(r) == multiset(s) + multiset{x}
    decreases |s|
  {
    if |s| == 0 || x <= s[0] then [x] + s
    else
      assert s == [s[0]] + s[1..];
      [s[0]] + Insert(x, s[1..])
  }

  lemma {:induction false} InsertAscending(x: int, s: seq<int>)
    requires Ascending(s)
    ensures Ascending(Insert(x, s))
    decreases |s|
  {
    if |s| > 0 && x > s[0] {
      var r' := Insert(x, s[1..]);
      InsertAscending(x, s[1..]);
      forall j | 0 <= j < |r'| ensures s[0] <= r'[j] {
        assert r'[j] in multiset(r');
        if r'[j] != x {
          assert r'[j] in multiset(s[1..]);
          var m :| 0 <= m < |s[1..]| && s[1..][m] == r'[j];
          assert s[1 + m] == r'[j];
        }
      }
    }
  }

  /** The ascending order of `s`. */
  function SortAscending(s: seq<int>): (r: seq<int>)
    ensures multiset(r) == multiset(s) && Ascending(r)
    decreases |s|
  {
    if |s| == 0 then []
    else
      var r := SortAscending(s[1..]);
      SortStep(s, r);
      Insert(s[0], r)
  }

  /** Inserting the first element into the sorted rest sorts the whole. */
  lemma SortStep(s: seq<int>, r: seq<int>)
    requires |s| > 0 && multiset(r) == multiset(s[1..]) && Ascending(r)
    ensures multiset(Insert(s[0], r)) == multiset(s) && Ascending(Insert(s[0], r))
  {
    InsertAscending(s[0], r);
    assert s == [s[0]] + s[1..];
  }

  /**
   * The order in which `Object.entries` lists the keys `ks` of an object, given in
   * creation order: the array indices ascending, then the other keys in creation
   * order (section 10.1.11.1 of ECMA-262).
   */
  function EntriesOrder(ks: seq<int>): seq<int> {
    SortAscending(IndexKeys(ks)) + OtherKeys(ks)
  }

  lemma {:induction false} KeysSplit(ks: seq<int>)
    ensures multiset(IndexKeys(ks)) + multiset(OtherKeys(ks)) == multiset(ks)
    decreases |ks|
  {
    if |ks| > 0 {
      KeysSplit(ks[1..]);
      assert ks == [ks[0]] + ks[1..];
    }
  }

  lemma {:induction false} OtherKeysAppend(a: seq<int>, b: seq<int>)
    ensures OtherKeys(a + b) == OtherKeys(a) + OtherKeys(b)
    decreases |a|
  {
    if |a| == 0 {
      assert a + b == b;
    } else {
      assert (a + b)[1..] == a[1..] + b;
      OtherKeysAppend(a[1..], b);
    }
  }

  lemma {:induction false} OtherKeysOfIndexKeys(ks: seq<int>)
    requires forall i :: 0 <= i < |ks| ==> IsIndexKey(ks[i])
    ensures OtherKeys(ks) == [] && IndexKeys(ks) == ks
    decreases |ks|
  {
    if |ks| > 0 {
      OtherKeysOfIndexKeys(ks[1..]);
    }
  }

  /** `Object.entries` lists each key as often as it was created: once. */
  lemma EntriesOrderPermutes(ks: seq<int>)
    ensures multiset(EntriesOrder(ks)) == multiset(ks)
  {
    KeysSplit(ks);
  }

  /** The array indices come first, in ascending order. */
  lemma EntriesOrderIndicesFirst(ks: seq<int>)
    ensures var r := EntriesOrder(ks);
      forall i, j :: 0 <= i < j < |r| && IsIndexKey(r[j]) ==> IsIndexKey(r[i]) && r[i] <= r[j]
  {
    var sorted, others := SortAscending(IndexKeys(ks)), OtherKeys(ks);
    var r := sorted + others;
    forall j | |sorted| <= j < |r| ensures !IsIndexKey(r[j]) {
      assert r[j] == others[j - |sorted|];
    }
    forall i, j | 0 <= i < j < |r| && IsIndexKey(r[j]) ensures IsIndexKey(r[i]) && r[i] <= r[j] {
      if j < |sorted| {
        SortedIndexKeys(ks, i);
      }
    }
  }

  lemma SortedIndexKeys(ks: seq<int>, i: int)
    requires 0 <= i < |SortAscending(IndexKeys(ks))|
    ensures IsIndexKey(SortAscending(IndexKeys(ks))[i])
  {
    var sorted := SortAscending(IndexKeys(ks));
    assert sorted[i] in multiset(IndexKeys(ks));
  }

  /** The other keys follow, in creation order. */
  lemma EntriesOrderOthersLast(ks: seq<int>)
    ensures OtherKeys(EntriesOrder(ks)) == OtherKeys(ks)
  {
    var sorted := SortAscending(IndexKeys(ks));
    forall i | 0 <= i < |sorted| ensures IsIndexKey(sorted[i]) {
      SortedIndexKeys(ks, i);
    }
    OtherKeysAppend(sorted, OtherKeys(ks));
    OtherKeysOfIndexKeys(sorted);
    OtherKeysOfOthers(OtherKeys(ks));
  }

  lemma {:induction false} OtherKeysOfOthers(ks: seq<int>)
    requires forall i :: 0 <= i < |ks| ==> !IsIndexKey(ks[i])
    ensures OtherKeys(ks) == ks
    decreases |ks|
  {
    if |ks| > 0 {
      OtherKeysOfOthers(ks[1..]);
    }
  }

  lemma {:induction false} SortOfAscending(s: seq<int>)
    requires Ascending(s)
    ensures SortAscending(s) == s
    decreases |s|
  {
    if |s| > 0 {
      SortOfAscending(s[1..]);
      assert s == [s[0]] + s[1..];
    }
  }

  /** Keys that are all array indices and already ascending are listed as they are. */
  lemma EntriesOrderOfAscending(ks: seq<int>)
    requires forall i :: 0 <= i < |ks| ==> IsIndexKey(ks[i])
    requires Ascending(ks)
    ensures EntriesOrder(ks) == ks
  {
    OtherKeysOfIndexKeys(ks);
    SortOfAscending(ks);
  }

  /**
   * The keys of `Object.entries(Object.groupBy(codes, ({ code }) => Math.floor(code / 100) * 100))`,
   * in the order it lists them; the entries of key `k` are `Group(t, k)`.
   */
  function ReadmeKeys(t: seq<Entry>): seq<int> {
    EntriesOrder(GroupKeys(t))
  }

  /** The README has a group for a key exactly when some entry falls in its bucket, and only one. */
  lemma ReadmeKeysMembers(t: seq<Entry>, k: int)
    ensures k in ReadmeKeys(t) <==> HasCentury(t, k)
    ensures multiset(ReadmeKeys(t))[k] == if HasCentury(t, k) then 1 else 0
  {
    var ks := GroupKeys(t);
    EntriesOrderPermutes(ks);
    GroupKeysMembers(t, k);
    assert k in ReadmeKeys(t) <==> k in multiset(ks);
    DistinctCount(ks, k);
  }

  /** A key occurs in a sequence of distinct keys once, or not at all. */
  lemma {:induction false} DistinctCount(ks: seq<int>, k: int)
    requires forall i, j :: 0 <= i < j < |ks| ==> ks[i] != ks[j]
    ensures multiset(ks)[k] == if k in ks then 1 else 0
    decreases |ks|
  {
    if |ks| > 0 {
      var rest := ks[1..];
      assert ks == [ks[0]] + rest;
      DistinctCount(rest, k);
      if ks[0] == k {
        assert k !in rest;
      }
    }
  }

  /** The entries of the groups of the keys `ks`, one group after the other. */
  function Flatten(t: seq<Entry>, ks: seq<int>): seq<Entry>
    decreases |ks|
  {
    if |ks| == 0 then [] else Flatten(t, ks[..|ks| - 1]) + Group(t, ks[|ks| - 1])
  }

  /** Adding an entry changes no group other than its own. */
  lemma {:induction false} FlattenOtherGroups(t: seq<Entry>, e: Entry, ks: seq<int>)
    requires Century(e.code) !in ks
    ensures Flatten(t + [e], ks) == Flatten(t, ks)
    decreases |ks|
  {
    if |ks| > 0 {
      FlattenOtherGroups(t, e, ks[..|ks| - 1]);
      assert (t + [e])[..|t|] == t;
    }
  }

  /** Appending a key at the end appends its group. */
  lemma FlattenLast(t: seq<Entry>, ks: seq<int>, k: int)
    ensures Flatten(t, ks + [k]) == Flatten(t, ks) + Group(t, k)
  {
    assert (ks + [k])[..|ks|] == ks;
  }

  /** Codes in ascending order give buckets in ascending order. */
  predicate StrictlyAscendingKeys(ks: seq<int>) {
    forall i, j :: 0 <= i < j < |ks| ==> ks[i] < ks[j]
  }

  /** In a table in ascending code order, the last entry's bucket is at or above every group's key. */
  lemma LastBucketHighest(t: seq<Entry>)
    requires |t| > 0 && StrictlyAscending(t)
    ensures var ks := GroupKeys(t[..|t| - 1]);
      forall i :: 0 <= i < |ks| ==> ks[i] <= Century(t[|t| - 1].code)
  {
    var t' := t[..|t| - 1];
    var ks := GroupKeys(t');
    forall i | 0 <= i < |ks| ensures ks[i] <= Century(t[|t| - 1].code) {
      GroupKeysMembers(t', ks[i]);
      var m :| 0 <= m < |t'| && Century(t'[m].code) == ks[i];
      assert t[m] == t'[m];
      CenturyMonotone(t'[m].code, t[|t| - 1].code);
    }
  }

  /** In distinct keys that are all at or below `k`, ascending, a present `k` is the last key. */
  lemma HighestIsLast(ks: seq<int>, k: int)
    requires StrictlyAscendingKeys(ks) && k in ks
    requires forall i :: 0 <= i < |ks| ==> ks[i] <= k
    ensures ks[|ks| - 1] == k
  {
    var last :| 0 <= last < |ks| && ks[last] == k;
    assert ks[|ks| - 1] <= k;
  }

  /** An entry of the last group's bucket extends the listing of the groups at the end. */
  lemma FlattenIntoLast(t: seq<Entry>, e: Entry, front: seq<int>)
    requires Century(e.code) !in front
    ensures Flatten(t + [e], front + [Century(e.code)]) == Flatten(t, front + [Century(e.code)]) + [e]
  {
    var K := Century(e.code);
    assert Group(t + [e], K) == Group(t, K) + [e] by {
      assert (t + [e])[..|t|] == t;
    }
    assert Flatten(t + [e], front) == Flatten(t, front) by {
      FlattenOtherGroups(t, e, front);
    }
    FlattenLast(t + [e], front, K);
    FlattenLast(t, front, K);
  }

  /** Distinct ascending keys whose highest is `k` end with `k`, after keys other than `k`. */
  lemma SplitLast(ks: seq<int>, k: int) returns (front: seq<int>)
    requires StrictlyAscendingKeys(ks) && k in ks
    requires forall i :: 0 <= i < |ks| ==> ks[i] <= k
    ensures ks == front + [k] && k !in front
  {
    HighestIsLast(ks, k);
    front := ks[..|ks| - 1];
    assert ks == front + [k];
    forall i | 0 <= i < |front| ensures front[i] != k {
      assert front[i] == ks[i];
    }
  }

  /** The step of `GroupsOfAscending` for an entry that falls in the last group created so far. */
  lemma GroupsOfAscendingOld(t: seq<Entry>, e: Entry, front: seq<int>)
    requires GroupKeys(t) == front + [Century(e.code)] && Century(e.code) !in front
    requires Flatten(t, front + [Century(e.code)]) == t
    ensures GroupKeys(t + [e]) == GroupKeys(t)
    ensures Flatten(t + [e], front + [Century(e.code)]) == t + [e]
  {
    assert (t + [e])[..|t|] == t;
    FlattenIntoLast(t, e, front);
  }

  /** The step of `GroupsOfAscending` for an entry that opens a new group. */
  lemma GroupsOfAscendingNew(t: seq<Entry>, e: Entry)
    requires var ks := GroupKeys(t);
      && StrictlyAscendingKeys(ks) && Flatten(t, ks) == t
      && (forall i :: 0 <= i < |ks| ==> ks[i] <= Century(e.code))
      && Century(e.code) !in ks
    ensures StrictlyAscendingKeys(GroupKeys(t + [e])) && Flatten(t + [e], GroupKeys(t + [e])) == t + [e]
  {
    var ks, K := GroupKeys(t), Century(e.code);
    assert (t + [e])[..|t|] == t;
    assert GroupKeys(t + [e]) == ks + [K];
    FlattenLast(t + [e], ks, K);
    FlattenOtherGroups(t, e, ks);
    GroupKeysMembers(t, K);
    GroupOfAbsent(t, K);
    assert Group(t + [e], K) == [e];
  }

  /**
   * For a table in ascending code order the groups are created in ascending key
   * order, and listing the groups one after the other gives back the table.
   */
  lemma {:induction false} GroupsOfAscending(t: seq<Entry>)
    requires StrictlyAscending(t)
    ensures StrictlyAscendingKeys(GroupKeys(t))
    ensures Flatten(t, GroupKeys(t)) == t
    decreases |t|
  {
    if |t| > 0 {
      var t' := t[..|t| - 1];
      assert StrictlyAscending(t');
      GroupsOfAscending(t');
      LastBucketHighest(t);
      assert t == t' + [t[|t| - 1]];
      if Century(t[|t| - 1].code) in GroupKeys(t') {
        var front := SplitLast(GroupKeys(t'), Century(t[|t| - 1].code));
        GroupsOfAscendingOld(t', t[|t| - 1], front);
      } else {
        GroupsOfAscendingNew(t', t[|t| - 1]);
      }
    }
  }

  /** Every code of `t` has an array index for its bucket. */
  predicate IndexKeyCodes(t: seq<Entry>) {
    forall i :: 0 <= i < |t| ==> 0 <= t[i].code < 0xFFFF_FFFF
  }

  /**
   * For a table in ascending code order whose buckets are array indices, the README
   * lists the groups in ascending key order, and the groups together list the whole
   * table in table order.
   */
  lemma ReadmeKeysOfAscending(t: seq<Entry>)
    requires StrictlyAscending(t) && IndexKeyCodes(t)
    ensures StrictlyAscendingKeys(ReadmeKeys(t))
    ensures Flatten(t, ReadmeKeys(t)) == t
  {
    var ks := GroupKeys(t);
    GroupsOfAscending(t);
    forall i | 0 <= i < |ks| ensures IsIndexKey(ks[i]) {
      GroupKeysMembers(t, ks[i]);
      var m :| 0 <= m < |t| && Century(t[m].code) == ks[i];
      CenturyNonNegative(t[m].code);
    }
    EntriesOrderOfAscending(ks);
  }

  /** `groups[group]`: the title of a group, `undefined` for a key that has none. */
  function Title(k: int): string {
    if k == 200 then "Successful Responses"
    else if k == 300 then "Redirection Responses"
    else if k == 400 then "Client Error Responses"
    else if k == 500 then "Server Error Responses"
    else "undefined"
  }

  /** The codes of a group lie in the range its heading names, from `k` to `k + 99`. */
  lemma GroupWithinHeadingRange(t: seq<Entry>, k: int, i: int)
    requires 0 <= i < |Group(t, k)|
    ensures k <= Group(t, k)[i].code <= k + 99
  {
    CenturyBounds(Group(t, k)[i].code);
  }

  /** The dash between the two ends of a heading's range, written in its mis-decoded form. */
  const Separator := "\U{E2}\U{20AC}\U{201C}"

  /** A group's heading: its title and the range of codes from `k` to `k + 99`. */
  function Heading(k: int): string {
    "#### " + Title(k) + " (`" + IntText(k) + "`" + Separator + "`" + IntText(k + 99) + "`)"
  }

  /** `` `name` ``. */
  function Quote(name: string): string {
    "`" + name + "`"
  }

  /** Each name quoted, joined by ", ". */
  function QuotedList(names: seq<string>): string {
    Join(Map(names, Quote), ", ")
  }

  const AliasOpen := " <br> _("
  const AliasClose := ")_"

  /** `printFunctions([name, ...aliases])`: the quoted name, then the quoted aliases if there are any. */
  function PrintFunctions(names: seq<string>): string {
    Quote(Head(names)) + (if |Rest(names)| > 0 then AliasOpen + QuotedList(Rest(names)) + AliasClose else "")
  }

  /** A name without a backtick, so that quoting it delimits it. */
  predicate NoBacktick(name: string) {
    forall i :: 0 <= i < |name| ==> name[i] != '`'
  }

  /** The name quoted at the start of `s` and the text after its closing backtick. */
  function Unquote(s: string): (r: Option<(string, string)>)
    ensures r.Some? ==> |r.value.1| + 2 <= |s|
  {
    if |s| == 0 || s[0] != '`' then None
    else
      var p := IndexOf(s, "`", 1);
      if p == -1 then None else Some((s[1..p], s[p + 1..]))
  }

  /** Reads back a list written by `QuotedList`. */
  function UnquoteList(s: string): Option<seq<string>>
    decreases |s|
  {
    match Unquote(s)
    case None => None
    case Some((name, tail)) =>
      if tail == "" then Some([name])
      else if |tail| >= 2 && tail[..2] == ", " then
        match UnquoteList(tail[2..])
        case None => None
        case Some(names) => Some([name] + names)
      else None
  }

  /** Reads back the names of a cell written by `PrintFunctions`. */
  function ParseFunctions(cell: string): Option<seq<string>> {
    match Unquote(cell)
    case None => None
    case Some((name, tail)) =>
      if tail == "" then Some([name])
      else if |tail| >= |AliasOpen| + |AliasClose| && tail[..|AliasOpen|] == AliasOpen
              && tail[|tail| - |AliasClose|..] == AliasClose then
        match UnquoteList(tail[|AliasOpen|..|tail| - |AliasClose|])
        case None => None
        case Some(aliases) => Some([name] + aliases)
      else None
  }

  /** A quoted name without backticks is read back, with what follows it. */
  lemma UnquoteQuote(name: string, rest: string)
    requires NoBacktick(name)
    ensures Unquote(Quote(name) + rest) == Some((name, rest))
  {
    var s := Quote(name) + rest;
    var p := 1 + |name|;
    assert s[p..p + 1] == "`";
    forall i | 1 <= i < p ensures !OccursAt(s, "`", i) {
      assert s[i..i + 1][0] == s[i] == name[i - 1];
    }
    IndexOfIs(s, "`", 1, p);
    assert s[1..p] == name;
    assert s[p + 1..] == rest;
  }

  /** `UnquoteList` reads back every list of names without backticks that `QuotedList` writes. */
  lemma {:induction false} QuotedListRoundTrip(names: seq<string>)
    requires |names| > 0 && forall i :: 0 <= i < |names| ==> NoBacktick(names[i])
    ensures UnquoteList(QuotedList(names)) == Some(names)
    decreases |names|
  {
    var quoted := Map(names, Quote);
    if |names| == 1 {
      UnquoteQuote(names[0], "");
      assert Quote(names[0]) + "" == Quote(names[0]) == QuotedList(names);
      assert names == [names[0]];
    } else {
      assert quoted[1..] == Map(names[1..], Quote);
      var rest := QuotedList(names[1..]);
      assert QuotedList(names) == Quote(names[0]) + (", " + rest);
      UnquoteQuote(names[0], ", " + rest);
      assert (", " + rest)[..2] == ", " && (", " + rest)[2..] == rest;
      QuotedListRoundTrip(names[1..]);
      assert [names[0]] + names[1..] == names;
    }
  }

  /**
   * `printFunctions` loses nothing: for a non-empty list of names without backticks,
   * the cell it writes reads back as the same list.
   */
  lemma PrintFunctionsRoundTrip(names: seq<string>)
    requires |names| > 0 && forall i :: 0 <= i < |names| ==> NoBacktick(names[i])
    ensures ParseFunctions(PrintFunctions(names)) == Some(names)
  {
    var name, aliases := names[0], names[1..];
    if |aliases| == 0 {
      UnquoteQuote(name, "");
      assert Quote(name) + "" == Quote(name);
      assert names == [name];
    } else {
      var tail := AliasOpen + QuotedList(aliases) + AliasClose;
      UnquoteQuote(name, tail);
      assert tail[..|AliasOpen|] == AliasOpen;
      assert tail[|tail| - |AliasClose|..] == AliasClose;
      assert tail[|AliasOpen|..|tail| - |AliasClose|] == QuotedList(aliases);
      QuotedListRoundTrip(aliases);
      assert [name] + aliases == names;
    }
  }

  /** The aliases part is written exactly when there are aliases. */
  lemma AliasPartIffAliases(names: seq<string>)
    ensures PrintFunctions(names) == Quote(Head(names)) <==> |names| <= 1
  {
    if |names| > 1 {
      assert |PrintFunctions(names)| > |Quote(Head(names))|;
    }
  }

  /** The rows of a group's markdown table: the header row, then one row per entry. */
  function Rows(es: seq<Entry>): (rows: seq<seq<string>>)
    ensures |rows| == |es| + 1
    ensures rows[0] == ["Status Code", "Function _(Aliases)_", "Negated Function _(Aliases)_"]
  {
    [["Status Code", "Function _(Aliases)_", "Negated Function _(Aliases)_"]]
    + seq(|es|, i requires 0 <= i < |es| => [IntText(es[i].code), PrintFunctions(es[i].names), PrintFunctions(es[i].negations)])
  }

  /**
   * Every row after the header reads back as its entry: the code from the first cell,
   * the names from the second and the negations from the third.
   */
  lemma RowsRoundTrip(es: seq<Entry>, i: int)
    requires 0 <= i < |es|
    requires |es[i].names| > 0 && forall j :: 0 <= j < |es[i].names| ==> NoBacktick(es[i].names[j])
    requires |es[i].negations| > 0 && forall j :: 0 <= j < |es[i].negations| ==> NoBacktick(es[i].negations[j])
    ensures var row := Rows(es)[i + 1];
      && |row| == 3 && IsNumeral(row[0]) && ParseInt(row[0]) == es[i].code
      && ParseFunctions(row[1]) == Some(es[i].names) && ParseFunctions(row[2]) == Some(es[i].negations)
  {
    var e := es[i];
    assert Rows(es)[i + 1] == [IntText(e.code), PrintFunctions(e.names), PrintFunctions(e.negations)];
    IntTextRoundTrip(e.code);
    PrintFunctionsRoundTrip(e.names);
    PrintFunctionsRoundTrip(e.negations);
  }

  /** One group of the README: its heading, a blank line, and its markdown table. */
  function Section(k: int, es: seq<Entry>, markdownTable: seq<seq<string>> -> string): string {
    Heading(k) + "\n\n" + markdownTable(Rows(es))
  }

  /** The README's groups, in the order `Object.entries` lists them. */
  function Sections(t: seq<Entry>, markdownTable: seq<seq<string>> -> string): (r: seq<string>)
    ensures |r| == |ReadmeKeys(t)|
  {
    var ks := ReadmeKeys(t);
    seq(|ks|, i requires 0 <= i < |ks| => Section(ks[i], Group(t, ks[i]), markdownTable))
  }

  /** Every cell of a row matrix is plain. */
  predicate PlainCells(rows: seq<seq<string>>) {
    forall i, j :: 0 <= i < |rows| && 0 <= j < |rows[i]| ==> Plain(rows[i][j])
  }

  /**
   * What the model takes for granted of `markdownTable`: it adds only spaces, pipes,
   * dashes, colons and line breaks around the cells, so the table of plain cells is
   * plain text.
   */
  ghost predicate KeepsPlain(markdownTable: seq<seq<string>> -> string) {
    forall rows :: PlainCells(rows) ==> Plain(markdownTable(rows))
  }

  lemma QuotePlain(name: string)
    requires Plain(name)
    ensures Plain(Quote(name))
  {
    PlainConcat("`", name);
    PlainConcat("`" + name, "`");
  }

  /** The cell `printFunctions` writes for plain names is plain. */
  lemma PrintFunctionsPlain(names: seq<string>)
    requires forall i :: 0 <= i < |names| ==> Plain(names[i])
    ensures Plain(PrintFunctions(names))
  {
    assert Plain(Head(names));
    QuotePlain(Head(names));
    if |Rest(names)| > 0 {
      var quoted := Map(Rest(names), Quote);
      forall i | 0 <= i < |quoted| ensures Plain(quoted[i]) {
        assert Rest(names)[i] == names[i + 1];
        QuotePlain(Rest(names)[i]);
      }
      JoinPlain(quoted, ", ");
      PlainConcat(AliasOpen, QuotedList(Rest(names)));
      PlainConcat(AliasOpen + QuotedList(Rest(names)), AliasClose);
      PlainConcat(Quote(Head(names)), AliasOpen + QuotedList(Rest(names)) + AliasClose);
    } else {
      assert PrintFunctions(names) == Quote(Head(names)) + "";
    }
  }

  lemma TitlePlain(k: int)
    ensures Plain(Title(k))
  {
    if k == 200 { assert Plain("Successful Responses"); }
    else if k == 300 { assert Plain("Redirection Responses"); }
    else if k == 400 { assert Plain("Client Error Responses"); }
    else if k == 500 { assert Plain("Server Error Responses"); }
    else { assert Plain("undefined"); }
  }

  /** Every heading is plain. */
  lemma HeadingPlain(k: int)
    ensures Plain(Heading(k))
  {
    TitlePlain(k);
    IntTextPlain(k);
    IntTextPlain(k + 99);
    var lo, hi := IntText(k), IntText(k + 99);
    assert Plain("#### ") && Plain(" (`") && Plain("`") && Plain("`)") && Plain(Separator);
    PlainConcat("#### ", Title(k));
    var h := "#### " + Title(k);
    PlainConcat(h, " (`");
    PlainConcat(h + " (`", lo);
    var h1 := h + " (`" + lo;
    PlainConcat(h1, "`");
    PlainConcat(h1 + "`", Separator);
    PlainConcat(h1 + "`" + Separator, "`");
    var h2 := h1 + "`" + Separator + "`";
    PlainConcat(h2, hi);
    PlainConcat(h2 + hi, "`)");
    assert Heading(k) == h2 + hi + "`)";
  }

  /** The row of an entry with plain identifiers has plain cells. */
  lemma EntryRowPlain(e: Entry)
    requires EntryPlain(e)
    ensures Plain(IntText(e.code)) && Plain(PrintFunctions(e.names)) && Plain(PrintFunctions(e.negations))
  {
    forall m | 0 <= m < |e.names| ensures Plain(e.names[m]) {
      assert Ids(e)[m] == e.names[m];
    }
    forall m | 0 <= m < |e.negations| ensures Plain(e.negations[m]) {
      assert Ids(e)[|e.names| + m] == e.negations[m];
    }
    IntTextPlain(e.code);
    PrintFunctionsPlain(e.names);
    PrintFunctionsPlain(e.negations);
  }

  /** The rows of entries with plain identifiers have plain cells. */
  lemma RowsPlain(es: seq<Entry>)
    requires IdentifiersPlain(es)
    ensures PlainCells(Rows(es))
  {
    var rows := Rows(es);
    forall i, j | 0 <= i < |rows| && 0 <= j < |rows[i]| ensures Plain(rows[i][j]) {
      if i > 0 {
        var e := es[i - 1];
        assert rows[i] == [IntText(e.code), PrintFunctions(e.names), PrintFunctions(e.negations)];
        assert EntryPlain(e);
        EntryRowPlain(e);
      } else {
        assert Plain("Status Code") && Plain("Function _(Aliases)_") && Plain("Negated Function _(Aliases)_");
      }
    }
  }

  /** The groups of a table with plain identifiers have plain sections, given a `markdownTable` that keeps text plain. */
  lemma SectionsPlain(t: seq<Entry>, markdownTable: seq<seq<string>> -> string)
    requires IdentifiersPlain(t) && KeepsPlain(markdownTable)
    ensures forall i :: 0 <= i < |Sections(t, markdownTable)| ==> Plain(Sections(t, markdownTable)[i])
  {
    var ks := ReadmeKeys(t);
    forall i | 0 <= i < |ks| ensures Plain(Section(ks[i], Group(t, ks[i]), markdownTable)) {
      var g := Group(t, ks[i]);
      GroupFromTable(t, ks[i]);
      forall m | 0 <= m < |g| ensures EntryPlain(g[m]) {
        assert g[m] in t;
      }
      RowsPlain(g);
      HeadingPlain(ks[i]);
      PlainConcat(Heading(ks[i]), "\n\n");
      PlainConcat(Heading(ks[i]) + "\n\n", markdownTable(Rows(g)));
    }
  }

  /**
   * A table in ascending code order with every code from 200 to 599 has its README
   * groups among 2xx to 5xx, in ascending order, each with a title from `groups`,
   * and lists every entry once, in table order.
   */
  lemma ReadmeOfRange(t: seq<Entry>)
    requires StrictlyAscending(t) && CodesInRange(t)
    ensures var ks := ReadmeKeys(t);
      && StrictlyAscendingKeys(ks)
      && (forall i :: 0 <= i < |ks| ==> ks[i] in {200, 300, 400, 500} && Title(ks[i]) != "undefined")
      && Flatten(t, ks) == t
  {
    assert IndexKeyCodes(t);
    ReadmeKeysOfAscending(t);
    var ks := ReadmeKeys(t);
    forall i | 0 <= i < |ks| ensures ks[i] in {200, 300, 400, 500} {
      ReadmeKeysMembers(t, ks[i]);
      var m :| 0 <= m < |t| && Century(t[m].code) == ks[i];
      CenturyOfStatus(t[m].code);
    }
  }

  /** The README of the status table: see `ReadmeOfRange`. */
  lemma CodesReadme()
    ensures var ks := ReadmeKeys(Codes);
      && StrictlyAscendingKeys(ks)
      && (forall i :: 0 <= i < |ks| ==> ks[i] in {200, 300, 400, 500} && Title(ks[i]) != "undefined")
      && Flatten(Codes, ks) == Codes
  {
    CodesBlockWellFormed();
    AscendingFromAdjacent(Codes);
    ReadmeOfRange(Codes);
  }
}
