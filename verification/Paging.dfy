/** Cursor paging over the E2B list, from `list_v2` in `master/e2b.rs`.

    Newest first, ties by id. A page carries a cursor naming the last sandbox
    on it, and the next page starts after that one, in whatever the store then
    holds. */
module Paging {
  import opened Wrappers
  import opened Text
  import opened Tiers

  /** Where a sandbox is in the list. Neither part ever changes. */
  datatype Key = Key(created: int, id: string)

  /** `a` is listed before `b`. */
  predicate Listed(a: Key, b: Key) {
    a.created > b.created || (a.created == b.created && Before(a.id, b.id))
  }

  lemma ListedTotal(a: Key, b: Key)
    ensures Listed(a, b) || a == b || Listed(b, a)
    ensures !(Listed(a, b) && Listed(b, a)) && !(a == b && Listed(a, b))
  {
    BeforeTotal(a.id, b.id);
  }

  lemma ListedTransitive(a: Key, b: Key, c: Key)
    requires Listed(a, b) && Listed(b, c)
    ensures Listed(a, c)
  {
    if a.created == b.created == c.created {
      BeforeTransitive(a.id, b.id, c.id);
    }
  }

  // ---- the cursor ---------------------------------------------------------------

  function PrintCursor(k: Key): string {
    Signed(k.created) + "." + k.id
  }

  function ParseCursor(tok: string): Option<Key> {
    var i := IndexOf(tok, '.');
    if i < 0 then None
    else
      match ParseSigned(tok[..i])
      case None => None
      case Some(t) => Some(Key(t, tok[i + 1..]))
  }

  /** Every cursor the API issues is read back as the sandbox it names, dots
      in its id and all. */
  lemma CursorRoundTrip(k: Key)
    requires I64_MIN <= k.created <= I64_MAX
    ensures ParseCursor(PrintCursor(k)) == Some(k)
  {
    var t := Signed(k.created);
    ParseOfSigned(k.created);
    assert PrintCursor(k) == t + ['.'] + k.id;
    IndexAfter(t, '.', k.id);
    assert PrintCursor(k)[..|t|] == t && PrintCursor(k)[|t| + 1..] == k.id;
  }

  /** A cursor that parses is the one the API would issue exactly when its
      number is written plainly. */
  lemma CursorCanonical(tok: string)
    requires ParseCursor(tok).Some?
    ensures PrintCursor(ParseCursor(tok).value) == tok <==> IsPlain(tok[..IndexOf(tok, '.')])
  {
    var i := IndexOf(tok, '.');
    var num, k := tok[..i], ParseCursor(tok).value;
    assert tok == num + "." + k.id;
    SignedOfParse(num);
    if PrintCursor(k) == tok {
      ParseOfSigned(k.created);
      var t := Signed(k.created);
      assert PrintCursor(k) == t + ['.'] + k.id;
      IndexAfter(t, '.', k.id);
      assert tok[..|t|] == t;
    }
  }

  // ---- one page -------------------------------------------------------------------

  /** A sandbox the E2B surface made, as far as listing goes. */
  datatype Entry = Entry(key: Key, tier: Tier, metadata: map<string, string>)

  datatype Query = Query(states: seq<string>, metadata: seq<(string, string)>,
                         limit: Option<nat>, nextToken: Option<string>)

  function StateOf(t: Tier): string {
    if t.Hot? || t.Frozen? then "running" else "paused"
  }

  predicate Matches(q: Query, e: Entry) {
    && (q.states == [] || StateOf(e.tier) in q.states)
    && (forall i :: 0 <= i < |q.metadata| ==>
                      q.metadata[i].0 in e.metadata && e.metadata[q.metadata[i].0] == q.metadata[i].1)
  }

  /** What a query asks for: running is what is in memory, frozen or not, and paused what is
      on disk or nowhere; an entry must carry every pair the query names. */
  lemma MatchesMeans(q: Query, e: Entry)
    ensures Matches(q, e) <==>
              && (q.states == []
                  || ("running" in q.states && (e.tier == Hot || e.tier == Frozen))
                  || ("paused" in q.states && (e.tier == Snapshot || e.tier == Detached)))
              && forall k, v :: (k, v) in q.metadata ==> k in e.metadata && e.metadata[k] == v
  {
    if Matches(q, e) {
      forall k, v | (k, v) in q.metadata
        ensures k in e.metadata && e.metadata[k] == v
      {
        var i :| 0 <= i < |q.metadata| && q.metadata[i] == (k, v);
      }
    } else if forall k, v :: (k, v) in q.metadata ==> k in e.metadata && e.metadata[k] == v {
      forall i | 0 <= i < |q.metadata|
        ensures q.metadata[i].0 in e.metadata && e.metadata[q.metadata[i].0] == q.metadata[i].1
      {
        assert (q.metadata[i].0, q.metadata[i].1) in q.metadata;
      }
    }
  }

  /** A page holds what is asked for, between one sandbox and a hundred. */
  lemma LimitMeans(q: Query)
    ensures q.limit.None? ==> Limit(q) == 100
    ensures q.limit.Some? && 1 <= q.limit.value <= 100 ==> Limit(q) == q.limit.value
    ensures q.limit == Some(0) ==> Limit(q) == 1
    ensures q.limit.Some? && q.limit.value > 100 ==> Limit(q) == 100
  {}

  function Limit(q: Query): (n: nat)
    ensures 1 <= n <= 100
  {
    match q.limit
    case None => 100
    case Some(n) => if n < 1 then 1 else if n > 100 then 100 else n
  }

  /** Past the cursor, if there is one. */
  predicate Beyond(after: Option<Key>, k: Key) {
    after.Some? ==> Listed(after.value, k)
  }

  predicate InListOrder(ks: seq<Key>) {
    forall i, j :: 0 <= i < j < |ks| ==> Listed(ks[i], ks[j])
  }

  function Keys(es: seq<Entry>): (ks: seq<Key>)
    ensures |ks| == |es|
  {
    seq(|es|, i requires 0 <= i < |es| => es[i].key)
  }

  /** The keys of what the query asks for. */
  function Wanted(records: seq<Entry>, q: Query): set<Key> {
    set i | 0 <= i < |records| && Matches(q, records[i]) :: records[i].key
  }

  /** `page` is the right page of `wanted` after a cursor: in order, no longer
      than the limit, with nothing skipped before its end, and `more` exactly
      when something is left. */
  ghost predicate IsPage(wanted: set<Key>, after: Option<Key>, limit: nat, page: seq<Key>, more: bool) {
    && InListOrder(page) && |page| <= limit
    && (forall k :: k in page ==> k in wanted && Beyond(after, k))
    && (forall k :: k in wanted && Beyond(after, k) && k !in page ==>
                      more && page != [] && Listed(page[|page| - 1], k))
    && (more ==> |page| == limit && exists k :: k in wanted && Beyond(after, k) && k !in page)
  }

  function Retain(es: seq<Entry>, keep: Entry -> bool): seq<Entry> {
    if es == [] then []
    else Retain(es[..|es| - 1], keep) + (if keep(es[|es| - 1]) then [es[|es| - 1]] else [])
  }

  lemma {:induction false} RetainKeeps(es: seq<Entry>, keep: Entry -> bool)
    ensures forall e :: e in Retain(es, keep) <==> e in es && keep(e)
    ensures InListOrder(Keys(es)) ==> InListOrder(Keys(Retain(es, keep)))
    ensures |Retain(es, keep)| <= |es|
  {
    hide Listed;
    if es != [] {
      var rest, last := es[..|es| - 1], es[|es| - 1];
      RetainKeeps(rest, keep);
      assert es == rest + [last];
      var kept := Retain(rest, keep);
      if InListOrder(Keys(es)) && keep(last) {
        assert Keys(rest) == Keys(es)[..|rest|];
        forall k | k in Keys(kept) ensures Listed(k, last.key) {
          var i :| 0 <= i < |kept| && kept[i].key == k;
          assert kept[i] in rest;
          var j :| 0 <= j < |rest| && rest[j] == kept[i];
          assert Keys(es)[j] == k && Keys(es)[|rest|] == last.key;
        }
        OrderSnoc(Keys(kept), last.key);
        assert Keys(Retain(es, keep)) == Keys(kept) + [last.key];
      } else if InListOrder(Keys(es)) {
        assert Keys(rest) == Keys(es)[..|rest|];
        assert kept + [] == kept;
      }
    }
  }

  lemma OrderSnoc(ks: seq<Key>, last: Key)
    requires InListOrder(ks) && forall k :: k in ks ==> Listed(k, last)
    ensures InListOrder(ks + [last])
  {}

  lemma OrderCons(first: Key, ks: seq<Key>)
    requires InListOrder(ks) && forall k :: k in ks ==> Listed(first, k)
    ensures InListOrder([first] + ks)
  {}

  /** The list with `e` put where it belongs. */
  function Insert(e: Entry, es: seq<Entry>): seq<Entry> {
    if es == [] || Listed(e.key, es[0].key) then [e] + es
    else [es[0]] + Insert(e, es[1..])
  }

  function SortNewest(es: seq<Entry>): seq<Entry> {
    if es == [] then [] else Insert(es[0], SortNewest(es[1..]))
  }

  predicate UniqueIds(es: seq<Entry>) {
    forall i, j :: 0 <= i < j < |es| ==> es[i].key.id != es[j].key.id
  }

  lemma {:induction false} InsertKeeps(e: Entry, es: seq<Entry>)
    requires InListOrder(Keys(es)) && (forall x :: x in es ==> x.key != e.key)
    ensures InListOrder(Keys(Insert(e, es)))
    ensures forall x :: x in Insert(e, es) <==> x == e || x in es
    ensures |Insert(e, es)| == |es| + 1
  {
    hide Listed;
    var ks, r := Keys(es), Insert(e, es);
    if es == [] {
      assert Keys(r) == [e.key];
    } else {
      var first, rest := es[0], es[1..];
      ListedTotal(e.key, first.key);
      assert es == [first] + rest;
      if Listed(e.key, first.key) {
        forall k | k in ks ensures Listed(e.key, k) {
          var i :| 0 <= i < |ks| && ks[i] == k;
          if i > 0 { ListedTransitive(e.key, ks[0], ks[i]); }
        }
        OrderCons(e.key, ks);
        assert Keys(r) == [e.key] + ks;
      } else {
        assert first in es;
        assert Keys(rest) == ks[1..];
        InsertKeeps(e, rest);
        var tail := Insert(e, rest);
        forall k | k in Keys(tail) ensures Listed(first.key, k) {
          var i :| 0 <= i < |tail| && tail[i].key == k;
          if tail[i] != e {
            assert tail[i] in tail;
            var j :| 0 <= j < |rest| && rest[j] == tail[i];
            assert Listed(ks[0], ks[j + 1]);
          }
        }
        OrderCons(first.key, Keys(tail));
        assert Keys(r) == [first.key] + Keys(tail);
      }
    }
  }

  lemma {:induction false} SortKeeps(es: seq<Entry>)
    requires UniqueIds(es)
    ensures InListOrder(Keys(SortNewest(es)))
    ensures forall x :: x in SortNewest(es) <==> x in es
    ensures |SortNewest(es)| == |es|
  {
    if es != [] {
      var first, rest := es[0], es[1..];
      SortKeeps(rest);
      assert es == [first] + rest;
      InsertKeeps(first, SortNewest(rest));
    }
  }

  datatype Page = Page(entries: seq<Entry>, nextToken: Option<string>)

  /** The cursor a query carries; a token this API never issued is refused. */
  function CursorOf(q: Query): Option<Key> {
    match q.nextToken
    case None => None
    case Some(tok) => ParseCursor(tok)
  }

  /** The right answer to a query: the right page of what matches after its cursor, of
      stored sandboxes, with the last one's cursor as the token when there is more. */
  ghost predicate PageFor(records: seq<Entry>, q: Query, p: Page) {
    && IsPage(Wanted(records, q), CursorOf(q), Limit(q), Keys(p.entries), p.nextToken.Some?)
    && (forall e :: e in p.entries ==> e in records && Matches(q, e))
    && (p.nextToken.Some? ==>
          p.entries != [] && p.nextToken.value == PrintCursor(p.entries[|p.entries| - 1].key))
  }

  /** Newest first, and those made at one time by id. */
  predicate NewestFirst(ks: seq<Key>) {
    forall i, j :: 0 <= i < j < |ks| ==>
      ks[i].created > ks[j].created || (ks[i].created == ks[j].created && Before(ks[i].id, ks[j].id))
  }

  /** One page of the list. `records` are the store's, one to an id. */
  method ListV2(records: seq<Entry>, q: Query) returns (r: Result<Page, string>)
    requires UniqueIds(records)
    ensures r.Err? <==> q.nextToken.Some? && ParseCursor(q.nextToken.value).None?
    ensures r.Ok? ==> PageFor(records, q, r.value)
    ensures r.Ok? ==> NewestFirst(Keys(r.value.entries))
  {
    hide Matches, Listed, Retain, SortNewest, IsPage, InListOrder, ParseCursor, PrintCursor;
    var limit := Limit(q);
    SortKeeps(records);
    var sorted := SortNewest(records);
    var wanted := (e: Entry) => Matches(q, e);
    var all := Retain(sorted, wanted);
    RetainKeeps(sorted, wanted);
    if q.nextToken.Some? {
      var cursor := ParseCursor(q.nextToken.value);
      if cursor.None? {
        return Err("nextToken is not one this API issued");
      }
      var after := cursor.value;
      var past := (e: Entry) => Listed(after, e.key);
      RetainKeeps(all, past);
      all := Retain(all, past);
    }
    var more := |all| > limit;
    ghost var full := all;
    if more {
      all := all[..limit];
    }
    PageOfSorted(records, q, full, all, more);
    PageIsNewestFirst(records, q, all, more);
    return Ok(Page(all, if more then Some(PrintCursor(all[|all| - 1].key)) else None));
  }

  lemma PageIsNewestFirst(records: seq<Entry>, q: Query, all: seq<Entry>, more: bool)
    requires IsPage(Wanted(records, q), CursorOf(q), Limit(q), Keys(all), more)
    ensures NewestFirst(Keys(all))
  {}

  lemma OrderIsNewestFirst(ks: seq<Key>)
    ensures InListOrder(ks) <==> NewestFirst(ks)
  {}

  /** The keys of the sorted matching list are the wanted ones past the
      cursor. */
  lemma SortedKeys(records: seq<Entry>, q: Query, full: seq<Entry>, k: Key)
    requires forall e :: e in full <==> e in records && Matches(q, e) && Beyond(CursorOf(q), e.key)
    ensures k in Keys(full) <==> k in Wanted(records, q) && Beyond(CursorOf(q), k)
  {
    hide Matches, Beyond, CursorOf;
    if k in Wanted(records, q) && Beyond(CursorOf(q), k) {
      var i :| 0 <= i < |records| && Matches(q, records[i]) && records[i].key == k;
      assert records[i] in full;
      var j :| 0 <= j < |full| && full[j] == records[i];
      assert Keys(full)[j] == k;
    }
    if k in Keys(full) {
      var j :| 0 <= j < |full| && full[j].key == k;
      assert full[j] in full;
      var i :| 0 <= i < |records| && records[i] == full[j];
    }
  }

  /** The front of the sorted matching list is a page of it. */
  lemma PageOfSorted(records: seq<Entry>, q: Query, full: seq<Entry>, all: seq<Entry>, more: bool)
    requires InListOrder(Keys(full)) && more == (|full| > Limit(q))
    requires forall e :: e in full <==> e in records && Matches(q, e) && Beyond(CursorOf(q), e.key)
    requires all == if more then full[..Limit(q)] else full
    ensures IsPage(Wanted(records, q), CursorOf(q), Limit(q), Keys(all), more)
  {
    hide Matches, Beyond, CursorOf, Wanted;
    forall k ensures k in Keys(full) <==> k in Wanted(records, q) && Beyond(CursorOf(q), k) {
      SortedKeys(records, q, full, k);
    }
    FrontIsPage(Wanted(records, q), CursorOf(q), Limit(q), Keys(full), Keys(all), more);
  }

  lemma FrontIsPage(wanted: set<Key>, after: Option<Key>, limit: nat, fs: seq<Key>, ks: seq<Key>, more: bool)
    requires InListOrder(fs) && limit >= 1 && more == (|fs| > limit)
    requires forall k :: k in fs <==> k in wanted && Beyond(after, k)
    requires ks == if more then fs[..limit] else fs
    ensures IsPage(wanted, after, limit, ks, more)
  {
    hide Beyond, Listed;
    forall k | k in fs && k !in ks ensures more && ks != [] && Listed(ks[|ks| - 1], k) {
      var j :| 0 <= j < |fs| && fs[j] == k;
      assert ks == fs[..|ks|];
      assert j >= |ks|;
      assert Listed(fs[|ks| - 1], fs[j]);
    }
    if more {
      LeftOver(fs, ks, limit);
      assert fs[limit] in fs;
    }
  }

  lemma LeftOver(fs: seq<Key>, ks: seq<Key>, n: nat)
    requires InListOrder(fs) && n < |fs| && ks == fs[..n]
    ensures fs[n] !in ks
  {
    forall i | 0 <= i < n ensures ks[i] != fs[n] {
      assert Listed(fs[i], fs[n]);
      ListedTotal(fs[i], fs[n]);
    }
  }

  // ---- following the tokens ------------------------------------------------------------

  /** One request of a walk through the list: what the store held of what was
      asked for, the limit, and what came back. */
  datatype Visit = Visit(wanted: set<Key>, limit: nat, page: seq<Key>, more: bool)

  /** The cursor the `i`-th request carried: the last key of the page before. */
  function CursorAt(run: seq<Visit>, i: nat): Option<Key>
    requires i <= |run|
  {
    if i == 0 || run[i - 1].page == [] then None
    else Some(run[i - 1].page[|run[i - 1].page| - 1])
  }

  /** A walk: each page after the last, for as long as there was a token. The
      store may change in any way between requests. */
  ghost predicate Walk(run: seq<Visit>) {
    forall i :: 0 <= i < |run| ==>
                  && run[i].limit >= 1
                  && IsPage(run[i].wanted, CursorAt(run, i), run[i].limit, run[i].page, run[i].more)
                  && (i < |run| - 1 ==> run[i].more)
  }

  /** The walk went on until there was no token. */
  predicate Ended(run: seq<Visit>) {
    run != [] && !run[|run| - 1].more
  }

  lemma InPageNotPast(page: seq<Key>, k: Key)
    requires InListOrder(page) && k in page
    ensures !Listed(page[|page| - 1], k)
  {
    var i :| 0 <= i < |page| && page[i] == k;
    if i < |page| - 1 {
      assert Listed(page[i], page[|page| - 1]);
    }
    ListedTotal(k, page[|page| - 1]);
  }

  lemma OnPage(run: seq<Visit>, i: nat, k: Key)
    requires Walk(run) && i < |run| && k in run[i].page
    ensures InListOrder(run[i].page) && run[i].page != []
    ensures k in run[i].wanted && Beyond(CursorAt(run, i), k)
  {
    hide Listed;
  }

  lemma NotOnPage(run: seq<Visit>, i: nat, k: Key)
    requires Walk(run) && i < |run|
    requires k in run[i].wanted && Beyond(CursorAt(run, i), k) && k !in run[i].page
    ensures i < |run| - 1 || run[i].more
    ensures run[i].more ==> Beyond(CursorAt(run, i + 1), k)
    ensures run[i].more && run[i].page != []
  {
    hide Listed;
  }

  lemma HasMore(run: seq<Visit>, i: nat)
    requires Walk(run) && i < |run| - 1
    ensures run[i].page != []
  {
    hide Listed;
  }

  /** Every page is past the end of every page before it. */
  lemma {:induction false} PagesAdvance(run: seq<Visit>, i: nat, j: nat, k: Key)
    requires Walk(run) && i < j < |run| && k in run[j].page
    ensures run[i].page != [] && Listed(run[i].page[|run[i].page| - 1], k)
  {
    hide Listed, IsPage, Walk;
    HasMore(run, i);
    HasMore(run, j - 1);
    OnPage(run, j, k);
    var last := CursorAt(run, j).value;
    if i < j - 1 {
      assert last in run[j - 1].page;
      PagesAdvance(run, i, j - 1, last);
      ListedTransitive(CursorAt(run, i + 1).value, last, k);
    }
  }

  /** No sandbox is ever on two pages, whatever happens between them. */
  lemma NeverTwice(run: seq<Visit>, i: nat, j: nat, k: Key)
    requires Walk(run) && i < |run| && j < |run| && k in run[i].page && k in run[j].page
    ensures i == j
  {
    hide Listed, IsPage, Walk;
    OnPage(run, i, k);
    OnPage(run, j, k);
    InPageNotPast(run[i].page, k);
    InPageNotPast(run[j].page, k);
    if i < j {
      PagesAdvance(run, i, j, k);
    } else if j < i {
      PagesAdvance(run, j, i, k);
    }
  }

  lemma {:induction false} FoundFrom(run: seq<Visit>, k: Key, i: nat) returns (at: nat)
    requires Walk(run) && Ended(run) && i < |run| && Beyond(CursorAt(run, i), k)
    requires forall n :: 0 <= n < |run| ==> k in run[n].wanted
    ensures at < |run| && k in run[at].page
    decreases |run| - i
  {
    hide Listed, IsPage, Walk, Beyond;
    if k in run[i].page {
      at := i;
    } else {
      NotOnPage(run, i, k);
      at := FoundFrom(run, k, i + 1);
    }
  }

  /** A sandbox present and matching throughout a walk is on exactly one of
      its pages, even if others are created and deleted between them. */
  lemma ExactlyOnce(run: seq<Visit>, k: Key)
    requires Walk(run) && Ended(run)
    requires forall n :: 0 <= n < |run| ==> k in run[n].wanted
    ensures exists i :: 0 <= i < |run| && k in run[i].page
                        && forall j :: 0 <= j < |run| && k in run[j].page ==> j == i
  {
    var at := FoundFrom(run, k, 0);
    forall j | 0 <= j < |run| && k in run[j].page ensures j == at {
      NeverTwice(run, at, j, k);
    }
  }

  function Concat(run: seq<Visit>): seq<Key> {
    if run == [] then [] else Concat(run[..|run| - 1]) + run[|run| - 1].page
  }

  lemma {:induction false} InConcat(run: seq<Visit>, k: Key)
    ensures k in Concat(run) <==> exists i :: 0 <= i < |run| && k in run[i].page
  {
    if run != [] {
      var rest := run[..|run| - 1];
      InConcat(rest, k);
      if k in Concat(rest) {
        var i :| 0 <= i < |rest| && k in rest[i].page;
        assert k in run[i].page;
      }
      if exists i :: 0 <= i < |run| && k in run[i].page {
        var i :| 0 <= i < |run| && k in run[i].page;
        if i < |rest| { assert k in rest[i].page; }
      }
    }
  }

  lemma {:induction false} WalkPrefix(run: seq<Visit>, n: nat)
    requires Walk(run) && n <= |run|
    ensures Walk(run[..n])
  {
    var p := run[..n];
    forall i | 0 <= i < |p| ensures
      && p[i].limit >= 1
      && IsPage(p[i].wanted, CursorAt(p, i), p[i].limit, p[i].page, p[i].more)
      && (i < |p| - 1 ==> p[i].more)
    {
      assert p[i] == run[i] && CursorAt(p, i) == CursorAt(run, i);
    }
  }

  lemma {:induction false} ConcatInOrder(run: seq<Visit>)
    requires Walk(run)
    ensures InListOrder(Concat(run))
  {
    hide Listed, IsPage, Walk, Concat;
    if run == [] {
      ConcatEmpty();
    } else {
      var n := |run| - 1;
      var rest := run[..n];
      WalkPrefix(run, n);
      ConcatInOrder(rest);
      var front, page := Concat(rest), run[n].page;
      assert Concat(run) == front + page by { ConcatSnoc(run); }
      forall a, b | a in front && b in page ensures Listed(a, b) {
        InConcat(rest, a);
        var m :| 0 <= m < |rest| && a in rest[m].page;
        EarlierPage(run, m, n, a, b);
      }
      PageInOrder(run, n);
      OrderConcat(front, page);
    }
  }

  lemma ConcatEmpty()
    ensures Concat([]) == []
  {}

  lemma ConcatSnoc(run: seq<Visit>)
    requires run != []
    ensures Concat(run) == Concat(run[..|run| - 1]) + run[|run| - 1].page
  {}

  lemma PageInOrder(run: seq<Visit>, i: nat)
    requires Walk(run) && i < |run|
    ensures InListOrder(run[i].page)
  {}

  lemma OrderConcat(a: seq<Key>, b: seq<Key>)
    requires InListOrder(a) && InListOrder(b) && forall x, y :: x in a && y in b ==> Listed(x, y)
    ensures InListOrder(a + b)
  {
    hide Listed;
  }

  lemma EarlierPage(run: seq<Visit>, m: nat, n: nat, a: Key, b: Key)
    requires Walk(run) && m < n < |run| && a in run[m].page && b in run[n].page
    ensures Listed(a, b)
  {
    hide Listed, IsPage, Walk;
    PagesAdvance(run, m, n, b);
    OnPage(run, m, a);
    var prev := run[m].page;
    InPageNotPast(prev, a);
    ListedTotal(a, prev[|prev| - 1]);
    if a != prev[|prev| - 1] {
      ListedTransitive(a, prev[|prev| - 1], b);
    }
  }

  /** When the store does not change, the pages put together are exactly what
      the query asks for, newest first, each once. */
  lemma PagesAreTheList(run: seq<Visit>, wanted: set<Key>)
    requires Walk(run) && Ended(run)
    requires forall n :: 0 <= n < |run| ==> run[n].wanted == wanted
    ensures NewestFirst(Concat(run))
    ensures forall k :: k in Concat(run) <==> k in wanted
  {
    hide NewestFirst;
    ConcatInOrder(run);
    OrderIsNewestFirst(Concat(run));
    forall k ensures k in Concat(run) <==> k in wanted {
      InConcat(run, k);
      if k in wanted { ExactlyOnce(run, k); }
    }
  }

  lemma {:induction false} WalkLength(run: seq<Visit>)
    requires Walk(run) && forall n :: 0 <= n < |run| ==> run[n].more
    ensures |Concat(run)| >= |run|
  {
    if run != [] {
      var n := |run| - 1;
      WalkPrefix(run, n);
      assert forall i :: 0 <= i < n ==> run[..n][i] == run[i];
      WalkLength(run[..n]);
      assert run[n].more && |run[n].page| == run[n].limit;
    }
  }

  lemma {:induction false} OrderedFits(ks: seq<Key>, s: set<Key>)
    requires InListOrder(ks) && forall k :: k in ks ==> k in s
    ensures |ks| <= |s|
  {
    if ks != [] {
      var rest, last := ks[..|ks| - 1], ks[|ks| - 1];
      LeftOver(ks, rest, |rest|);
      assert last in ks;
      forall k | k in rest ensures k in s - {last} {
        assert k in ks;
      }
      OrderedFits(rest, s - {last});
    }
  }

  /** Paging ends: a store that does not change gives out no more tokens than
      it has sandboxes to list. */
  lemma PagingEnds(run: seq<Visit>, wanted: set<Key>)
    requires Walk(run) && (forall n :: 0 <= n < |run| ==> run[n].wanted == wanted && run[n].more)
    ensures |run| <= |wanted|
  {
    WalkLength(run);
    ConcatInOrder(run);
    forall k | k in Concat(run) ensures k in wanted {
      InConcat(run, k);
    }
    OrderedFits(Concat(run), wanted);
  }

  // ---- the tokens themselves -----------------------------------------------------------

  /** One request: the records at the time, the query and the page it was answered with. */
  datatype Request = Request(records: seq<Entry>, q: Query, page: Page)

  /** Creation times are 64-bit numbers. */
  predicate Stored(records: seq<Entry>) {
    forall e :: e in records ==> I64_MIN <= e.key.created <= I64_MAX
  }

  /** A caller that starts without a token and sends back each one it is given. */
  ghost predicate Following(rs: seq<Request>) {
    && (forall i :: 0 <= i < |rs| ==> Stored(rs[i].records) && PageFor(rs[i].records, rs[i].q, rs[i].page))
    && (rs != [] ==> rs[0].q.nextToken.None?)
    && (forall i, j :: 0 <= i && j == i + 1 && j < |rs| ==> SendsBack(rs[i], rs[j]))
  }

  /** The second request carries the token the first was given. */
  predicate SendsBack(a: Request, b: Request) {
    a.page.nextToken.Some? && b.q.nextToken == a.page.nextToken
  }

  function VisitOf(r: Request): Visit {
    Visit(Wanted(r.records, r.q), Limit(r.q), Keys(r.page.entries), r.page.nextToken.Some?)
  }

  function Visits(rs: seq<Request>): (run: seq<Visit>)
    ensures |run| == |rs|
    ensures forall i :: 0 <= i < |rs| ==> run[i] == VisitOf(rs[i])
  {
    seq(|rs|, i requires 0 <= i < |rs| => VisitOf(rs[i]))
  }

  /** The token sent back is read as the last key of the page it came with. */
  lemma TokenIsCursor(rs: seq<Request>, i: nat)
    requires Following(rs) && i < |rs|
    ensures CursorOf(rs[i].q) == CursorAt(Visits(rs), i)
  {
    hide IsPage, Matches, ParseCursor, PrintCursor;
    if i > 0 {
      var j := i - 1;
      var es := rs[j].page.entries;
      assert SendsBack(rs[j], rs[i]);
      assert PageFor(rs[j].records, rs[j].q, rs[j].page);
      assert es[|es| - 1] in rs[j].records;
      CursorRoundTrip(es[|es| - 1].key);
    }
  }

  /** So following the tokens is a walk. */
  lemma FollowingIsWalk(rs: seq<Request>)
    requires Following(rs)
    ensures Walk(Visits(rs))
  {
    hide IsPage, CursorOf, CursorAt, Keys, Wanted;
    var run := Visits(rs);
    forall i | 0 <= i < |run|
      ensures run[i].limit >= 1
      ensures IsPage(run[i].wanted, CursorAt(run, i), run[i].limit, run[i].page, run[i].more)
      ensures i < |run| - 1 ==> run[i].more
    {
      TokenIsCursor(rs, i);
      assert PageFor(rs[i].records, rs[i].q, rs[i].page);
      if i < |run| - 1 {
        assert SendsBack(rs[i], rs[i + 1]);
      }
    }
  }

  /** Following the tokens to the end of a list that does not change gives each sandbox
      that matches once, newest first, ties by id; and of one that does, each that
      matches throughout, once. */
  lemma TokensGiveTheList(rs: seq<Request>, wanted: set<Key>, k: Key)
    requires Following(rs) && rs != [] && rs[|rs| - 1].page.nextToken.None?
    ensures NewestFirst(Concat(Visits(rs)))
    ensures (forall i :: 0 <= i < |rs| ==> Wanted(rs[i].records, rs[i].q) == wanted) ==>
              (k in Concat(Visits(rs)) <==> k in wanted)
    ensures (forall i :: 0 <= i < |rs| ==> k in Wanted(rs[i].records, rs[i].q)) ==> k in Concat(Visits(rs))
  {
    hide Walk, Following, Wanted, Concat, NewestFirst;
    var run := Visits(rs);
    FollowingIsWalk(rs);
    ConcatInOrder(run);
    OrderIsNewestFirst(Concat(run));
    InConcat(run, k);
    if forall i :: 0 <= i < |rs| ==> Wanted(rs[i].records, rs[i].q) == wanted {
      PagesAreTheList(run, wanted);
    }
    if forall i :: 0 <= i < |rs| ==> k in Wanted(rs[i].records, rs[i].q) {
      ExactlyOnce(run, k);
    }
  }
}
