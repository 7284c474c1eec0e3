/**
 Searching a workspace (project_files.rs): a bounded walk, matches listed page by page.
 */
module ProjectFiles {
  import opened Prelude
  import opened Text
  import opened NameSearch

  const PAGE: nat := 200
  const SCAN: nat := 20_000
  const FILE_BYTES: nat := 1024 * 1024

  /** What reading a file gives: its length, and its lines unless it is binary or not UTF-8. */
  datatype Content = Unreadable | Read(bytes: nat, lines: Option<seq<string>>)

  /** One step of the walk: an error, a directory, a path that is not UTF-8, a path that leaves the
      workspace, or a file. */
  datatype Item = Failed | NotAFile | Unnamed | Escapes | File(path: string, content: Content)

  datatype Entry = Entry(path: string, line: Option<nat>, text: Option<string>)

  datatype Listing = Listing(entries: seq<Entry>, next: Option<nat>, truncated: bool)

  datatype Query = Query(text: string, caseSensitive: bool, content: bool, cursor: nat)

  // ---------------------------------------------------------------- the walk and its matches

  function Spent(items: seq<Item>): nat {
    if items == [] then 0 else Spent(items[..|items| - 1]) + Bytes(items[|items| - 1])
  }

  function Bytes(item: Item): nat {
    if item.File? && item.content.Read? then item.content.bytes else 0
  }

  /** The walk stops before item `i`: too many items, too many bytes, or the time is up. */
  predicate Stops(items: seq<Item>, i: nat, deadline: nat, reading: bool)
    requires i <= |items|
  {
    i >= SCAN || (reading && Spent(items[..i]) >= 64 * FILE_BYTES) || i >= deadline
  }

  /** How many items the walk visits, counted from `i`. */
  function Reach(items: seq<Item>, i: nat, deadline: nat, reading: bool): (r: nat)
    requires i <= |items|
    ensures i <= r <= |items|
    ensures r < |items| ==> Stops(items, r, deadline, reading)
    ensures forall k :: i <= k < r ==> !Stops(items, k, deadline, reading)
    decreases |items| - i
  {
    if i == |items| || Stops(items, i, deadline, reading) then i else Reach(items, i + 1, deadline, reading)
  }

  /** An item the search had to pass over without looking inside. */
  predicate Skipped(item: Item, reading: bool) {
    || item.Failed? || item.Unnamed?
    || (reading && item.File? && (item.content.Unreadable? || item.content.bytes > FILE_BYTES))
  }

  function Clip(text: string): string {
    if |text| > 500 then text[..500] else text
  }

  function LineMatches(path: string, lines: seq<string>, matches: string -> bool): seq<Entry> {
    if lines == [] then []
    else
      var last := |lines| - 1;
      LineMatches(path, lines[..last], matches)
      + if matches(lines[last]) then [Entry(path, Some(last + 1), Some(Clip(lines[last])))] else []
  }

  /** A file's listing names exactly its matching lines, by their numbers from 1. */
  lemma {:induction false} ListedLinesMatch(path: string, lines: seq<string>, matches: string -> bool, n: nat)
    ensures (exists e :: e in LineMatches(path, lines, matches) && e.line == Some(n))
            <==> 1 <= n <= |lines| && matches(lines[n - 1])
    ensures forall e :: e in LineMatches(path, lines, matches) && e.line == Some(n) ==>
              1 <= n <= |lines| && e == Entry(path, Some(n), Some(Clip(lines[n - 1])))
    decreases |lines|
  {
    if lines != [] {
      var last := |lines| - 1;
      ListedLinesMatch(path, lines[..last], matches, n);
      if n == last + 1 && matches(lines[last]) {
        assert Entry(path, Some(n), Some(Clip(lines[last]))) in LineMatches(path, lines, matches);
      }
      if exists e :: e in LineMatches(path, lines[..last], matches) && e.line == Some(n) {
        var e :| e in LineMatches(path, lines[..last], matches) && e.line == Some(n);
        assert e in LineMatches(path, lines, matches);
      }
    }
  }

  function ItemMatches(item: Item, matches: string -> bool): seq<Entry> {
    if item.File? && item.content.Read? && item.content.bytes <= FILE_BYTES && item.content.lines.Some?
    then LineMatches(item.path, item.content.lines.value, matches) else []
  }

  function ContentMatches(items: seq<Item>, matches: string -> bool): seq<Entry> {
    if items == [] then []
    else ContentMatches(items[..|items| - 1], matches) + ItemMatches(items[|items| - 1], matches)
  }

  function ItemNames(item: Item, fold: string -> string, query: string): seq<Match> {
    if !item.File? then []
    else
      var rank := NameRank(item.path, fold(item.path), query);
      if rank.Some? then [Match(rank.value, item.path)] else []
  }

  function NameMatches(items: seq<Item>, fold: string -> string, query: string): (r: seq<Match>)
    ensures |r| <= |items|
  {
    if items == [] then []
    else NameMatches(items[..|items| - 1], fold, query) + ItemNames(items[|items| - 1], fold, query)
  }

  function Named(matches: seq<Match>): (r: seq<Entry>)
    ensures |r| == |matches| && forall i :: 0 <= i < |r| ==> r[i] == Entry(matches[i].path, None, None)
  {
    seq(|matches|, i requires 0 <= i < |matches| => Entry(matches[i].path, None, None))
  }

  // ---------------------------------------------------------------- pages

  function Window(all: seq<Entry>, cursor: nat): seq<Entry> {
    if |all| <= cursor then [] else all[cursor..]
  }

  function PageOf(all: seq<Entry>, cursor: nat): (r: seq<Entry>)
    ensures |r| <= PAGE
  {
    if |Window(all, cursor)| > PAGE then Window(all, cursor)[..PAGE] else Window(all, cursor)
  }

  function NextCursor(all: seq<Entry>, cursor: nat): Option<nat> {
    if |all| > cursor + PAGE then Some(cursor + PAGE) else None
  }

  /** What a client that follows every cursor collects; cursors past `limit` are refused. */
  function Gathered(all: seq<Entry>, cursor: nat, limit: Option<nat>): seq<Entry>
    decreases if |all| > cursor then |all| - cursor else 0
  {
    if limit.Some? && cursor > limit.value then []
    else
      var next := NextCursor(all, cursor);
      PageOf(all, cursor) + if next.Some? then Gathered(all, next.value, limit) else []
  }

  /** A page and what follows it, of any prefix that reaches past the page. */
  lemma PageThenRest(all: seq<Entry>, cursor: nat, most: nat)
    requires cursor + PAGE <= most <= |all| && cursor + PAGE < |all|
    ensures Window(all[..most], cursor) == PageOf(all, cursor) + Window(all[..most], cursor + PAGE)
  {
    assert all[..most][cursor..] == all[cursor..][..PAGE] + all[..most][cursor + PAGE..];
  }

  /** Following every cursor of an unlimited listing collects it whole, once and in order. */
  lemma {:induction false} PagesGatherAll(all: seq<Entry>, cursor: nat)
    ensures Gathered(all, cursor, None) == Window(all, cursor)
    decreases if |all| > cursor then |all| - cursor else 0
  {
    if |all| > cursor + PAGE {
      PagesGatherAll(all, cursor + PAGE);
      PageThenRest(all, cursor, |all|);
      assert all[..|all|] == all;
      hide Window, PageOf;
    }
  }

  /** As many matches as accepted cursors can reach. */
  function Reachable(all: seq<Entry>): nat {
    if |all| > SCAN + PAGE then SCAN + PAGE else |all|
  }

  lemma {:induction false} PagesGatherUpToLimit(all: seq<Entry>, cursor: nat)
    requires cursor % PAGE == 0 && cursor <= SCAN
    ensures Gathered(all, cursor, Some(SCAN)) == Window(all[..Reachable(all)], cursor)
    decreases SCAN - cursor
  {
    if |all| > cursor + PAGE {
      PageThenRest(all, cursor, Reachable(all));
      if cursor + PAGE <= SCAN {
        hide Window, PageOf;
        PagesGatherUpToLimit(all, cursor + PAGE);
      } else {
        hide PageOf;
        assert Gathered(all, cursor + PAGE, Some(SCAN)) == [];
      }
    } else {
      assert all[..Reachable(all)] == all;
    }
  }

  /** A search can be read to its end exactly when it has no more than 20 200 matches: the cursor
      after that many is offered and then refused as too large. */
  lemma SearchIsCompleteExactlyUpToLimit(all: seq<Entry>)
    ensures Gathered(all, 0, Some(SCAN)) == all <==> |all| <= 20_200
    ensures |all| > 20_200 ==> NextCursor(all, SCAN) == Some(20_200) && 20_200 > SCAN
  {
    hide Gathered;
    PagesGatherUpToLimit(all, 0);
    assert Window(all[..Reachable(all)], 0) == all[..Reachable(all)];
  }

  /** The paging step of a directory listing, on the whole sorted listing. */
  method Page(all: seq<Entry>, cursor: nat) returns (entries: seq<Entry>, next: Option<nat>)
    ensures entries == PageOf(all, cursor) && next == NextCursor(all, cursor)
  {
    var count := |all|;
    var from := if cursor < count then cursor else count;
    var to := if count < cursor + PAGE then count else cursor + PAGE;
    entries := all[from..to];
    next := if count > cursor + PAGE then Some(cursor + PAGE) else None;
    assert cursor < count ==> all[from..][..to - from] == all[from..to];
  }

  // ---------------------------------------------------------------- the search loops

  /** Lists one file's matching lines, stopping once a page and one more are held. */
  method ScanLines(path: string, lines: seq<string>, matches: string -> bool, cursor: nat, before: nat, held: seq<Entry>,
                   ghost seen: seq<Entry>)
    returns (found: nat, entries: seq<Entry>, ghost now: seq<Entry>)
    requires before == |seen| && held == Window(seen, cursor) && |held| <= PAGE
    ensures found == |now| && entries == Window(now, cursor) && |entries| <= PAGE + 1
    ensures now <= seen + LineMatches(path, lines, matches)
    ensures |entries| <= PAGE ==> now == seen + LineMatches(path, lines, matches)
  {
    found, entries, now := before, held, seen;
    for i := 0 to |lines|
      invariant now == seen + LineMatches(path, lines[..i], matches)
      invariant found == |now| && entries == Window(now, cursor) && |entries| <= PAGE
    {
      LinesGrow(path, lines, matches, i);
      assert lines[..i + 1][..i] == lines[..i];
      if matches(lines[i]) {
        var entry := Entry(path, Some(i + 1), Some(Clip(lines[i])));
        if found >= cursor {
          entries := entries + [entry];
        }
        found := found + 1;
        now := now + [entry];
        assert now == seen + LineMatches(path, lines[..i + 1], matches);
        if |entries| > PAGE {
          LinesGrow(path, lines, matches, i + 1);
          return;
        }
      }
    }
    assert lines[..|lines|] == lines;
  }

  lemma {:induction false} LinesGrow(path: string, lines: seq<string>, matches: string -> bool, i: nat)
    requires i <= |lines|
    ensures LineMatches(path, lines[..i], matches) <= LineMatches(path, lines, matches)
    decreases |lines| - i
  {
    if i < |lines| {
      LinesGrow(path, lines, matches, i + 1);
      assert lines[..i + 1][..i] == lines[..i];
    } else {
      assert lines[..i] == lines;
    }
  }

  lemma {:induction false} MatchesGrow(items: seq<Item>, matches: string -> bool, i: nat, j: nat)
    requires i <= j <= |items|
    ensures ContentMatches(items[..i], matches) <= ContentMatches(items[..j], matches)
    decreases j - i
  {
    hide ContentMatches, ItemMatches;
    if i < j {
      MatchesGrow(items, matches, i, j - 1);
      OneMoreItem(items, j - 1, matches);
    }
  }

  predicate AnySkipped(items: seq<Item>, reading: bool) {
    exists k :: 0 <= k < |items| && Skipped(items[k], reading)
  }

  /** The listing may miss matches: the walk ended early or passed something over. */
  predicate Incomplete(items: seq<Item>, deadline: nat, reading: bool) {
    var reach := Reach(items, 0, deadline, reading);
    reach < |items| || AnySkipped(items[..reach], reading)
  }

  lemma SkippedSoFar(items: seq<Item>, i: nat, reading: bool)
    requires i < |items|
    ensures AnySkipped(items[..i + 1], reading) <==> AnySkipped(items[..i], reading) || Skipped(items[i], reading)
  {
    if AnySkipped(items[..i], reading) {
      var k :| 0 <= k < i && Skipped(items[..i][k], reading);
      assert items[..i + 1][k] == items[..i][k];
    }
    if Skipped(items[i], reading) {
      assert items[..i + 1][i] == items[i];
    }
  }

  lemma SkipsLast(items: seq<Item>, i: nat, j: nat, reading: bool)
    requires i <= j <= |items| && AnySkipped(items[..i], reading)
    ensures AnySkipped(items[..j], reading)
  {
    var k :| 0 <= k < i && Skipped(items[..i][k], reading);
    assert items[..j][k] == items[..i][k];
  }

  lemma OneMoreItem(items: seq<Item>, i: nat, matches: string -> bool)
    requires i < |items|
    ensures ContentMatches(items[..i + 1], matches) == ContentMatches(items[..i], matches) + ItemMatches(items[i], matches)
    ensures Spent(items[..i + 1]) == Spent(items[..i]) + Bytes(items[i])
  {
    assert items[..i + 1][..i] == items[..i];
  }

  /** Walks the files and collects the matching lines of the page and one more. */
  method ScanFiles(items: seq<Item>, matches: string -> bool, cursor: nat, deadline: nat)
    returns (entries: seq<Entry>, truncated: bool, ghost seen: seq<Entry>)
    ensures entries == Window(seen, cursor) && |entries| <= PAGE + 1
    ensures var all := ContentMatches(items[..Reach(items, 0, deadline, true)], matches);
            seen <= all && (|entries| <= PAGE ==> seen == all)
    ensures truncated ==> Incomplete(items, deadline, true)
    ensures |entries| <= PAGE && Incomplete(items, deadline, true) ==> truncated
  {
    hide Stops, ContentMatches, ItemMatches, LineMatches, AnySkipped, Window, Bytes, Spent;
    ghost var reach := Reach(items, 0, deadline, true);
    var bytes, found := 0, 0;
    entries, truncated, seen := [], false, [];
    Unstarted(items, matches, cursor);
    for i := 0 to |items|
      invariant i <= reach
      invariant bytes == Spent(items[..i]) && seen == ContentMatches(items[..i], matches)
      invariant found == |seen| && entries == Window(seen, cursor) && |entries| <= PAGE
      invariant truncated <==> AnySkipped(items[..i], true)
    {
      StopsHere(items, i, deadline, true);
      if i >= SCAN || bytes >= 64 * FILE_BYTES || i >= deadline {
        truncated := true;
        return;
      }
      SkippedSoFar(items, i, true);
      OneMoreItem(items, i, matches);
      MatchesGrow(items, matches, i + 1, reach);
      if AnySkipped(items[..i + 1], true) {
        SkipsLast(items, i + 1, reach, true);
      }
      WhatItHolds(items[i], matches);
      match items[i]
      case File(path, content) =>
        if content.Unreadable? {
          truncated := true;
          continue;
        }
        bytes := bytes + content.bytes;
        if content.bytes > FILE_BYTES {
          truncated := true;
          continue;
        }
        if content.lines.Some? {
          found, entries, seen := ScanLines(path, content.lines.value, matches, cursor, found, entries, seen);
          if |entries| > PAGE {
            return;
          }
        }
      case NotAFile =>
      case Escapes =>
      case _ => truncated := true;
    }
  }

  lemma Unstarted(items: seq<Item>, matches: string -> bool, cursor: nat)
    ensures Spent(items[..0]) == 0 && ContentMatches(items[..0], matches) == [] && Window([], cursor) == []
    ensures !AnySkipped(items[..0], true) && !AnySkipped(items[..0], false)
  {
  }

  lemma StopsHere(items: seq<Item>, i: nat, deadline: nat, reading: bool)
    requires i < |items| && i <= Reach(items, 0, deadline, reading)
    ensures (i >= SCAN || (reading && Spent(items[..i]) >= 64 * FILE_BYTES) || i >= deadline)
            <==> i == Reach(items, 0, deadline, reading)
  {
    if i < Reach(items, 0, deadline, reading) {
      assert !Stops(items, i, deadline, reading);
    } else {
      assert Stops(items, i, deadline, reading);
    }
  }

  lemma WhatItHolds(item: Item, matches: string -> bool)
    ensures Bytes(item) == if item.File? && item.content.Read? then item.content.bytes else 0
    ensures ItemMatches(item, matches)
            == if item.File? && item.content.Read? && item.content.bytes <= FILE_BYTES && item.content.lines.Some?
               then LineMatches(item.path, item.content.lines.value, matches) else []
  {
  }

  lemma PageIsThePage(all: seq<Entry>, seen: seq<Entry>, cursor: nat)
    requires seen <= all && |Window(seen, cursor)| <= PAGE + 1
    requires |Window(seen, cursor)| <= PAGE ==> seen == all
    ensures var held := Window(seen, cursor);
            && PageOf(all, cursor) == (if |held| > PAGE then held[..PAGE] else held)
            && NextCursor(all, cursor) == if |held| > PAGE then Some(cursor + PAGE) else None
  {
  }

  /** One page of a content search: the same slice of the full list of matches, whether or not the
      walk stopped early, and a next cursor exactly when there is more. */
  method SearchContent(items: seq<Item>, matches: string -> bool, cursor: nat, deadline: nat) returns (r: Listing)
    ensures var all := ContentMatches(items[..Reach(items, 0, deadline, true)], matches);
            r.entries == PageOf(all, cursor) && r.next == NextCursor(all, cursor)
    ensures r.truncated ==> Incomplete(items, deadline, true)
    ensures r.next.None? && Incomplete(items, deadline, true) ==> r.truncated
  {
    hide ContentMatches, Incomplete, Window, NextCursor, PageOf;
    var entries, truncated, seen := ScanFiles(items, matches, cursor, deadline);
    PageIsThePage(ContentMatches(items[..Reach(items, 0, deadline, true)], matches), seen, cursor);
    if |entries| > PAGE {
      r := Listing(entries[..PAGE], Some(cursor + PAGE), truncated);
    } else {
      r := Listing(entries, None, truncated);
    }
  }

  lemma OneMoreName(items: seq<Item>, i: nat, fold: string -> string, query: string)
    requires i < |items|
    ensures NameMatches(items[..i + 1], fold, query) == NameMatches(items[..i], fold, query) + ItemNames(items[i], fold, query)
  {
    assert items[..i + 1][..i] == items[..i];
  }

  /** Ranks every file of the bounded walk. */
  method RankFiles(items: seq<Item>, fold: string -> string, query: string, deadline: nat)
    returns (ranked: seq<Match>, truncated: bool)
    ensures ranked == NameMatches(items[..Reach(items, 0, deadline, false)], fold, query)
    ensures truncated <==> Incomplete(items, deadline, false)
  {
    hide Stops, NameRank, AnySkipped, Spent, NameMatches;
    ghost var reach := Reach(items, 0, deadline, false);
    ranked, truncated := [], false;
    Unstarted(items, _ => false, 0);
    assert NameMatches([], fold, query) == [] by { NothingNamed(fold, query); }
    for i := 0 to |items|
      invariant i <= reach
      invariant ranked == NameMatches(items[..i], fold, query)
      invariant truncated <==> AnySkipped(items[..i], false)
    {
      StopsHere(items, i, deadline, false);
      if i >= SCAN || i >= deadline {
        truncated := true;
        return;
      }
      SkippedSoFar(items, i, false);
      OneMoreName(items, i, fold, query);
      match items[i]
      case File(path, _) =>
        var rank := NameRank(path, fold(path), query);
        if rank.Some? {
          ranked := ranked + [Match(rank.value, path)];
        }
      case NotAFile =>
      case Escapes =>
      case _ => truncated := true;
    }
  }

  lemma NothingNamed(fold: string -> string, query: string)
    ensures NameMatches([], fold, query) == []
  {
  }

  /** One page of a name search: every match of the bounded walk is ranked before paging. */
  method SearchNames(items: seq<Item>, fold: string -> string, query: string, cursor: nat, deadline: nat) returns (r: Listing)
    ensures var all := Named(Sort(NameMatches(items[..Reach(items, 0, deadline, false)], fold, query)));
            r.entries == PageOf(all, cursor) && r.next == NextCursor(all, cursor)
    ensures r.truncated <==> Incomplete(items, deadline, false)
  {
    hide NameMatches, Sort, Incomplete, Reach;
    var ranked, truncated := RankFiles(items, fold, query, deadline);
    var all := Named(Sort(ranked));
    var start := if cursor < |all| then cursor else |all|;
    var held := if |all| - start > PAGE + 1 then all[start..start + PAGE + 1] else all[start..];
    if |held| > PAGE {
      assert held[..PAGE] == all[start..][..PAGE];
      r := Listing(held[..PAGE], Some(cursor + PAGE), truncated);
    } else {
      r := Listing(held, None, truncated);
    }
  }

  // ---------------------------------------------------------------- requests

  datatype Answer = Answer(listing: Listing, tooLarge: bool)

  function Folded(fold: string -> string, caseSensitive: bool): string -> string {
    if caseSensitive then (s: string) => s else fold
  }

  function Matching(fold: string -> string, query: string): string -> bool {
    (s: string) => Contains(fold(s), query)
  }

  /** Every match of the query in the bounded walk, in the order it is listed. */
  function AllMatches(items: seq<Item>, fold: string -> string, q: Query, deadline: nat): seq<Entry> {
    var folded := Folded(fold, q.caseSensitive);
    var visited := items[..Reach(items, 0, deadline, q.content)];
    if q.content then ContentMatches(visited, Matching(folded, folded(q.text)))
    else Named(Sort(NameMatches(visited, folded, folded(q.text))))
  }

  /** A blank query finds nothing; an oversized query or cursor is refused; anything else is
      answered with its page of all the matches. */
  method Search(items: seq<Item>, fold: string -> string, q: Query, deadline: nat) returns (a: Answer)
    ensures a.tooLarge <==> Trim(q.text) != "" && (ByteLength(q.text) > 1000 || q.cursor > SCAN)
    ensures Trim(q.text) == "" || a.tooLarge ==> a.listing == Listing([], None, false)
    ensures Trim(q.text) != "" && !a.tooLarge ==>
              var all := AllMatches(items, fold, q, deadline);
              && a.listing.entries == PageOf(all, q.cursor) && a.listing.next == NextCursor(all, q.cursor)
              && (a.listing.next.None? ==> (a.listing.truncated <==> Incomplete(items, deadline, q.content)))
  {
    hide ContentMatches, NameMatches, Sort, Named, PageOf, NextCursor, Incomplete, Trim, ByteLength;
    if Trim(q.text) == "" {
      return Answer(Listing([], None, false), false);
    }
    if ByteLength(q.text) > 1000 || q.cursor > SCAN {
      return Answer(Listing([], None, false), true);
    }
    var folded := Folded(fold, q.caseSensitive);
    var query := folded(q.text);
    var listing;
    if q.content {
      listing := SearchContent(items, Matching(folded, query), q.cursor, deadline);
    } else {
      listing := SearchNames(items, folded, query, q.cursor, deadline);
    }
    a := Answer(listing, false);
  }

  /** A name search is always read to its end: the walk visits too few files to pass the limit. */
  lemma NameSearchIsComplete(items: seq<Item>, fold: string -> string, q: Query, deadline: nat)
    requires !q.content
    ensures Gathered(AllMatches(items, fold, q, deadline), 0, Some(SCAN)) == AllMatches(items, fold, q, deadline)
  {
    hide Gathered, Sort, NameRank;
    var reach := Reach(items, 0, deadline, false);
    assert |items| > SCAN ==> Stops(items, SCAN, deadline, false);
    assert reach <= SCAN;
    SearchIsCompleteExactlyUpToLimit(AllMatches(items, fold, q, deadline));
  }

  lemma {:induction false} NamesAppend(a: seq<Item>, b: seq<Item>, fold: string -> string, query: string)
    ensures NameMatches(a + b, fold, query) == NameMatches(a, fold, query) + NameMatches(b, fold, query)
    decreases |b|
  {
    hide ItemNames, NameMatches;
    if b == [] {
      assert a + b == a;
      NothingNamed(fold, query);
    } else {
      var n := |b| - 1;
      NamesAppend(a, b[..n], fold, query);
      OneMoreName(b, n, fold, query);
      OneMoreName(a + b, |a| + n, fold, query);
      assert b[..n + 1] == b && (a + b)[..|a| + n] == a + b[..n] && (a + b)[..|a| + n + 1] == a + b;
    }
  }

  /** Taking one item out of the walk takes out what it names. */
  lemma NamesWithout(items: seq<Item>, j: nat, fold: string -> string, query: string)
    requires j < |items|
    ensures multiset(NameMatches(items, fold, query))
            == multiset(NameMatches(items[..j] + items[j + 1..], fold, query)) + multiset(ItemNames(items[j], fold, query))
  {
    hide ItemNames;
    var a, x, b := items[..j], [items[j]], items[j + 1..];
    assert items == a + x + b;
    NamesAppend(a + x, b, fold, query);
    NamesAppend(a, x, fold, query);
    NamesAppend(a, b, fold, query);
    assert x[..0] == [];
    assert NameMatches(x, fold, query) == ItemNames(items[j], fold, query);
    hide NameMatches;
  }

  lemma SameSize<T>(a: seq<T>, b: seq<T>)
    requires multiset(a) == multiset(b)
    ensures |a| == |b|
  {
    assert |a| == |multiset(a)| && |b| == |multiset(b)|;
  }

  /** Where a rearrangement holds the first element; without it the rests are rearrangements too. */
  lemma FirstElsewhere<T>(a: seq<T>, b: seq<T>) returns (j: nat)
    requires multiset(a) == multiset(b) && a != []
    ensures j < |b| && b[j] == a[0] && multiset(a[1..]) == multiset(b[..j] + b[j + 1..])
  {
    var x := a[0];
    assert x in multiset(a);
    assert x in b;
    j :| 0 <= j < |b| && b[j] == x;
    assert a == [x] + a[1..];
    assert b == b[..j] + [x] + b[j + 1..];
    assert multiset(a) == multiset{x} + multiset(a[1..]);
    assert multiset(b) == multiset{x} + multiset(b[..j] + b[j + 1..]);
    assert multiset(a[1..]) == multiset(a) - multiset{x} == multiset(b[..j] + b[j + 1..]);
  }

  lemma {:induction false} SameFilesSameMatches(a: seq<Item>, b: seq<Item>, fold: string -> string, query: string)
    requires multiset(a) == multiset(b)
    ensures multiset(NameMatches(a, fold, query)) == multiset(NameMatches(b, fold, query))
    decreases |a|
  {
    hide ItemNames, NameMatches;
    if a == [] {
      SameSize(a, b);
    } else {
      var j := FirstElsewhere(a, b);
      SameFilesSameMatches(a[1..], b[..j] + b[j + 1..], fold, query);
      NamesWithout(a, 0, fold, query);
      NamesWithout(b, j, fold, query);
      assert a[..0] + a[1..] == a[1..];
    }
  }

  /** Two walks that visit the same files in different orders list the same names, page for page. */
  lemma NameSearchIgnoresWalkOrder(a: seq<Item>, b: seq<Item>, fold: string -> string, q: Query, deadline: nat)
    requires !q.content
    requires multiset(a[..Reach(a, 0, deadline, false)]) == multiset(b[..Reach(b, 0, deadline, false)])
    ensures AllMatches(a, fold, q, deadline) == AllMatches(b, fold, q, deadline)
  {
    hide NameMatches, Sort, Reach;
    var folded := Folded(fold, q.caseSensitive);
    var x, y := a[..Reach(a, 0, deadline, false)], b[..Reach(b, 0, deadline, false)];
    SameFilesSameMatches(x, y, folded, folded(q.text));
    WalkOrderIsInvisible(NameMatches(x, folded, folded(q.text)), NameMatches(y, folded, folded(q.text)));
  }

  // ---------------------------------------------------------------- a search too long to read

  lemma {:induction false} EveryLineListed(path: string, lines: seq<string>, matches: string -> bool)
    requires forall i :: 0 <= i < |lines| ==> matches(lines[i])
    ensures |LineMatches(path, lines, matches)| == |lines|
    decreases |lines|
  {
    if lines != [] {
      EveryLineListed(path, lines[..|lines| - 1], matches);
    }
  }

  /** A readable file all of whose lines match gives a search as many matches as it has lines. */
  lemma OneFileMatches(path: string, bytes: nat, lines: seq<string>, fold: string -> string, q: Query, deadline: nat)
    requires q.content && deadline > 0 && bytes <= FILE_BYTES
    requires var folded := Folded(fold, q.caseSensitive);
             forall i :: 0 <= i < |lines| ==> Matching(folded, folded(q.text))(lines[i])
    ensures |AllMatches([File(path, Read(bytes, Some(lines)))], fold, q, deadline)| == |lines|
  {
    var items := [File(path, Read(bytes, Some(lines)))];
    var folded := Folded(fold, q.caseSensitive);
    var matches := Matching(folded, folded(q.text));
    assert items[..0] == [] && items[..1] == items;
    assert !Stops(items, 0, deadline, true);
    assert Reach(items, 0, deadline, true) == 1;
    OneMoreItem(items, 0, matches);
    EveryLineListed(path, lines, matches);
  }

  /** 20 201 lines that hold the query are enough: a client that follows every cursor the search offers
      does not get them all, because the last cursor offered is refused. */
  lemma LongSearchIsCutOff(path: string, fold: string -> string, deadline: nat)
    requires deadline > 0
    ensures var lines := seq(SCAN + PAGE + 1, i => "x");
            var items := [File(path, Read(2 * |lines|, Some(lines)))];
            var all := AllMatches(items, fold, Query("x", true, true, 0), deadline);
            Gathered(all, 0, Some(SCAN)) != all && NextCursor(all, SCAN) == Some(SCAN + PAGE)
  {
    var lines := seq(SCAN + PAGE + 1, i => "x");
    var q := Query("x", true, true, 0);
    var folded := Folded(fold, true);
    assert OccursAt("x", "x", 0);
    assert forall i :: 0 <= i < |lines| ==> Matching(folded, folded(q.text))(lines[i]);
    OneFileMatches(path, 2 * |lines|, lines, fold, q, deadline);
    hide AllMatches, Gathered;
    SearchIsCompleteExactlyUpToLimit(AllMatches([File(path, Read(2 * |lines|, Some(lines)))], fold, q, deadline));
  }

  // ---------------------------------------------------------------- what a search lists

  /** The text a search compares: as it is when case matters, and folded otherwise. */
  predicate Hits(line: string, q: Query, fold: string -> string) {
    if q.caseSensitive then Contains(line, q.text) else Contains(fold(line), fold(q.text))
  }

  /** The item is a file that is read and the line is one of its lines. */
  predicate HasLine(item: Item, path: string, n: nat, line: string) {
    && item.File? && item.path == path && item.content.Read? && item.content.bytes <= 1_048_576
    && item.content.lines.Some? && 1 <= n <= |item.content.lines.value| && item.content.lines.value[n - 1] == line
  }

  lemma {:induction false} LinesListed(path: string, lines: seq<string>, matches: string -> bool, e: Entry)
    ensures e in LineMatches(path, lines, matches)
            <==> && e.path == path && e.line.Some? && 1 <= e.line.value <= |lines|
                 && matches(lines[e.line.value - 1]) && e.text == Some(Clip(lines[e.line.value - 1]))
    decreases |lines|
  {
    if lines != [] {
      LinesListed(path, lines[..|lines| - 1], matches, e);
    }
  }

  ghost predicate ListedFrom(item: Item, matches: string -> bool, e: Entry) {
    exists line :: Shows(item, matches, e, line)
  }

  predicate Shows(item: Item, matches: string -> bool, e: Entry, line: string) {
    e.line.Some? && HasLine(item, e.path, e.line.value, line) && matches(line) && e.text == Some(Clip(line))
  }

  lemma ItemListed(item: Item, matches: string -> bool, e: Entry)
    ensures e in ItemMatches(item, matches) <==> ListedFrom(item, matches, e)
  {
    hide LineMatches, Clip;
    if item.File? && item.content.Read? && item.content.lines.Some? {
      LinesListed(item.path, item.content.lines.value, matches, e);
      if e.line.Some? && 1 <= e.line.value <= |item.content.lines.value| {
        var line := item.content.lines.value[e.line.value - 1];
        assert e in ItemMatches(item, matches) ==> Shows(item, matches, e, line);
      }
    }
  }

  lemma {:induction false} ItemsListed(items: seq<Item>, matches: string -> bool, e: Entry)
    ensures e in ContentMatches(items, matches) <==> exists i :: 0 <= i < |items| && ListedFrom(items[i], matches, e)
    decreases |items|
  {
    hide ItemMatches, ListedFrom;
    if items != [] {
      var init := items[..|items| - 1];
      ItemsListed(init, matches, e);
      ItemListed(items[|items| - 1], matches, e);
      if e in ContentMatches(init, matches) {
        var i :| 0 <= i < |init| && ListedFrom(init[i], matches, e);
        assert ListedFrom(items[i], matches, e);
      }
    }
  }

  predicate Lists(item: Item, q: Query, fold: string -> string, e: Entry, line: string) {
    && e.line.Some? && HasLine(item, e.path, e.line.value, line) && Hits(line, q, fold)
    && e.text == Some(if |line| <= 500 then line else line[..500])
  }

  function Wanted(fold: string -> string, q: Query): string -> bool {
    Matching(Folded(fold, q.caseSensitive), Folded(fold, q.caseSensitive)(q.text))
  }

  lemma WantedLines(item: Item, q: Query, fold: string -> string, e: Entry, line: string)
    ensures Lists(item, q, fold, e, line) <==> Shows(item, Wanted(fold, q), e, line)
  {
    hide Contains;
    assert Wanted(fold, q)(line) <==> Hits(line, q, fold);
  }

  /** A content search lists exactly the lines of the visited files that hold the query: as typed when
      case matters, and otherwise both folded.  Long lines are cut to 500 characters. */
  lemma ContentSearchListsTheLines(items: seq<Item>, fold: string -> string, q: Query, deadline: nat, e: Entry)
    requires q.content
    ensures e in AllMatches(items, fold, q, deadline)
            <==> exists i, line :: 0 <= i < Reach(items, 0, deadline, true) && Lists(items[i], q, fold, e, line)
  {
    hide ContentMatches, Lists, Shows, Reach;
    var visited := items[..Reach(items, 0, deadline, true)];
    assert AllMatches(items, fold, q, deadline) == ContentMatches(visited, Wanted(fold, q));
    hide AllMatches, Wanted;
    ItemsListed(visited, Wanted(fold, q), e);
    if i :| 0 <= i < |visited| && ListedFrom(visited[i], Wanted(fold, q), e) {
      var line :| Shows(visited[i], Wanted(fold, q), e, line);
      WantedLines(items[i], q, fold, e, line);
    }
    if i, line :| 0 <= i < |visited| && Lists(items[i], q, fold, e, line) {
      WantedLines(items[i], q, fold, e, line);
      assert ListedFrom(visited[i], Wanted(fold, q), e);
    }
  }

  // ---------------------------------------------------------------- the order of a name search

  /** How a name search ranks a path. */
  function RankOf(path: string, fold: string -> string, q: Query): Option<Rank> {
    if q.caseSensitive then NameRank(path, path, q.text) else NameRank(path, fold(path), fold(q.text))
  }

  lemma {:induction false} MatchesAreRanked(items: seq<Item>, fold: string -> string, query: string, m: Match)
    ensures m in NameMatches(items, fold, query)
            <==> && NameRank(m.path, fold(m.path), query) == Some(m.rank)
                 && exists i :: 0 <= i < |items| && items[i].File? && items[i].path == m.path
    decreases |items|
  {
    hide NameRank;
    if items != [] {
      var init := items[..|items| - 1];
      MatchesAreRanked(init, fold, query, m);
      assert forall i :: 0 <= i < |init| ==> init[i] == items[i];
    }
  }

  /** A name search lists exactly the visited files whose path holds the query's characters in order,
      the best tier first, then the shorter path, then the alphabet. */
  lemma NameSearchListsBestFirst(items: seq<Item>, fold: string -> string, q: Query, deadline: nat, i: nat, j: nat)
    requires !q.content && i < j < |AllMatches(items, fold, q, deadline)|
    ensures var all := AllMatches(items, fold, q, deadline);
            var a, b := RankOf(all[i].path, fold, q), RankOf(all[j].path, fold, q);
            && a.Some? && b.Some? && a.value.tier <= b.value.tier
            && (a.value.tier == b.value.tier ==> a.value.length <= b.value.length)
            && (a == b ==> all[i].path == all[j].path || Alphabetical(all[i].path, all[j].path))
  {
    hide NameMatches, Sort, NameRank, Alphabetical, Reach;
    var folded := Folded(fold, q.caseSensitive);
    var matches := NameMatches(items[..Reach(items, 0, deadline, false)], folded, folded(q.text));
    var sorted := Sort(matches);
    assert AllMatches(items, fold, q, deadline) == Named(sorted);
    ListedBestFirst(matches, i, j);
    SortedIsListed(matches, i);
    SortedIsListed(matches, j);
    MatchesAreRanked(items[..Reach(items, 0, deadline, false)], folded, folded(q.text), sorted[i]);
    MatchesAreRanked(items[..Reach(items, 0, deadline, false)], folded, folded(q.text), sorted[j]);
  }

  lemma SortedIsListed(matches: seq<Match>, i: nat)
    requires i < |matches|
    ensures Sort(matches)[i] in matches
  {
    hide Sort;
    assert Sort(matches)[i] in multiset(Sort(matches));
  }

  /** A visited file is listed by a name search exactly when its path holds the query's visible
      characters in order, folded unless case matters. */
  lemma NameSearchListsTheFiles(items: seq<Item>, fold: string -> string, q: Query, deadline: nat, path: string)
    requires !q.content
    ensures Entry(path, None, None) in AllMatches(items, fold, q, deadline)
            <==> && (exists i :: 0 <= i < Reach(items, 0, deadline, false) && items[i].File? && items[i].path == path)
                 && if q.caseSensitive then InOrder(path, q.text) else InOrder(fold(path), fold(q.text))
  {
    hide NameMatches, Sort, NameRank, InOrder, Reach;
    var folded, visited := Folded(fold, q.caseSensitive), items[..Reach(items, 0, deadline, false)];
    var matches := NameMatches(visited, folded, folded(q.text));
    var all := AllMatches(items, fold, q, deadline);
    assert all == Named(Sort(matches));
    RankIsBestTier(path, folded(path), folded(q.text));
    var rank := NameRank(path, folded(path), folded(q.text));
    if rank.Some? {
      var m := Match(rank.value, path);
      MatchesAreRanked(visited, folded, folded(q.text), m);
      if m in matches {
        SortKeeps(matches, m);
      }
    }
    if Entry(path, None, None) in all {
      var i :| 0 <= i < |all| && all[i] == Entry(path, None, None);
      SortedIsListed(matches, i);
      MatchesAreRanked(visited, folded, folded(q.text), Sort(matches)[i]);
    }
  }

  lemma SortKeeps(matches: seq<Match>, m: Match)
    requires m in matches
    ensures Entry(m.path, None, None) in Named(Sort(matches))
  {
    hide Sort;
    assert m in multiset(matches);
    assert m in Sort(matches);
    var k :| 0 <= k < |Sort(matches)| && Sort(matches)[k] == m;
    assert Named(Sort(matches))[k] == Entry(m.path, None, None);
  }

  // ---------------------------------------------------------------- what truncated means

  /** The search could not look at this item: the walk failed there, its path is not text, or its contents
      are wanted and cannot be read or pass 1 MiB. */
  predicate Unlooked(item: Item, reading: bool) {
    match item
    case Failed => true
    case Unnamed => true
    case File(_, content) => reading && !(content.Read? && content.bytes <= 1_048_576)
    case _ => false
  }

  predicate PassedOver(items: seq<Item>, i: nat, deadline: nat, reading: bool)
    requires i < |items|
  {
    i >= Reach(items, 0, deadline, reading) || Unlooked(items[i], reading)
  }

  lemma FirstSkipped(items: seq<Item>, reading: bool) returns (k: nat)
    requires AnySkipped(items, reading)
    ensures k < |items| && Unlooked(items[k], reading)
  {
    k :| 0 <= k < |items| && Skipped(items[k], reading);
  }

  lemma SkippedIsAny(items: seq<Item>, i: nat, reading: bool)
    requires i < |items| && Unlooked(items[i], reading)
    ensures AnySkipped(items, reading)
  {
    assert Skipped(items[i], reading);
  }

  /** A listing is called incomplete exactly when the walk did not reach some item or could not look at
      one. */
  lemma IncompleteExactlyWhenPassedOver(items: seq<Item>, deadline: nat, reading: bool)
    ensures Incomplete(items, deadline, reading)
            <==> exists i :: 0 <= i < |items| && PassedOver(items, i, deadline, reading)
  {
    hide Stops, AnySkipped;
    var reach := Reach(items, 0, deadline, reading);
    if reach < |items| {
      assert PassedOver(items, reach, deadline, reading);
    }
    if AnySkipped(items[..reach], reading) {
      var k := FirstSkipped(items[..reach], reading);
      assert PassedOver(items, k, deadline, reading);
    }
    if i :| 0 <= i < |items| && PassedOver(items, i, deadline, reading) {
      if i < reach {
        SkippedIsAny(items[..reach], i, reading);
      } else {
        assert Incomplete(items, deadline, reading);
      }
    }
  }

  /** The walk visits at most 20 000 items, none once the time is up, and reads none after 64 MiB; it ends
      early for one of these reasons only. */
  lemma WalkEndsForAReason(items: seq<Item>, deadline: nat, reading: bool)
    ensures var reach := Reach(items, 0, deadline, reading);
            && reach <= 20_000 && reach <= deadline
            && (reading ==> forall k :: 0 <= k < reach ==> Spent(items[..k]) < 67_108_864)
            && (reach < |items| ==> reach == 20_000 || reach == deadline || (reading && Spent(items[..reach]) >= 67_108_864))
  {
    hide Spent;
    var reach := Reach(items, 0, deadline, reading);
    forall k | 0 <= k < reach
      ensures reading ==> Spent(items[..k]) < 67_108_864
    {
      assert !Stops(items, k, deadline, reading);
    }
    if reach > 0 {
      assert !Stops(items, reach - 1, deadline, reading);
    }
  }

  /** A page is 200 entries from its cursor, or what is left; the next cursor is offered exactly while
      something is left. */
  lemma PagesAreOf200(all: seq<Entry>, cursor: nat)
    ensures |PageOf(all, cursor)| == (if |all| <= cursor then 0 else if |all| - cursor < 200 then |all| - cursor else 200)
    ensures forall i :: 0 <= i < |PageOf(all, cursor)| ==> cursor + i < |all| && PageOf(all, cursor)[i] == all[cursor + i]
    ensures NextCursor(all, cursor) == if |all| > cursor + 200 then Some(cursor + 200) else None
  {
  }
}
