/**
 Ranking files by name (project_files.rs): how well a path matches a query, and the order the
 matches are listed in.
 */
module NameSearch {
  import opened Prelude
  import opened Text

  /** What follows the last slash. */
  function FileName(path: string): (r: string)
    ensures |r| <= |path| && path[|path| - |r|..] == r && '/' !in r
    ensures |r| < |path| ==> path[|path| - |r| - 1] == '/'
  {
    if path == "" then ""
    else if path[|path| - 1] == '/' then ""
    else
      var r := FileName(path[..|path| - 1]);
      assert path == path[..|path| - 1] + [path[|path| - 1]];
      r + [path[|path| - 1]]
  }

  // ---------------------------------------------------------------- characters in order

  /** The source's scan: each query character in turn is looked for in what is left of the text. */
  predicate InOrder(text: string, query: string)
    decreases |query|
  {
    if query == "" then true
    else if IsWhitespace(query[0]) then InOrder(text, query[1..])
    else
      var at := Find(text, query[0]);
      at.Some? && InOrder(text[at.value + 1..], query[1..])
  }

  function Visible(query: string): string {
    if query == "" then ""
    else if IsWhitespace(query[0]) then Visible(query[1..])
    else [query[0]] + Visible(query[1..])
  }

  /** `places` are increasing positions of `text` that spell `word`. */
  predicate Spells(text: string, word: string, places: seq<nat>) {
    && |places| == |word|
    && (forall i :: 0 <= i < |places| ==> places[i] < |text| && text[places[i]] == word[i])
    && (forall i, j :: 0 <= i < j < |places| ==> places[i] < places[j])
  }

  function Shifted(places: seq<nat>, offset: nat): (r: seq<nat>)
    ensures |r| == |places| && forall i :: 0 <= i < |r| ==> r[i] == places[i] + offset
  {
    seq(|places|, i requires 0 <= i < |places| => places[i] + offset)
  }

  lemma NothingSpells(text: string)
    ensures Spells(text, "", [])
  {
  }

  lemma SpellsOneMore(text: string, at: nat, word: string, rest: seq<nat>)
    requires at < |text| && Spells(text[at + 1..], word, rest)
    ensures Spells(text, [text[at]] + word, [at] + Shifted(rest, at + 1))
  {
    var places := [at] + Shifted(rest, at + 1);
    forall i | 0 <= i < |places|
      ensures places[i] < |text| && text[places[i]] == ([text[at]] + word)[i]
    {
      if i > 0 {
        assert text[at + 1..][rest[i - 1]] == word[i - 1];
      }
    }
  }

  lemma SpellsOneLess(text: string, at: nat, word: string, places: seq<nat>) returns (rest: seq<nat>)
    requires word != "" && Spells(text, word, places) && at <= places[0]
    ensures Spells(text[at + 1..], word[1..], rest)
  {
    rest := seq(|places| - 1, i requires 0 <= i < |places| - 1 => (places[i + 1] - (at + 1)) as nat);
    forall i | 0 <= i < |rest|
      ensures rest[i] < |text[at + 1..]| && text[at + 1..][rest[i]] == word[1..][i]
    {
      assert text[places[i + 1]] == word[i + 1];
    }
  }

  lemma {:induction false} FirstComesFirst(text: string, c: char, i: nat)
    requires i < |text| && text[i] == c
    ensures Find(text, c).Some? && Find(text, c).value <= i
    decreases |text|
  {
    if text[0] != c {
      FirstComesFirst(text[1..], c, i - 1);
    }
  }

  lemma {:induction false} InOrderSpells(text: string, query: string) returns (places: seq<nat>)
    requires InOrder(text, query)
    ensures Spells(text, Visible(query), places)
    decreases |query|
  {
    hide Spells;
    if query == "" {
      places := [];
      NothingSpells(text);
    } else if IsWhitespace(query[0]) {
      places := InOrderSpells(text, query[1..]);
    } else {
      var at := Find(text, query[0]).value;
      var rest := InOrderSpells(text[at + 1..], query[1..]);
      SpellsOneMore(text, at, Visible(query[1..]), rest);
      places := [at] + Shifted(rest, at + 1);
    }
  }

  /** The greedy scan never misses: taking the first occurrence leaves the most text. */
  lemma {:induction false} SpelledIsInOrder(text: string, query: string, places: seq<nat>)
    requires Spells(text, Visible(query), places)
    ensures InOrder(text, query)
    decreases |query|
  {
    if query == "" {
    } else if IsWhitespace(query[0]) {
      SpelledIsInOrder(text, query[1..], places);
    } else {
      FirstComesFirst(text, query[0], places[0]);
      var at := Find(text, query[0]).value;
      var rest := SpellsOneLess(text, at, Visible(query), places);
      assert Visible(query)[1..] == Visible(query[1..]);
      SpelledIsInOrder(text[at + 1..], query[1..], rest);
    }
  }

  /** The query's visible characters occur in the text in order exactly when the scan says so. */
  lemma InOrderIsEmbedding(text: string, query: string)
    ensures InOrder(text, query) <==> exists places :: Spells(text, Visible(query), places)
  {
    hide InOrder, Spells, Visible;
    if InOrder(text, query) {
      var places := InOrderSpells(text, query);
      assert Spells(text, Visible(query), places);
    }
    if exists places :: Spells(text, Visible(query), places) {
      var places :| Spells(text, Visible(query), places);
      SpelledIsInOrder(text, query, places);
    }
  }

  // ---------------------------------------------------------------- tiers

  datatype Rank = Rank(tier: nat, length: nat)

  /** How well a path matches; `text` is the path as compared, folded unless case matters. */
  function NameRank(path: string, text: string, query: string): Option<Rank> {
    var name := FileName(text);
    var length := ByteLength(path);
    if name == query then Some(Rank(0, length))
    else if StartsWith(name, query) then Some(Rank(1, length))
    else if Contains(name, query) then Some(Rank(2, length))
    else if Contains(text, query) then Some(Rank(3, length))
    else if InOrder(name, query) then Some(Rank(4, length))
    else if InOrder(text, query) then Some(Rank(5, length))
    else None
  }

  lemma {:induction false} InOrderInMore(before: string, text: string, after: string, query: string)
    requires InOrder(text, query)
    ensures InOrder(before + text + after, query)
  {
    hide InOrder;
    var places := InOrderSpells(text, query);
    assert Spells(before + text + after, Visible(query), Shifted(places, |before|)) by {
      hide Visible;
    }
    SpelledIsInOrder(before + text + after, query, Shifted(places, |before|));
  }

  lemma {:induction false} InOrderInItself(query: string)
    ensures InOrder(query, query)
    decreases |query|
  {
    if query != "" {
      InOrderInItself(query[1..]);
      assert query == [query[0]] + query[1..] + "";
      if IsWhitespace(query[0]) {
        InOrderInMore([query[0]], query[1..], "", query[1..]);
      } else {
        assert Find(query, query[0]) == Some(0);
      }
    }
  }

  lemma ContainedIsInOrder(text: string, query: string)
    requires Contains(text, query)
    ensures InOrder(text, query)
  {
    hide InOrder;
    var i :| 0 <= i <= |text| && OccursAt(text, query, i);
    InOrderInItself(query);
    InOrderInMore(text[..i], query, text[i + |query|..], query);
    assert text == text[..i] + query + text[i + |query|..];
  }

  lemma SuffixSlice(text: string, cut: nat, i: nat, length: nat)
    requires cut + i + length <= |text|
    ensures text[cut..][i..i + length] == text[cut + i..cut + i + length]
  {
  }

  lemma NameIsInText(text: string, query: string)
    ensures Contains(FileName(text), query) ==> Contains(text, query)
  {
    var name := FileName(text);
    var cut := |text| - |name|;
    if Contains(name, query) {
      var i :| 0 <= i <= |name| && OccursAt(name, query, i);
      SuffixSlice(text, cut, i, |query|);
      assert OccursAt(text, query, cut + i);
    }
  }

  lemma InNameIsInText(text: string, query: string)
    ensures InOrder(FileName(text), query) ==> InOrder(text, query)
  {
    hide InOrder;
    var name := FileName(text);
    if InOrder(name, query) {
      InOrderInMore(text[..|text| - |name|], name, "", query);
      assert text == text[..|text| - |name|] + name + "";
    }
  }

  /** What a tier promises of the path. */
  predicate Fits(tier: nat, text: string, query: string) {
    match tier
    case 0 => FileName(text) == query
    case 1 => StartsWith(FileName(text), query)
    case 2 => Contains(FileName(text), query)
    case 3 => Contains(text, query)
    case 4 => InOrder(FileName(text), query)
    case 5 => InOrder(text, query)
    case _ => false
  }

  lemma StartIsContained(name: string, query: string)
    requires name == query || StartsWith(name, query)
    ensures Contains(name, query)
  {
    assert name[..|query|] == query;
    assert OccursAt(name, query, 0);
  }

  lemma BetterTiersFitThePath(text: string, query: string, tier: nat)
    requires Fits(tier, text, query)
    ensures Fits(5, text, query)
  {
    hide InOrder, Contains, StartsWith, FileName;
    if tier <= 1 {
      StartIsContained(FileName(text), query);
    }
    NameIsInText(text, query);
    InNameIsInText(text, query);
    if tier <= 3 {
      ContainedIsInOrder(text, query);
    }
  }

  /** A path is listed exactly when the query's visible characters occur in it in order, and it is
      listed under the best tier it fits. */
  lemma RankIsBestTier(path: string, text: string, query: string)
    ensures NameRank(path, text, query).Some? <==> InOrder(text, query)
    ensures NameRank(path, text, query).Some? ==>
              var rank := NameRank(path, text, query).value;
              && rank.length == ByteLength(path) && Fits(rank.tier, text, query)
              && forall better :: 0 <= better < rank.tier ==> !Fits(better, text, query)
  {
    hide InOrder, Contains, StartsWith, FileName, ByteLength;
    if NameRank(path, text, query).Some? {
      BetterTiersFitThePath(text, query, NameRank(path, text, query).value.tier);
    }
  }

  // ---------------------------------------------------------------- order

  datatype Match = Match(rank: Rank, path: string)

  /** Code-point order, which UTF-8 byte order agrees with. */
  predicate PathBefore(a: string, b: string) {
    b != "" && (a == "" || a[0] < b[0] || (a[0] == b[0] && PathBefore(a[1..], b[1..])))
  }

  predicate Before(a: Match, b: Match) {
    || a.rank.tier < b.rank.tier
    || (a.rank.tier == b.rank.tier && a.rank.length < b.rank.length)
    || (a.rank == b.rank && PathBefore(a.path, b.path))
  }

  lemma {:induction false} PathOrderIsTotal(a: string, b: string)
    ensures PathBefore(a, b) || PathBefore(b, a) || a == b
    ensures !(PathBefore(a, b) && PathBefore(b, a))
    ensures PathBefore(a, b) ==> a != b
    decreases |a|
  {
    if a != "" && b != "" {
      PathOrderIsTotal(a[1..], b[1..]);
      assert a == [a[0]] + a[1..] && b == [b[0]] + b[1..];
    }
  }

  lemma {:induction false} PathOrderIsTransitive(a: string, b: string, c: string)
    requires PathBefore(a, b) && PathBefore(b, c)
    ensures PathBefore(a, c)
    decreases |a|
  {
    if a != "" && a[0] == b[0] == c[0] {
      PathOrderIsTransitive(a[1..], b[1..], c[1..]);
    }
  }

  lemma OrderIsTotal(a: Match, b: Match)
    ensures Before(a, b) || Before(b, a) || a == b
    ensures !(Before(a, b) && Before(b, a))
    ensures Before(a, b) ==> a != b
  {
    PathOrderIsTotal(a.path, b.path);
    hide PathBefore;
  }

  lemma OrderIsTransitive(a: Match, b: Match, c: Match)
    requires !Before(b, a) && !Before(c, b)
    ensures !Before(c, a)
  {
    PathOrderIsTotal(a.path, b.path);
    PathOrderIsTotal(b.path, c.path);
    PathOrderIsTotal(a.path, c.path);
    if PathBefore(a.path, b.path) && PathBefore(b.path, c.path) {
      PathOrderIsTransitive(a.path, b.path, c.path);
    }
    hide PathBefore;
  }

  predicate Ordered(s: seq<Match>) {
    forall i, j :: 0 <= i < j < |s| ==> !Before(s[j], s[i])
  }

  function Insert(m: Match, s: seq<Match>): (r: seq<Match>)
    ensures multiset(r) == multiset(s) + multiset{m}
    ensures |r| == |s| + 1
  {
    if s == [] || !Before(s[0], m) then [m] + s
    else
      assert s == [s[0]] + s[1..];
      [s[0]] + Insert(m, s[1..])
  }

  /** The library sort, as the ordered rearrangement it returns. */
  function Sort(s: seq<Match>): (r: seq<Match>)
    ensures multiset(r) == multiset(s) && |r| == |s|
  {
    if s == [] then []
    else
      assert s == [s[0]] + s[1..];
      Insert(s[0], Sort(s[1..]))
  }

  lemma {:induction false} InsertKeepsOrder(m: Match, s: seq<Match>)
    requires Ordered(s)
    ensures Ordered(Insert(m, s))
    decreases |s|
  {
    hide Before;
    if s == [] {
    } else if !Before(s[0], m) {
      forall j | 0 <= j < |s|
        ensures !Before(s[j], m)
      {
        if j > 0 {
          OrderIsTransitive(m, s[0], s[j]);
        }
      }
    } else {
      InsertKeepsOrder(m, s[1..]);
      var rest := Insert(m, s[1..]);
      OrderIsTotal(s[0], m);
      forall x | x in rest
        ensures !Before(x, s[0])
      {
        assert x in multiset(rest);
        assert x == m || x in s[1..];
      }
      assert forall j :: 0 <= j < |rest| ==> rest[j] in rest;
    }
  }

  lemma {:induction false} SortOrders(s: seq<Match>)
    ensures Ordered(Sort(s))
    decreases |s|
  {
    if s != [] {
      SortOrders(s[1..]);
      InsertKeepsOrder(s[0], Sort(s[1..]));
    }
  }

  lemma LeastIsFirst(a: seq<Match>, b: seq<Match>)
    requires Ordered(a) && Ordered(b) && multiset(a) == multiset(b) && a != []
    ensures b != [] && a[0] == b[0]
  {
    hide Before;
    assert a[0] in multiset(a);
    assert a[0] in b;
    assert b[0] in multiset(b);
    assert b[0] in a;
    OrderIsTotal(a[0], b[0]);
  }

  lemma TailsAgree(a: seq<Match>, b: seq<Match>)
    requires a != [] && b != [] && a[0] == b[0] && multiset(a) == multiset(b)
    ensures multiset(a[1..]) == multiset(b[1..])
  {
    assert a == [a[0]] + a[1..] && b == [b[0]] + b[1..];
    assert multiset(a[1..]) == multiset(a) - multiset{a[0]};
    assert multiset(b[1..]) == multiset(b) - multiset{b[0]};
  }

  lemma {:induction false} OrderedIsUnique(a: seq<Match>, b: seq<Match>)
    requires Ordered(a) && Ordered(b) && multiset(a) == multiset(b)
    ensures a == b
    decreases |a|
  {
    hide Before;
    assert |a| == |multiset(a)| == |multiset(b)| == |b|;
    if a != [] {
      LeastIsFirst(a, b);
      TailsAgree(a, b);
      OrderedIsUnique(a[1..], b[1..]);
      assert a == [a[0]] + a[1..] && b == [b[0]] + b[1..];
    }
  }

  /** The listing depends on which files match, never on where the walk met them. */
  lemma WalkOrderIsInvisible(a: seq<Match>, b: seq<Match>)
    requires multiset(a) == multiset(b)
    ensures Sort(a) == Sort(b)
  {
    SortOrders(a);
    SortOrders(b);
    OrderedIsUnique(Sort(a), Sort(b));
  }

  /** The first character in which the paths differ decides; a path comes after what it extends. */
  predicate Alphabetical(a: string, b: string) {
    || (|a| < |b| && b[..|a|] == a)
    || exists k :: 0 <= k < |a| && k < |b| && a[..k] == b[..k] && a[k] < b[k]
  }

  lemma {:induction false} PathsAreAlphabetical(a: string, b: string)
    requires PathBefore(a, b)
    ensures Alphabetical(a, b)
    decreases |a|
  {
    if a != "" {
      if a[0] < b[0] {
        assert a[..0] == b[..0];
      } else {
        PathsAreAlphabetical(a[1..], b[1..]);
        if |a| < |b| && b[1..][..|a| - 1] == a[1..] {
          assert b[..|a|] == [b[0]] + b[1..][..|a| - 1] && a == [a[0]] + a[1..];
        } else {
          var k :| 0 <= k < |a| - 1 && k < |b| - 1 && a[1..][..k] == b[1..][..k] && a[1..][k] < b[1..][k];
          assert a[..k + 1] == [a[0]] + a[1..][..k] && b[..k + 1] == [b[0]] + b[1..][..k];
          assert a[k + 1] < b[k + 1];
        }
      }
    }
  }

  /** Of two listed matches the first has the better tier; in one tier it is no longer; and of equal
      length it comes first in the alphabet. */
  lemma ListedBestFirst(s: seq<Match>, i: nat, j: nat)
    requires i < j < |s|
    ensures var a, b := Sort(s)[i], Sort(s)[j];
            && a.rank.tier <= b.rank.tier
            && (a.rank.tier == b.rank.tier ==> a.rank.length <= b.rank.length)
            && (a.rank == b.rank ==> a.path == b.path || Alphabetical(a.path, b.path))
  {
    SortOrders(s);
    var a, b := Sort(s)[i], Sort(s)[j];
    PathOrderIsTotal(a.path, b.path);
    if PathBefore(a.path, b.path) {
      PathsAreAlphabetical(a.path, b.path);
    }
    hide PathBefore, Alphabetical;
  }
}
