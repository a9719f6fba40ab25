/** The leaderboard both games keep: a list of name/score entries, ordered
    by `sort((a, b) => b.score - a.score)`. ECMAScript requires
    `Array.prototype.sort` to be stable, so entries with equal scores keep
    their relative order and a newly pushed entry lands behind every older
    entry with the same score. */
module Leaderboard {
  import opened Text
  import opened Seqs

  datatype Entry = Entry(name: string, score: int)

  /** Non-increasing scores from front to back. */
  predicate SortedDesc(s: seq<Entry>)
  {
    forall i, j :: 0 <= i < j < |s| ==> s[i].score >= s[j].score
  }

  /** The entries of s with score k, in their order in s. */
  function WithScore(s: seq<Entry>, k: int): (r: seq<Entry>)
    ensures |r| <= |s|
  {
    if s == [] then []
    else (if s[0].score == k then [s[0]] else []) + WithScore(s[1..], k)
  }

  /** How many entries of s score at least v. */
  function CountAtLeast(s: seq<Entry>, v: int): (n: nat)
    ensures n <= |s|
  {
    if s == [] then 0 else (if s[0].score >= v then 1 else 0) + CountAtLeast(s[1..], v)
  }

  /** Places e behind every entry that scores at least as much: one step of
      a stable descending sort. */
  function InsertDesc(s: seq<Entry>, e: Entry): (r: seq<Entry>)
    ensures |r| == |s| + 1
    ensures r[0] == if s != [] && s[0].score >= e.score then s[0] else e
  {
    if s == [] then [e]
    else if s[0].score >= e.score then [s[0]] + InsertDesc(s[1..], e)
    else [e] + s
  }

  /** Insertion keeps a sorted list sorted. */
  lemma {:induction false} InsertDescSorted(s: seq<Entry>, e: Entry)
    requires SortedDesc(s)
    ensures SortedDesc(InsertDesc(s, e))
  {
    if s == [] {
    } else if s[0].score >= e.score {
      SortedTail(s);
      InsertDescSorted(s[1..], e);
      var t := InsertDesc(s[1..], e);
      assert |s| > 1 ==> s[1..][0] == s[1] && s[1].score <= s[0].score;
      ConsSorted(s[0], t);
    } else {
      ConsSorted(e, s);
    }
  }

  /** The stable descending sort of s. */
  function SortDesc(s: seq<Entry>): (r: seq<Entry>)
    ensures |r| == |s|
    ensures SortedDesc(r)
  {
    if s == [] then []
    else
      var p, e := s[..|s| - 1], s[|s| - 1];
      InsertDescSorted(SortDesc(p), e);
      InsertDesc(SortDesc(p), e)
  }

  lemma SortedTail(s: seq<Entry>)
    requires SortedDesc(s) && s != []
    ensures SortedDesc(s[1..])
  {
    forall i, j | 0 <= i < j < |s| - 1 ensures s[1..][i].score >= s[1..][j].score {
      assert s[1..][i] == s[i + 1] && s[1..][j] == s[j + 1];
    }
  }

  /** A sorted list stays sorted under a head that scores at least as much
      as its first entry. */
  lemma ConsSorted(h: Entry, t: seq<Entry>)
    requires SortedDesc(t) && (t != [] ==> h.score >= t[0].score)
    ensures SortedDesc([h] + t)
  {
    var r := [h] + t;
    forall i, j | 0 <= i < j < |r| ensures r[i].score >= r[j].score {
      if i == 0 {
        assert r[j] == t[j - 1];
      } else {
        assert r[i] == t[i - 1] && r[j] == t[j - 1];
      }
    }
  }

  // ---------------------------------------------------------------------
  // Facts about the sort

  lemma {:induction false} InsertDescPermutes(s: seq<Entry>, e: Entry)
    ensures multiset(InsertDesc(s, e)) == multiset(s) + multiset{e}
  {
    if s != [] && s[0].score >= e.score {
      InsertDescPermutes(s[1..], e);
      assert s == [s[0]] + s[1..];
    }
  }

  /** The sort only reorders: the result holds the same entries, each as
      often as before. */
  lemma {:induction false} SortDescPermutes(s: seq<Entry>)
    ensures multiset(SortDesc(s)) == multiset(s)
  {
    if s != [] {
      var p, e := s[..|s| - 1], s[|s| - 1];
      assert s == p + [e];
      SortDescPermutes(p);
      InsertDescPermutes(SortDesc(p), e);
    }
  }

  lemma {:induction false} WithScoreConcat(a: seq<Entry>, b: seq<Entry>, k: int)
    ensures WithScore(a + b, k) == WithScore(a, k) + WithScore(b, k)
  {
    if a == [] {
      assert a + b == b;
    } else {
      var head := if a[0].score == k then [a[0]] else [];
      assert (a + b)[0] == a[0] && (a + b)[1..] == a[1..] + b;
      assert WithScore(a + b, k) == head + WithScore(a[1..] + b, k);
      WithScoreConcat(a[1..], b, k);
      assert WithScore(a, k) == head + WithScore(a[1..], k);
    }
  }

  lemma {:induction false} WithScoreNone(s: seq<Entry>, k: int)
    requires forall i :: 0 <= i < |s| ==> s[i].score < k
    ensures WithScore(s, k) == []
  {
    if s != [] {
      WithScoreNone(s[1..], k);
    }
  }

  /** Inserting into a sorted list puts e behind every entry of its own score. */
  lemma InsertDescWithScore(s: seq<Entry>, e: Entry, k: int)
    requires SortedDesc(s)
    ensures WithScore(InsertDesc(s, e), k) ==
            WithScore(s, k) + (if e.score == k then [e] else [])
  {
    InsertDescPosition(s, e);
    InsertedWithScore(s, e, k, CountAtLeast(s, e.score));
  }

  /** The same for any insertion of e at a position p past which every
      entry scores below e. */
  lemma InsertedWithScore(s: seq<Entry>, e: Entry, k: int, p: int)
    requires 0 <= p <= |s| && forall i :: p <= i < |s| ==> s[i].score < e.score
    ensures WithScore(s[..p] + [e] + s[p..], k) ==
            WithScore(s, k) + (if e.score == k then [e] else [])
  {
    var a, b := s[..p], s[p..];
    assert s == a + b;
    WithScoreAround(a, e, b, k);
    var wa, wb := WithScore(a, k), WithScore(b, k);
    if e.score == k {
      forall i | 0 <= i < |b| ensures b[i].score < k {
        assert b[i] == s[p + i];
      }
      WithScoreNone(b, k);
      assert wa + [e] + wb == wa + [e] && wa + wb == wa;
    } else {
      assert wa + [] + wb == wa + wb;
      assert WithScore(s, k) + [] == WithScore(s, k);
    }
  }

  /** WithScore over a list split around one entry e. */
  lemma WithScoreAround(a: seq<Entry>, e: Entry, b: seq<Entry>, k: int)
    ensures WithScore(a + [e] + b, k) ==
            WithScore(a, k) + (if e.score == k then [e] else []) + WithScore(b, k)
    ensures WithScore(a + b, k) == WithScore(a, k) + WithScore(b, k)
  {
    WithScoreConcat(a + [e], b, k);
    WithScoreConcat(a, [e], k);
    WithScoreConcat(a, b, k);
    WithScoreSingle(e, k);
  }

  lemma WithScoreSingle(e: Entry, k: int)
    ensures WithScore([e], k) == if e.score == k then [e] else []
  {
    assert [e][1..] == [];
  }

  /** Stability: for every score, the entries with that score appear in the
      same order before and after sorting. */
  lemma {:induction false} SortDescStable(s: seq<Entry>, k: int)
    ensures WithScore(SortDesc(s), k) == WithScore(s, k)
  {
    if s != [] {
      var p, e := s[..|s| - 1], s[|s| - 1];
      assert s == p + [e];
      SortDescStable(p, k);
      InsertDescWithScore(SortDesc(p), e, k);
      WithScoreConcat(p, [e], k);
    }
  }

  lemma {:induction false} CountAtLeastConcat(a: seq<Entry>, b: seq<Entry>, v: int)
    ensures CountAtLeast(a + b, v) == CountAtLeast(a, v) + CountAtLeast(b, v)
  {
    if a == [] {
      assert a + b == b;
    } else {
      assert (a + b)[0] == a[0] && (a + b)[1..] == a[1..] + b;
      CountAtLeastConcat(a[1..], b, v);
    }
  }

  lemma {:induction false} CountAtLeastNone(s: seq<Entry>, v: int)
    requires forall i :: 0 <= i < |s| ==> s[i].score < v
    ensures CountAtLeast(s, v) == 0
  {
    if s != [] {
      CountAtLeastNone(s[1..], v);
    }
  }

  /** In a sorted list e goes in right after the entries scoring at least
      e.score, ahead of all that score less. */
  lemma {:induction false} InsertDescPosition(s: seq<Entry>, e: Entry)
    requires SortedDesc(s)
    ensures CountAtLeast(s, e.score) <= |s|
    ensures var p := CountAtLeast(s, e.score);
            && InsertDesc(s, e) == s[..p] + [e] + s[p..]
            && (forall i :: p <= i < |s| ==> s[i].score < e.score)
  {
    if s == [] {
    } else if s[0].score >= e.score {
      var t := s[1..];
      SortedTail(s);
      InsertDescPosition(t, e);
      var q := CountAtLeast(t, e.score);
      var p := q + 1;
      assert CountAtLeast(s, e.score) == p;
      assert InsertDesc(s, e) == [s[0]] + InsertDesc(t, e);
      assert InsertDesc(t, e) == t[..q] + [e] + t[q..];
      assert t[q..] == s[p..];
      assert [s[0]] + t[..q] == s[..p];
      Assoc([s[0]], t[..q] + [e], s[p..]);
      Assoc([s[0]], t[..q], [e]);
      forall i | p <= i < |s| ensures s[i].score < e.score {
        assert s[i] == t[i - 1];
      }
    } else {
      BelowHead(s, e.score);
      CountAtLeastNone(s, e.score);
      assert s[..0] == [] && s[0..] == s;
    }
  }

  /** In a sorted list, when the head scores below v everything does. */
  lemma BelowHead(s: seq<Entry>, v: int)
    requires SortedDesc(s) && s != [] && s[0].score < v
    ensures forall i :: 0 <= i < |s| ==> s[i].score < v
  {
    forall i | 0 <= i < |s| ensures s[i].score < v {
      assert i == 0 || s[i].score <= s[0].score;
    }
  }

  lemma {:induction false} InsertDescCount(s: seq<Entry>, e: Entry, v: int)
    ensures CountAtLeast(InsertDesc(s, e), v) ==
            CountAtLeast(s, v) + (if e.score >= v then 1 else 0)
  {
    if s == [] {
    } else if s[0].score >= e.score {
      var t := InsertDesc(s[1..], e);
      InsertDescCount(s[1..], e, v);
      assert ([s[0]] + t)[1..] == t;
    } else {
      assert ([e] + s)[1..] == s;
    }
  }

  /** Sorting does not change how many entries reach a given score. */
  lemma {:induction false} SortDescCount(s: seq<Entry>, v: int)
    ensures CountAtLeast(SortDesc(s), v) == CountAtLeast(s, v)
  {
    if s != [] {
      var p, e := s[..|s| - 1], s[|s| - 1];
      assert s == p + [e];
      SortDescCount(p, v);
      InsertDescCount(SortDesc(p), e, v);
      CountAtLeastConcat(p, [e], v);
    }
  }

  /** Sorting an already sorted list leaves it as it is. */
  lemma {:induction false} SortDescOfSorted(s: seq<Entry>)
    requires SortedDesc(s)
    ensures SortDesc(s) == s
  {
    if s != [] {
      var p, e := s[..|s| - 1], s[|s| - 1];
      assert s == p + [e];
      assert SortedDesc(p) by {
        forall i, j | 0 <= i < j < |p| ensures p[i].score >= p[j].score {
          assert p[i] == s[i] && p[j] == s[j];
        }
      }
      SortDescOfSorted(p);
      InsertDescPosition(p, e);
      forall i | 0 <= i < |p| ensures p[i].score >= e.score {
        assert p[i] == s[i] && e == s[|p|];
      }
      CountAtLeastAll(p, e.score);
      assert p[..|p|] == p && p[|p|..] == [];
    }
  }

  lemma {:induction false} CountAtLeastAll(s: seq<Entry>, v: int)
    requires forall i :: 0 <= i < |s| ==> s[i].score >= v
    ensures CountAtLeast(s, v) == |s|
  {
    if s != [] {
      CountAtLeastAll(s[1..], v);
    }
  }

  /** Pushing onto a sorted list and sorting equals pushing onto any list
      and sorting once: repeated `push`+`sort` equals one sort at the end. */
  lemma SortDescPush(s: seq<Entry>, e: Entry)
    ensures SortDesc(SortDesc(s) + [e]) == SortDesc(s + [e])
  {
    var t := SortDesc(s) + [e];
    assert t[..|t| - 1] == SortDesc(s);
    assert (s + [e])[..|s|] == s;
    SortDescOfSorted(SortDesc(s));
  }

  // ---------------------------------------------------------------------
  // script.js: saveScore and the leaderboard list

  const Capacity: nat := 10

  /** `playerName || 'Player'`: the name saveScore records. */
  function SavedName(playerName: string): (r: string)
    ensures r != []
    ensures playerName != [] ==> r == playerName
  {
    if playerName == "" then "Player" else playerName
  }

  /** The name the start button stores: `(input || 'Player').trim()`. */
  function StartName(input: string): string
  {
    Trim(if input == "" then "Player" else input)
  }

  /** What ends up in the saved entry for a given text in the name box: the
      trimmed input, or `Player` when nothing but whitespace remains. */
  lemma SavedNameFromInput(input: string)
    ensures SavedName(StartName(input)) ==
            (if Trim(input) == "" then "Player" else Trim(input))
  {
    if input == "" {
      var p := "Player";
      assert TrimStart(p) == p by { assert !IsWhitespace(p[0]); }
      assert TrimEnd(p) == p by { assert !IsWhitespace(p[|p| - 1]); }
      assert Trim(input) == "" by { assert TrimStart(input) == input; }
    }
  }

  function Take(s: seq<Entry>, n: nat): (r: seq<Entry>)
    ensures |r| <= n && |r| <= |s|
    ensures r == s[..|r|]
    ensures |s| <= n ==> r == s
    ensures |s| > n ==> |r| == n
  {
    if |s| <= n then s else s[..n]
  }

  /** `saveScore()` on the stored list `data`: push the new entry, sort,
      keep the first ten. */
  function SaveScore(data: seq<Entry>, playerName: string, count: int): (r: seq<Entry>)
    ensures |r| <= Capacity
    ensures SortedDesc(r)
  {
    Take(SortDesc(data + [Entry(SavedName(playerName), count)]), Capacity)
  }

  /** Where the new entry goes: behind the p older entries that score at
      least as much, ahead of the rest; it is kept exactly when p < 10. */
  lemma SaveScorePlacesNewEntry(data: seq<Entry>, playerName: string, count: int)
    ensures var e := Entry(SavedName(playerName), count);
            var sorted := SortDesc(data);
            var p := CountAtLeast(data, count);
            var r := SaveScore(data, playerName, count);
            && p <= |data|
            && SortDesc(data + [e]) == sorted[..p] + [e] + sorted[p..]
            && r == Take(sorted[..p] + [e] + sorted[p..], Capacity)
            && (p < |r| <==> p < Capacity)
            && (p < |r| ==> r[p] == e)
  {
    var e := Entry(SavedName(playerName), count);
    var s := data + [e];
    assert s[..|s| - 1] == data;
    SortDescCount(data, count);
    InsertDescPosition(SortDesc(data), e);
  }

  /** The new entry's place when the stored list was already in order (as
      saveScore itself leaves it). */
  lemma SaveScoreOnSorted(data: seq<Entry>, playerName: string, count: int)
    requires SortedDesc(data)
    ensures var p := CountAtLeast(data, count);
            SaveScore(data, playerName, count) ==
            Take(data[..p] + [Entry(SavedName(playerName), count)] + data[p..], Capacity)
  {
    SaveScorePlacesNewEntry(data, playerName, count);
    SortDescOfSorted(data);
  }

  /** Saving B with 10 over a board holding only A with 5 puts B first. */
  lemma SaveScoreExample()
    ensures SaveScore([Entry("A", 5)], "B", 10) == [Entry("B", 10), Entry("A", 5)]
  {
    var data := [Entry("A", 5)];
    SaveScoreOnSorted(data, "B", 10);
    assert CountAtLeast(data, 10) == 0;
  }

  /** One list item of `updateLeaderboardUI`. */
  function Item(e: Entry): string
  {
    ItemOpen + EscapeHtml(e.name) + ItemSep + IntToString(e.score) + ItemClose
  }

  function Items(data: seq<Entry>): string
  {
    if data == [] then "" else Item(data[0]) + Items(data[1..])
  }

  const NoneYet: string := "<li>None yet</li>"

  /** `data.map(...).join('') || '<li>None yet</li>'`. */
  function RenderLeaderboard(data: seq<Entry>): string
  {
    var items := Items(data);
    if items == "" then NoneYet else items
  }

  const ItemOpen: string := "<" + "li" + ">"
  const ItemSep: string := " \U{2014} "
  const ItemClose: string := " \U{1F383}" + "<" + "/li" + ">"

  lemma OpenTags()
    ensures CountChar('<', ItemOpen) == 1 && CountChar('>', ItemOpen) == 1
  {
    CountChar3('<', "<", "li", ">");
    CountChar3('>', "<", "li", ">");
  }

  lemma SepTags()
    ensures CountChar('<', ItemSep) == 0 && CountChar('>', ItemSep) == 0
  {
    CountCharAbsent('<', ItemSep);
    CountCharAbsent('>', ItemSep);
  }

  lemma CloseTags()
    ensures CountChar('<', ItemClose) == 1 && CountChar('>', ItemClose) == 1
  {
    CountChar3('<', " \U{1F383}" + "<", "/li", ">");
    CountChar3('>', " \U{1F383}" + "<", "/li", ">");
    CountCharConcat('<', " \U{1F383}", "<");
    CountCharConcat('>', " \U{1F383}", "<");
  }

  lemma CountChar3(c: char, a: string, b: string, d: string)
    ensures CountChar(c, a + b + d) == CountChar(c, a) + CountChar(c, b) + CountChar(c, d)
  {
    CountCharConcat(c, a + b, d);
    CountCharConcat(c, a, b);
  }

  lemma ItemTags(e: Entry)
    ensures CountChar('<', Item(e)) == 2 && CountChar('>', Item(e)) == 2
  {
    var b, d := EscapeHtml(e.name), IntToString(e.score);
    assert Item(e) == ItemOpen + b + ItemSep + d + ItemClose;
    OpenTags();
    SepTags();
    CloseTags();
    CountCharAbsent('<', b);
    CountCharAbsent('<', d);
    CountCharAbsent('>', b);
    CountCharAbsent('>', d);
    ConcatTags('<', ItemOpen, b, ItemSep, d, ItemClose);
    ConcatTags('>', ItemOpen, b, ItemSep, d, ItemClose);
  }

  lemma ConcatTags(c: char, a: string, b: string, s: string, d: string, f: string)
    ensures CountChar(c, a + b + s + d + f) ==
            CountChar(c, a) + CountChar(c, b) + CountChar(c, s) + CountChar(c, d) + CountChar(c, f)
  {
    CountCharConcat(c, a + b + s + d, f);
    CountCharConcat(c, a + b + s, d);
    CountCharConcat(c, a + b, s);
    CountCharConcat(c, a, b);
  }

  /** The list shows the placeholder exactly when the board is empty, and
      otherwise one `<li>` per entry: names are escaped, so the markup holds
      exactly two `<` and two `>` per entry whatever the names contain. */
  lemma {:induction false} RenderLeaderboardShape(data: seq<Entry>)
    ensures data == [] ==> RenderLeaderboard(data) == NoneYet
    ensures data != [] ==> RenderLeaderboard(data) == Items(data)
    ensures data != [] ==> CountChar('<', RenderLeaderboard(data)) == 2 * |data|
    ensures data != [] ==> CountChar('>', RenderLeaderboard(data)) == 2 * |data|
  {
    if data != [] {
      ItemTags(data[0]);
      ItemsTags(data[1..]);
      CountCharConcat('<', Item(data[0]), Items(data[1..]));
      CountCharConcat('>', Item(data[0]), Items(data[1..]));
    }
  }

  lemma {:induction false} ItemsTags(data: seq<Entry>)
    ensures CountChar('<', Items(data)) == 2 * |data|
    ensures CountChar('>', Items(data)) == 2 * |data|
  {
    if data != [] {
      ItemTags(data[0]);
      ItemsTags(data[1..]);
      CountCharConcat('<', Item(data[0]), Items(data[1..]));
      CountCharConcat('>', Item(data[0]), Items(data[1..]));
    }
  }

  // ---------------------------------------------------------------------
  // game.js: the in-memory board and its top five

  const Shown: nat := 5

  /** `leaderboard.slice(0, 5)`: the first five entries, in order. On a
      sorted board no entry left out scores more than one shown. */
  function TopFive(board: seq<Entry>): (r: seq<Entry>)
    ensures |r| <= Shown && |r| <= |board| && r == board[..|r|]
    ensures |board| <= Shown ==> r == board
    ensures |board| > Shown ==> |r| == Shown
    ensures SortedDesc(board) ==>
      forall i, j :: 0 <= i < |r| <= j < |board| ==> r[i].score >= board[j].score
  {
    Take(board, Shown)
  }
}
