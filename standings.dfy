/**
 * The ranking tab: every line of every saved session is folded into a
 * per-player `{total, games}` record, and the records are listed by
 * total, highest first.
 */
module Standings {
  import opened Lists
  import opened Ledger

  /** One row of the ranking table. */
  datatype Row = Row(name: string, total: int, games: nat)

  /** The accumulator kept per player while folding (`stats[name]`). */
  datatype Stat = Stat(total: int, games: nat)

  // ---- What the ranking should report ----

  /** Sum of a player's amounts over some lines. */
  function LinesTotal(lines: seq<Line>, name: string): int {
    if lines == [] then 0
    else
      var last := lines[|lines| - 1];
      LinesTotal(lines[..|lines| - 1], name) + (if last.name == name then last.amount else 0)
  }

  /** Number of lines naming a player. */
  function LinesGames(lines: seq<Line>, name: string): nat {
    if lines == [] then 0
    else LinesGames(lines[..|lines| - 1], name) + (if lines[|lines| - 1].name == name then 1 else 0)
  }

  /** A player's total over every line of every session. */
  function Total(events: seq<Event>, name: string): int {
    if events == [] then 0
    else Total(events[..|events| - 1], name) + LinesTotal(events[|events| - 1].lines, name)
  }

  /** The number of lines naming a player, over every session. */
  function Games(events: seq<Event>, name: string): nat {
    if events == [] then 0
    else Games(events[..|events| - 1], name) + LinesGames(events[|events| - 1].lines, name)
  }

  /** Sum of every amount of every line of every session. */
  function Amounts(events: seq<Event>): int {
    if events == [] then 0
    else Amounts(events[..|events| - 1]) + LinesSum(events[|events| - 1].lines)
  }

  /** The player appears in some line of some session. */
  ghost predicate Occurs(events: seq<Event>, name: string) {
    exists k, j :: 0 <= k < |events| && 0 <= j < |events[k].lines| && events[k].lines[j].name == name
  }

  /** The rows have a row for that player. */
  ghost predicate HasRow(rows: seq<Row>, name: string) {
    exists r :: r in rows && r.name == name
  }

  /** No player has two rows. */
  predicate DistinctNames(rows: seq<Row>) {
    forall i, j :: 0 <= i < j < |rows| ==> rows[i].name != rows[j].name
  }

  /** Totals never increase down the table. */
  predicate SortedDesc(rows: seq<Row>) {
    forall i, j :: 0 <= i < j < |rows| ==> rows[i].total >= rows[j].total
  }

  /** Sum of the totals of some rows. */
  function TotalSum(rows: seq<Row>): int {
    if rows == [] then 0 else rows[0].total + TotalSum(rows[1..])
  }

  // ---- Facts about the specification ----

  lemma {:induction false} LinesGamesCounts(lines: seq<Line>, name: string)
    ensures LinesGames(lines, name) > 0 <==> exists j :: 0 <= j < |lines| && lines[j].name == name
  {
    if lines != [] {
      var init := lines[..|lines| - 1];
      LinesGamesCounts(init, name);
      if exists j :: 0 <= j < |init| && init[j].name == name {
        var j :| 0 <= j < |init| && init[j].name == name;
        assert lines[j].name == name;
      }
    }
  }

  /** A player has played a game exactly when some line names them. */
  lemma {:induction false} GamesCountsOccurrences(events: seq<Event>, name: string)
    ensures Games(events, name) > 0 <==> Occurs(events, name)
  {
    if events != [] {
      var init := events[..|events| - 1];
      var last := events[|events| - 1];
      GamesCountsOccurrences(init, name);
      LinesGamesCounts(last.lines, name);
      if Occurs(init, name) {
        var k, j :| 0 <= k < |init| && 0 <= j < |init[k].lines| && init[k].lines[j].name == name;
        assert events[k] == init[k];
      }
      if Occurs(events, name) && !Occurs(init, name) {
        var k, j :| 0 <= k < |events| && 0 <= j < |events[k].lines| && events[k].lines[j].name == name;
        assert k < |init| ==> events[k] == init[k];
      }
    }
  }

  /** A player named in no line has a zero total. */
  lemma {:induction false} NoGamesNoTotal(events: seq<Event>, name: string)
    requires Games(events, name) == 0
    ensures Total(events, name) == 0
  {
    if events != [] {
      NoGamesNoTotal(events[..|events| - 1], name);
      NoLinesNoTotal(events[|events| - 1].lines, name);
    }
  }

  lemma {:induction false} NoLinesNoTotal(lines: seq<Line>, name: string)
    requires LinesGames(lines, name) == 0
    ensures LinesTotal(lines, name) == 0
  {
    if lines != [] {
      NoLinesNoTotal(lines[..|lines| - 1], name);
    }
  }

  /** Sum of a player's amounts and count of lines when a line is appended. */
  lemma LinesStep(lines: seq<Line>, d: Line, name: string)
    ensures LinesTotal(lines + [d], name) == LinesTotal(lines, name) + (if d.name == name then d.amount else 0)
    ensures LinesGames(lines + [d], name) == LinesGames(lines, name) + (if d.name == name then 1 else 0)
    ensures LinesSum(lines + [d]) == LinesSum(lines) + d.amount
  {
    assert (lines + [d])[..|lines|] == lines;
  }

  /**
   * Saving a session in front of the others adds its lines to each
   * player's total and game count, whatever the order of the sessions.
   */
  lemma {:induction false} PrependEvent(e: Event, events: seq<Event>, name: string)
    ensures Total([e] + events, name) == LinesTotal(e.lines, name) + Total(events, name)
    ensures Games([e] + events, name) == LinesGames(e.lines, name) + Games(events, name)
    ensures Amounts([e] + events) == LinesSum(e.lines) + Amounts(events)
  {
    if events != [] {
      var init := events[..|events| - 1];
      PrependEvent(e, init, name);
      assert ([e] + events)[..|events|] == [e] + init;
    }
  }

  /** Adding sessions never lowers any player's game count. */
  lemma {:induction false} GamesGrow(e: Event, events: seq<Event>, name: string)
    ensures Games([e] + events, name) >= Games(events, name)
  {
    PrependEvent(e, events, name);
  }

  lemma {:induction false} BalancedAmounts(events: seq<Event>)
    requires AllBalanced(events)
    ensures Amounts(events) == 0
  {
    if events != [] {
      var init := events[..|events| - 1];
      assert Balanced(events[|events| - 1]);
      assert forall k :: 0 <= k < |init| ==> init[k] == events[k];
      BalancedAmounts(init);
    }
  }

  /** The lines of a saved selection give each selected player one game and their amount. */
  lemma {:induction false} NewLinesStanding(selected: seq<string>, amounts: map<string, int>, name: string)
    requires Distinct(selected)
    ensures LinesTotal(NewLines(selected, amounts), name) == (if name in selected then AmountOf(amounts, name) else 0)
    ensures LinesGames(NewLines(selected, amounts), name) == (if name in selected then 1 else 0)
  {
    if selected != [] {
      var init := selected[..|selected| - 1];
      var last := selected[|selected| - 1];
      assert Distinct(init);
      NewLinesStanding(init, amounts, name);
      var lines := NewLines(selected, amounts);
      assert lines == NewLines(init, amounts) + [Line(last, AmountOf(amounts, last))];
      LinesStep(NewLines(init, amounts), Line(last, AmountOf(amounts, last)), name);
      assert selected == init + [last];
      assert last !in init;
    }
  }

  /**
   * What a successful save does to the ranking: every selected player gains
   * one game and the amount entered for them; nobody else changes.
   */
  lemma SaveEventStanding(events: seq<Event>, selected: seq<string>, amounts: map<string, int>,
                          id: int, date: string, name: string)
    requires Distinct(selected)
    ensures var saved := [Event(id, date, NewLines(selected, amounts), Unsettled)] + events;
      && Total(saved, name) == Total(events, name) + (if name in selected then AmountOf(amounts, name) else 0)
      && Games(saved, name) == Games(events, name) + (if name in selected then 1 else 0)
  {
    PrependEvent(Event(id, date, NewLines(selected, amounts), Unsettled), events, name);
    NewLinesStanding(selected, amounts, name);
  }

  /** The ranking counts every session whatever its status: toggling a status changes no row. */
  lemma {:induction false} FlipStatusKeepsStanding(events: seq<Event>, id: int, name: string)
    ensures Total(FlipStatusOf(events, id), name) == Total(events, name)
    ensures Games(FlipStatusOf(events, id), name) == Games(events, name)
  {
    if events != [] {
      var init := events[..|events| - 1];
      FlipStatusKeepsStanding(init, id, name);
      assert FlipStatusOf(events, id)[..|init|] == FlipStatusOf(init, id);
    }
  }

  // ---- The ranking ----

  /** `Object.entries(stats).map(([name, data]) => ({ name, ...data }))` over the keys in `order`. */
  function Entries(order: seq<string>, stats: map<string, Stat>): (rows: seq<Row>)
    requires forall n :: n in order ==> n in stats
    ensures |rows| == |order|
    ensures forall k :: 0 <= k < |rows| ==>
      rows[k] == Row(order[k], stats[order[k]].total, stats[order[k]].games)
  {
    if order == [] then []
    else
      var last := order[|order| - 1];
      Entries(order[..|order| - 1], stats) + [Row(last, stats[last].total, stats[last].games)]
  }

  /** Rows of keys other than `x` are unaffected by updating `x`. */
  lemma {:induction false} EntriesFrame(order: seq<string>, stats: map<string, Stat>, x: string, v: Stat)
    requires forall n :: n in order ==> n in stats
    requires x !in order
    ensures Entries(order, stats[x := v]) == Entries(order, stats)
  {
    if order != [] {
      assert order[|order| - 1] in order;
      EntriesFrame(order[..|order| - 1], stats, x, v);
    }
  }

  lemma {:induction false} TotalSumAppend(rows: seq<Row>, r: Row)
    ensures TotalSum(rows + [r]) == TotalSum(rows) + r.total
  {
    if rows != [] {
      assert (rows + [r])[1..] == rows[1..] + [r];
      TotalSumAppend(rows[1..], r);
    }
  }

  /** Updating one key's total shifts the sum of all rows by the difference. */
  lemma {:induction false} EntriesBump(order: seq<string>, stats: map<string, Stat>, x: string, v: Stat)
    requires forall n :: n in order ==> n in stats
    requires Distinct(order) && x in order
    ensures TotalSum(Entries(order, stats[x := v])) == TotalSum(Entries(order, stats)) - stats[x].total + v.total
  {
    var init := order[..|order| - 1];
    var last := order[|order| - 1];
    assert order == init + [last];
    var st := stats[x := v];
    TotalSumAppend(Entries(init, st), Row(last, st[last].total, st[last].games));
    TotalSumAppend(Entries(init, stats), Row(last, stats[last].total, stats[last].games));
    if last == x {
      assert x !in init;
      EntriesFrame(init, stats, x, v);
    } else {
      assert x in init;
      EntriesBump(init, stats, x, v);
    }
  }

  /** Puts a row before the first row whose total it reaches. */
  function Insert(r: Row, s: seq<Row>): (t: seq<Row>)
    ensures |t| == |s| + 1
    ensures multiset(t) == multiset(s) + multiset{r}
  {
    if s == [] || r.total >= s[0].total then [r] + s
    else
      assert s == [s[0]] + s[1..];
      [s[0]] + Insert(r, s[1..])
  }

  lemma InsertMembers(r: Row, s: seq<Row>, x: Row)
    ensures x in Insert(r, s) <==> x == r || x in s
  {
    assert x in Insert(r, s) <==> x in multiset(Insert(r, s));
  }

  lemma {:induction false} InsertSorted(r: Row, s: seq<Row>)
    requires SortedDesc(s)
    ensures SortedDesc(Insert(r, s))
  {
    if s != [] && r.total < s[0].total {
      var rest := Insert(r, s[1..]);
      InsertSorted(r, s[1..]);
      forall j | 0 <= j < |rest| ensures s[0].total >= rest[j].total {
        InsertMembers(r, s[1..], rest[j]);
        if rest[j] != r {
          var m :| 0 <= m < |s[1..]| && s[1..][m] == rest[j];
          assert s[m + 1] == rest[j];
        }
      }
    }
  }

  lemma {:induction false} InsertSum(r: Row, s: seq<Row>)
    ensures TotalSum(Insert(r, s)) == r.total + TotalSum(s)
  {
    if s != [] && r.total < s[0].total {
      InsertSum(r, s[1..]);
    }
  }

  lemma {:induction false} InsertDistinct(r: Row, s: seq<Row>)
    requires DistinctNames(s) && !HasRow(s, r.name)
    ensures DistinctNames(Insert(r, s))
  {
    if s == [] || r.total >= s[0].total {
      forall j | 0 <= j < |s| ensures s[j].name != r.name {
        assert s[j] in s;
      }
    } else {
      var rest := Insert(r, s[1..]);
      assert !HasRow(s[1..], r.name) by {
        forall y | y in s[1..] ensures y.name != r.name { assert y in s; }
      }
      InsertDistinct(r, s[1..]);
      forall j | 0 <= j < |rest| ensures s[0].name != rest[j].name {
        InsertMembers(r, s[1..], rest[j]);
        if rest[j] == r {
          assert s[0] in s;
        } else {
          var m :| 0 <= m < |s[1..]| && s[1..][m] == rest[j];
          assert s[m + 1] == rest[j];
        }
      }
    }
  }

  /** `.sort((a, b) => b.total - a.total)`: the same rows, rearranged. */
  function SortDesc(s: seq<Row>): (t: seq<Row>)
    ensures |t| == |s|
    ensures multiset(t) == multiset(s)
  {
    if s == [] then []
    else
      assert s == [s[0]] + s[1..];
      Insert(s[0], SortDesc(s[1..]))
  }

  lemma SortDescMembers(s: seq<Row>, x: Row)
    ensures x in SortDesc(s) <==> x in s
  {
    assert x in SortDesc(s) <==> x in multiset(SortDesc(s));
  }

  /** The sorted rows have totals in non-increasing order. */
  lemma {:induction false} SortDescSorted(s: seq<Row>)
    ensures SortedDesc(SortDesc(s))
  {
    if s != [] {
      SortDescSorted(s[1..]);
      InsertSorted(s[0], SortDesc(s[1..]));
    }
  }

  lemma {:induction false} SortDescSum(s: seq<Row>)
    ensures TotalSum(SortDesc(s)) == TotalSum(s)
  {
    if s != [] {
      SortDescSum(s[1..]);
      InsertSum(s[0], SortDesc(s[1..]));
    }
  }

  lemma {:induction false} SortDescDistinct(s: seq<Row>)
    requires DistinctNames(s)
    ensures DistinctNames(SortDesc(s))
  {
    if s != [] {
      var rest := SortDesc(s[1..]);
      assert DistinctNames(s[1..]);
      SortDescDistinct(s[1..]);
      assert !HasRow(rest, s[0].name) by {
        forall y | y in rest ensures y.name != s[0].name {
          SortDescMembers(s[1..], y);
          var m :| 0 <= m < |s[1..]| && s[1..][m] == y;
          assert s[m + 1] == y;
        }
      }
      InsertDistinct(s[0], rest);
    }
  }

  // ---- The fold ----

  /** `order` lists the keys of `stats`, each once (the keys in insertion order). */
  ghost predicate KeysListed(order: seq<string>, stats: map<string, Stat>) {
    Distinct(order) && forall n :: n in order <==> n in stats
  }

  /**
   * `stats` holds exactly the players seen in the sessions `done` and the
   * first lines `part` of the next one, each with their running figures.
   */
  ghost predicate StatsAgree(stats: map<string, Stat>, done: seq<Event>, part: seq<Line>) {
    && (forall n :: n in stats <==> Games(done, n) + LinesGames(part, n) > 0)
    && (forall n :: n in stats ==>
          stats[n] == Stat(Total(done, n) + LinesTotal(part, n), Games(done, n) + LinesGames(part, n)))
  }

  /** The state of the fold after `done` and `part`. */
  ghost predicate Tallied(order: seq<string>, stats: map<string, Stat>, done: seq<Event>, part: seq<Line>) {
    && KeysListed(order, stats)
    && StatsAgree(stats, done, part)
    && TotalSum(Entries(order, stats)) == Amounts(done) + LinesSum(part)
  }

  /**
   * The body of the inner `forEach` on `stats`: the line's player starts
   * from `{total: 0, games: 0}` when new, then gains the amount and a game.
   */
  function Credit(stats: map<string, Stat>, d: Line): (r: map<string, Stat>)
    ensures r.Keys == stats.Keys + {d.name}
    ensures forall n :: n in stats && n != d.name ==> r[n] == stats[n]
    ensures d.name !in stats ==> r[d.name] == Stat(d.amount, 1)
    ensures d.name in stats ==> r[d.name] == Stat(stats[d.name].total + d.amount, stats[d.name].games + 1)
  {
    var cur := if d.name in stats then stats[d.name] else Stat(0, 0);
    stats[d.name := Stat(cur.total + d.amount, cur.games + 1)]
  }

  lemma StatsStep(stats: map<string, Stat>, done: seq<Event>, part: seq<Line>, d: Line)
    requires StatsAgree(stats, done, part)
    ensures StatsAgree(Credit(stats, d), done, part + [d])
  {
    var stats' := Credit(stats, d);
    forall n ensures n in stats' <==> Games(done, n) + LinesGames(part + [d], n) > 0 {
      LinesStep(part, d, n);
    }
    forall n | n in stats'
      ensures stats'[n] == Stat(Total(done, n) + LinesTotal(part + [d], n), Games(done, n) + LinesGames(part + [d], n))
    {
      LinesStep(part, d, n);
      if n !in stats {
        NoGamesNoTotal(done, n);
        NoLinesNoTotal(part, n);
      }
    }
  }

  /** Crediting a player already listed changes the sum of the rows by the amount. */
  lemma SumStepKnown(order: seq<string>, stats: map<string, Stat>, d: Line)
    requires KeysListed(order, stats) && d.name in stats
    ensures KeysListed(order, Credit(stats, d))
    ensures TotalSum(Entries(order, Credit(stats, d))) == TotalSum(Entries(order, stats)) + d.amount
  {
    EntriesBump(order, stats, d.name, Credit(stats, d)[d.name]);
  }

  /** Crediting a new player lists them last, and the sum of the rows grows by the amount. */
  lemma SumStepNew(order: seq<string>, stats: map<string, Stat>, d: Line)
    requires KeysListed(order, stats) && d.name !in stats
    ensures KeysListed(order + [d.name], Credit(stats, d))
    ensures TotalSum(Entries(order + [d.name], Credit(stats, d))) == TotalSum(Entries(order, stats)) + d.amount
  {
    var stats' := Credit(stats, d);
    var row := Row(d.name, d.amount, 1);
    assert stats'[d.name] == Stat(d.amount, 1);
    EntriesFrame(order, stats, d.name, stats'[d.name]);
    TotalSumAppend(Entries(order, stats), row);
    assert (order + [d.name])[..|order|] == order;
    assert Entries(order + [d.name], stats') == Entries(order, stats') + [row];
    assert Distinct(order + [d.name]) by {
      forall i, j | 0 <= i < j < |order| + 1 ensures (order + [d.name])[i] != (order + [d.name])[j] {
        if j == |order| { assert order[i] in order; }
      }
    }
  }

  /** One `forEach` step: the line's player is added if new, then credited. */
  lemma TallyLine(order: seq<string>, stats: map<string, Stat>, done: seq<Event>, part: seq<Line>, d: Line)
    requires Tallied(order, stats, done, part)
    ensures Tallied(if d.name in stats then order else order + [d.name], Credit(stats, d), done, part + [d])
  {
    StatsStep(stats, done, part, d);
    LinesStep(part, d, d.name);
    if d.name in stats {
      SumStepKnown(order, stats, d);
    } else {
      SumStepNew(order, stats, d);
    }
  }

  /** Finishing a session's lines is finishing the session. */
  lemma TallyEvent(order: seq<string>, stats: map<string, Stat>, done: seq<Event>, e: Event)
    requires Tallied(order, stats, done, e.lines)
    ensures Tallied(order, stats, done + [e], [])
  {
    assert (done + [e])[..|done|] == done;
  }

  /** The finished fold lists each player once, with the right figures, and nobody else. */
  lemma TalliedRows(order: seq<string>, stats: map<string, Stat>, events: seq<Event>)
    requires Tallied(order, stats, events, [])
    ensures forall r :: r in Entries(order, stats) ==> r.total == Total(events, r.name) && r.games == Games(events, r.name)
    ensures forall n :: HasRow(Entries(order, stats), n) <==> Occurs(events, n)
    ensures DistinctNames(Entries(order, stats))
    ensures TotalSum(Entries(order, stats)) == Amounts(events)
  {
    var entries := Entries(order, stats);
    forall n ensures HasRow(entries, n) <==> Occurs(events, n) {
      GamesCountsOccurrences(events, n);
      if n in stats {
        var k :| 0 <= k < |order| && order[k] == n;
        assert entries[k] in entries;
      }
    }
  }

  /** Sorting the finished fold's rows gives the ranking's promises. */
  lemma RankedRows(order: seq<string>, stats: map<string, Stat>, events: seq<Event>)
    requires Tallied(order, stats, events, [])
    ensures var rows := SortDesc(Entries(order, stats));
      && (forall r :: r in rows ==> r.total == Total(events, r.name) && r.games == Games(events, r.name))
      && (forall n :: HasRow(rows, n) <==> Occurs(events, n))
      && DistinctNames(rows)
      && SortedDesc(rows)
      && TotalSum(rows) == Amounts(events)
  {
    var entries := Entries(order, stats);
    var rows := SortDesc(entries);
    TalliedRows(order, stats, events);
    SortDescSorted(entries);
    SortDescSum(entries);
    SortDescDistinct(entries);
    forall x ensures x in rows <==> x in entries {
      SortDescMembers(entries, x);
    }
  }

  /** The local state of the fold: `stats` and the order in which its keys were added. */
  datatype Tally = Tally(order: seq<string>, stats: map<string, Stat>)

  /** One step of the inner `forEach`, on the fold's state. */
  function CreditLine(t: Tally, d: Line): Tally {
    Tally(if d.name in t.stats then t.order else t.order + [d.name], Credit(t.stats, d))
  }

  /** The fold's state after crediting `lines` one by one, starting from `t`. */
  function FoldLines(t: Tally, lines: seq<Line>): Tally {
    if lines == [] then t else CreditLine(FoldLines(t, lines[..|lines| - 1]), lines[|lines| - 1])
  }

  /** The fold's state after every line of every session, in order. */
  function FoldEvents(events: seq<Event>): Tally {
    if events == [] then Tally([], map[])
    else FoldLines(FoldEvents(events[..|events| - 1]), events[|events| - 1].lines)
  }

  /** Folding the first lines of a session keeps the running figures right. */
  lemma {:induction false} FoldLinesTallied(t: Tally, done: seq<Event>, part: seq<Line>)
    requires Tallied(t.order, t.stats, done, [])
    ensures var r := FoldLines(t, part); Tallied(r.order, r.stats, done, part)
  {
    if part != [] {
      var init := part[..|part| - 1];
      var d := part[|part| - 1];
      assert part == init + [d];
      FoldLinesTallied(t, done, init);
      var r := FoldLines(t, init);
      TallyLine(r.order, r.stats, done, init, d);
      assert FoldLines(t, part) == CreditLine(r, d);
    }
  }

  /** The fold over all sessions holds each player's figures over all sessions. */
  lemma {:induction false} FoldEventsTallied(events: seq<Event>)
    ensures var r := FoldEvents(events); Tallied(r.order, r.stats, events, [])
  {
    if events != [] {
      var init := events[..|events| - 1];
      var e := events[|events| - 1];
      FoldEventsTallied(init);
      FoldLinesTallied(FoldEvents(init), init, e.lines);
      var r := FoldEvents(events);
      TallyEvent(r.order, r.stats, init, e);
      assert init + [e] == events;
    }
  }

  /**
   * The ranking of the saved sessions: one row per player named in any
   * line, carrying that player's total and game count, ordered by total,
   * highest first. The totals add up to the sum of every amount.
   */
  method Rank(events: seq<Event>) returns (rows: seq<Row>)
    ensures forall r :: r in rows ==> r.total == Total(events, r.name) && r.games == Games(events, r.name)
    ensures forall n :: HasRow(rows, n) <==> Occurs(events, n)
    ensures DistinctNames(rows)
    ensures SortedDesc(rows)
    ensures TotalSum(rows) == Amounts(events)
    ensures events == [] ==> rows == []
  {
    var stats: map<string, Stat> := map[];
    var order: seq<string> := [];
    for i := 0 to |events|
      invariant Tally(order, stats) == FoldEvents(events[..i])
    {
      var lines := events[i].lines;
      assert lines[..0] == [];
      for j := 0 to |lines|
        invariant Tally(order, stats) == FoldLines(FoldEvents(events[..i]), lines[..j])
      {
        var d := lines[j];
        assert lines[..j + 1][..j] == lines[..j];
        if d.name !in stats {
          order := order + [d.name];
        }
        stats := Credit(stats, d);
      }
      assert lines[..|lines|] == lines;
      assert events[..i + 1][..i] == events[..i];
    }
    assert events[..|events|] == events;
    FoldEventsTallied(events);
    RankedRows(order, stats, events);
    rows := SortDesc(Entries(order, stats));
  }
}
