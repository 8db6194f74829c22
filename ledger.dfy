/**
 * The session records of the poker ledger: an event groups one line per
 * player who took part, with the amount won (positive) or lost (negative),
 * and carries a status string that marks whether it has been paid out.
 * Also the zero-sum gate of "save session" and the status toggle.
 */
module Ledger {

  datatype Option<T> = None | Some(value: T)

  /** One `{name, amount}` entry of an event's `data`. */
  datatype Line = Line(name: string, amount: int)

  /**
   * A saved session. `id` is the `Date.now()` value and `date` the
   * formatted creation time, both supplied by the caller.
   */
  datatype Event = Event(id: int, date: string, lines: seq<Line>, status: string)

  /** Status of a session whose money has not changed hands yet. */
  const Unsettled: string := "未清算"
  /** Status of a session that has been paid out. */
  const Settled: string := "清算済み"

  /** `amounts[name] || 0`: the amount typed for a player, 0 when nothing was typed. */
  function AmountOf(amounts: map<string, int>, name: string): int {
    if name in amounts then amounts[name] else 0
  }

  /**
   * The gate's `selectedIds.reduce((sum, name) => sum + (amounts[name] || 0), 0)`,
   * a left fold over the selection in order.
   */
  function SelectedTotal(selected: seq<string>, amounts: map<string, int>): int {
    if selected == [] then 0
    else SelectedTotal(selected[..|selected| - 1], amounts) + AmountOf(amounts, selected[|selected| - 1])
  }

  /** Sum of the amounts of some lines. */
  function LinesSum(lines: seq<Line>): int {
    if lines == [] then 0 else LinesSum(lines[..|lines| - 1]) + lines[|lines| - 1].amount
  }

  /** The zero-sum invariant of one saved session. */
  predicate Balanced(e: Event) {
    LinesSum(e.lines) == 0
  }

  predicate AllBalanced(events: seq<Event>) {
    forall k :: 0 <= k < |events| ==> Balanced(events[k])
  }

  /**
   * The lines of a new event: one per selected player, in selection order,
   * each carrying the amount the gate counted for that player.
   * (The source stores `amounts[name]` itself; see NewLinesAsWritten.)
   */
  function NewLines(selected: seq<string>, amounts: map<string, int>): (lines: seq<Line>)
    ensures |lines| == |selected|
    ensures forall k :: 0 <= k < |lines| ==> lines[k].name == selected[k]
    ensures forall k :: 0 <= k < |lines| ==> lines[k].amount == AmountOf(amounts, selected[k])
    ensures LinesSum(lines) == SelectedTotal(selected, amounts)
  {
    if selected == [] then []
    else
      var init := NewLines(selected[..|selected| - 1], amounts);
      var last := Line(selected[|selected| - 1], AmountOf(amounts, selected[|selected| - 1]));
      assert (init + [last])[..|init|] == init;
      init + [last]
  }

  /** A session that passed the gate is balanced. */
  lemma NewEventBalanced(selected: seq<string>, amounts: map<string, int>, id: int, date: string)
    requires SelectedTotal(selected, amounts) == 0
    ensures Balanced(Event(id, date, NewLines(selected, amounts), Unsettled))
  {
  }

  /** Amounts typed for players outside the selection do not reach the gate. */
  lemma {:induction false} SelectedTotalIgnoresOthers(selected: seq<string>, amounts: map<string, int>, name: string, value: int)
    requires name !in selected
    ensures SelectedTotal(selected, amounts[name := value]) == SelectedTotal(selected, amounts)
  {
    if selected != [] {
      assert selected[|selected| - 1] in selected;
      SelectedTotalIgnoresOthers(selected[..|selected| - 1], amounts, name, value);
    }
  }

  /** The status button's flip: unsettled becomes settled, anything else unsettled. */
  function Flip(status: string): (r: string)
    ensures r == Unsettled <==> status != Unsettled
    ensures r == Unsettled || r == Settled
  {
    if status == Unsettled then Settled else Unsettled
  }

  /** Pressing the status button twice restores either of the two statuses. */
  lemma FlipTwice(status: string)
    requires status == Unsettled || status == Settled
    ensures Flip(Flip(status)) == status
  {
  }

  /** Any other status string is not restored: two presses leave it settled. */
  lemma FlipTwiceOther(status: string)
    requires status != Unsettled && status != Settled
    ensures Flip(Flip(status)) == Settled != status
  {
  }

  /**
   * `events.map(e => e.id === id ? {...e, status: flip(e.status)} : e)`:
   * every event with that id has its status flipped, and nothing else changes.
   */
  function FlipStatusOf(events: seq<Event>, id: int): (r: seq<Event>)
    ensures |r| == |events|
    ensures forall k :: 0 <= k < |r| ==>
      r[k].id == events[k].id && r[k].date == events[k].date && r[k].lines == events[k].lines
    ensures forall k :: 0 <= k < |r| && events[k].id != id ==> r[k] == events[k]
    ensures forall k :: 0 <= k < |r| && events[k].id == id ==> r[k].status == Flip(events[k].status)
  {
    seq(|events|, k requires 0 <= k < |events| =>
      if events[k].id == id then events[k].(status := Flip(events[k].status)) else events[k])
  }

  /** Toggling the same session twice restores the events, provided its status is one of the two. */
  lemma FlipStatusTwice(events: seq<Event>, id: int)
    requires forall k :: 0 <= k < |events| && events[k].id == id ==>
      events[k].status == Unsettled || events[k].status == Settled
    ensures FlipStatusOf(FlipStatusOf(events, id), id) == events
  {
    var once := FlipStatusOf(events, id);
    var twice := FlipStatusOf(once, id);
    forall k | 0 <= k < |events| ensures twice[k] == events[k] {
      if events[k].id == id {
        FlipTwice(events[k].status);
      }
    }
  }

  /** The toggle keeps every session balanced, since no line changes. */
  lemma FlipStatusKeepsBalance(events: seq<Event>, id: int)
    requires AllBalanced(events)
    ensures AllBalanced(FlipStatusOf(events, id))
  {
    var r := FlipStatusOf(events, id);
    forall k | 0 <= k < |r| ensures Balanced(r[k]) {
      assert r[k].lines == events[k].lines;
    }
  }

  // ---- The code as written ----

  /** A line as the source builds it: `amount` is `undefined` when nothing was typed. */
  datatype RawLine = RawLine(name: string, amount: Option<int>)

  /** `selectedIds.map(name => ({ name, amount: amounts[name] }))`, without the `|| 0`. */
  function NewLinesAsWritten(selected: seq<string>, amounts: map<string, int>): (lines: seq<RawLine>)
    ensures |lines| == |selected|
    ensures forall k :: 0 <= k < |lines| ==> lines[k].name == selected[k]
    ensures forall k :: 0 <= k < |lines| ==> (lines[k].amount.None? <==> selected[k] !in amounts)
  {
    seq(|selected|, k requires 0 <= k < |selected| =>
      RawLine(selected[k], if selected[k] in amounts then Some(amounts[selected[k]]) else None))
  }

  /**
   * A ranking total accumulated with JavaScript's `+=` over raw lines:
   * adding `undefined` yields NaN (here None), and NaN absorbs every later addition.
   */
  function RawTotalAsWritten(lines: seq<RawLine>, name: string): (t: Option<int>)
    ensures t.None? <==> exists k :: 0 <= k < |lines| && lines[k].name == name && lines[k].amount.None?
  {
    if lines == [] then Some(0)
    else
      var init := RawTotalAsWritten(lines[..|lines| - 1], name);
      var last := lines[|lines| - 1];
      if last.name != name then init
      else if init.Some? && last.amount.Some? then Some(init.value + last.amount.value)
      else None
  }

  /**
   * A selected player with no typed amount passes the gate as 0, yet the
   * saved line has no amount, while the corrected line carries 0.
   */
  lemma UntypedAmountPassesGate(selected: seq<string>, amounts: map<string, int>, k: nat)
    requires k < |selected| && selected[k] !in amounts
    ensures NewLinesAsWritten(selected, amounts)[k].amount == None
    ensures NewLines(selected, amounts)[k] == Line(selected[k], 0)
  {
  }

  /**
   * Concretely: A wins 100, B loses 100, C is selected but nothing is typed.
   * The gate sees 0 and the session is saved, but C's line has no amount and
   * C's ranking total becomes NaN.
   */
  lemma {:induction false} UntypedAmountBreaksRanking()
    ensures SelectedTotal(["A", "B", "C"], map["A" := 100, "B" := -100]) == 0
    ensures RawTotalAsWritten(NewLinesAsWritten(["A", "B", "C"], map["A" := 100, "B" := -100]), "C") == None
  {
    var sel := ["A", "B", "C"];
    var am := map["A" := 100, "B" := -100];
    assert sel[..2] == ["A", "B"] && sel[..2][..1] == ["A"] && sel[..2][..1][..0] == [];
    assert SelectedTotal(["A"], am) == 100;
    assert SelectedTotal(["A", "B"], am) == 0;
    var raw := NewLinesAsWritten(sel, am);
    assert raw[2] == RawLine("C", None);
  }
}
