/**
 * The state of the poker ledger page and the transitions its buttons
 * trigger: the roster, the players selected for the session being entered,
 * the amounts typed for them, and the list of saved sessions (newest first).
 */
module App {
  import opened Lists
  import opened Ledger

  /** The roster used when nothing has been saved yet. */
  const DefaultMember: string := "自分"

  /** What pressing "add" did. */
  datatype AddOutcome = Added | EmptyName | AlreadyExists

  /** What pressing "save session" did. */
  datatype SaveOutcome = Saved | NotZeroSum

  class PokerApp {
    var members: seq<string>
    var newMemberName: string
    var selectedIds: seq<string>
    var amounts: map<string, int>
    var events: seq<Event>

    /**
     * What the page keeps true: no name twice in the roster or the
     * selection, and every saved session balanced.
     */
    ghost predicate Valid()
      reads this
    {
      Distinct(members) && Distinct(selectedIds) && AllBalanced(events)
    }

    /**
     * Mounting the page and restoring the saved roster and sessions, when
     * there are any; the roster defaults to a single member.
     */
    constructor (savedMembers: Option<seq<string>>, savedEvents: Option<seq<Event>>)
      ensures members == (if savedMembers.Some? then savedMembers.value else [DefaultMember])
      ensures events == (if savedEvents.Some? then savedEvents.value else [])
      ensures newMemberName == "" && selectedIds == [] && amounts == map[]
      ensures ((savedMembers.Some? ==> Distinct(savedMembers.value)) &&
               (savedEvents.Some? ==> AllBalanced(savedEvents.value))) ==> Valid()
    {
      members := if savedMembers.Some? then savedMembers.value else [DefaultMember];
      events := if savedEvents.Some? then savedEvents.value else [];
      newMemberName := "";
      selectedIds := [];
      amounts := map[];
    }

    /** Typing in the new-member field. */
    method EditNewMemberName(text: string)
      modifies this`newMemberName
      ensures newMemberName == text
    {
      newMemberName := text;
    }

    /**
     * Adds the typed name at the end of the roster and clears the field,
     * unless the name is empty or already on the roster.
     */
    method AddMember() returns (outcome: AddOutcome)
      modifies this`members, this`newMemberName
      ensures outcome == (if old(newMemberName) == "" then EmptyName
                          else if old(newMemberName) in old(members) then AlreadyExists
                          else Added)
      ensures outcome == Added ==> members == old(members) + [old(newMemberName)] && newMemberName == ""
      ensures outcome != Added ==> members == old(members) && newMemberName == old(newMemberName)
      ensures Distinct(old(members)) ==> Distinct(members)
      ensures old(Valid()) ==> Valid()
    {
      if newMemberName == "" {
        return EmptyName;
      }
      if newMemberName in members {
        return AlreadyExists;
      }
      assert Distinct(members) ==> Distinct(members + [newMemberName]) by {
        if Distinct(members) {
          forall i, j | 0 <= i < j < |members| + 1
            ensures (members + [newMemberName])[i] != (members + [newMemberName])[j]
          {
            if j == |members| { assert members[i] in members; }
          }
        }
      }
      members := members + [newMemberName];
      newMemberName := "";
      outcome := Added;
    }

    /**
     * Deletes a member once the user confirms: the name leaves the roster,
     * while saved sessions, the selection and the amounts stay as they are.
     */
    method DeleteMember(name: string, confirmed: bool)
      modifies this`members
      ensures members == (if confirmed then RemoveAll(old(members), name) else old(members))
      ensures confirmed ==> name !in members
      ensures events == old(events) && selectedIds == old(selectedIds) && amounts == old(amounts)
      ensures old(Valid()) ==> Valid()
    {
      if confirmed {
        members := RemoveAll(members, name);
      }
    }

    /** A player's button: selects them when unselected, deselects them otherwise. */
    method ToggleSelection(name: string)
      modifies this`selectedIds
      ensures selectedIds == Toggle(old(selectedIds), name)
      ensures name in selectedIds <==> name !in old(selectedIds)
      ensures old(Valid()) ==> Valid()
    {
      selectedIds := Toggle(selectedIds, name);
    }

    /** Typing an amount for a player. */
    method SetAmount(name: string, value: int)
      modifies this`amounts
      ensures amounts == old(amounts)[name := value]
      ensures old(Valid()) ==> Valid()
    {
      amounts := amounts[name := value];
    }

    /**
     * "Save session": refused, with nothing changed, unless the amounts of
     * the selected players add up to zero (a player with no amount counts
     * as zero). Otherwise the new session goes in front of the saved ones,
     * unsettled, with one line per selected player in selection order, and
     * the selection and the amounts are cleared.
     */
    method SaveEvent(id: int, date: string) returns (outcome: SaveOutcome)
      requires selectedIds != []
      modifies this`selectedIds, this`amounts, this`events
      ensures outcome == (if SelectedTotal(old(selectedIds), old(amounts)) == 0 then Saved else NotZeroSum)
      ensures outcome == NotZeroSum ==>
        selectedIds == old(selectedIds) && amounts == old(amounts) && events == old(events)
      ensures outcome == Saved ==>
        && events == [Event(id, date, NewLines(old(selectedIds), old(amounts)), Unsettled)] + old(events)
        && selectedIds == [] && amounts == map[]
      ensures outcome == Saved ==> Balanced(events[0]) && events[1..] == old(events)
      ensures members == old(members)
      ensures old(Valid()) ==> Valid()
    {
      var total := SelectedTotal(selectedIds, amounts);
      if total != 0 {
        return NotZeroSum;
      }
      var newEvent := Event(id, date, NewLines(selectedIds, amounts), Unsettled);
      NewEventBalanced(selectedIds, amounts, id, date);
      events := [newEvent] + events;
      selectedIds := [];
      amounts := map[];
      outcome := Saved;
    }

    /** A session's status button: flips the status of the session with that id. */
    method ToggleStatus(id: int)
      modifies this`events
      ensures events == FlipStatusOf(old(events), id)
      ensures old(Valid()) ==> Valid()
    {
      if AllBalanced(events) {
        FlipStatusKeepsBalance(events, id);
      }
      events := FlipStatusOf(events, id);
    }
  }
}
