# Poker session ledger — a Dafny model

This project models the ledger logic of the single page of a home-poker
bookkeeping app. The page component (`PokerApp`) keeps four pieces of state:

- the roster (`members`), a list of player names;
- the players selected for the session being entered (`selectedIds`);
- the amounts typed for them (`amounts`, name → integer won or lost);
- the saved sessions (`events`), newest first. Each session has an id, a
  date, one `{name, amount}` line per player and a status string: "未清算"
  (unsettled) or "清算済み" (settled).

Its buttons add and delete roster names, select players, and save a
session. A session is saved only when the selected players' amounts add up
to zero. Each session's status can be flipped. A ranking tab folds every
line of every session into a per-player total and game count, sorted by
total with the highest first.

The files are:

- `lists.dfy` (module `Lists`): duplicate-freedom, JavaScript's
  `filter(y => y !== x)` and the selection toggle.
- `ledger.dfy` (module `Ledger`): lines, sessions, the zero-sum gate, the
  lines of a new session and the status flip. It also holds the code as
  written for the finding below.
- `standings.dfy` (module `Standings`): the ranking.
  - The specification: `Total`, `Games`, `Occurs` and `Amounts`.
  - The fold, as the method `Rank`. It has the nested loops of the source
    and is proved against the fold functions `FoldLines` and `FoldEvents`.
  - The sort, as an insertion sort.
- `app.dfy` (module `App`): the class `PokerApp`. Its fields are the page
  state and its methods are the transitions.

Some facts about the page that the model follows:

- A new session is saved as unsettled (app/page.tsx:63).
- Amounts are stored with no unit conversion.
- The ranking counts every session, whatever its status or date (app/page.tsx:28-40).

The model departs from the page in one place: `SaveEvent` stores the amount
the gate counted, not `amounts[name]` (app/page.tsx:62); see "## Findings".

## Model

| member | source | states |
|---|---|---|
| `Standings.Rank` | app/page.tsx:28-40 | There is one row per player named in any line of any session, and no player has two rows. Each row's total is the sum of that player's amounts over all lines, and its games is the number of those lines. Totals do not increase down the table. The totals add up to the sum of every amount. No sessions give an empty ranking. |
| `Standings.FoldEventsTallied` | app/page.tsx:29-36 | After the nested `forEach`, `stats` holds exactly the players seen, each with their total and count over all sessions. Its key list names each of those players exactly once. |
| `Standings.Credit` | app/page.tsx:32-34 | One step of the inner `forEach`: the line's player is added to the keys if new, starting from total 0 and no games, then gains the line's amount and one game. Every other player's figures are untouched. |
| `Standings.Entries` | app/page.tsx:37-38 | One row per listed key, in list order, carrying that key's total and games. |
| `Standings.GamesCountsOccurrences` | app/page.tsx:32-34 | A player's game count is positive exactly when some line names them. |
| `Standings.SortDesc` | app/page.tsx:39 | The sort returns the same rows (same length, same multiset). |
| `Standings.SortDescSorted` | app/page.tsx:39 | The sorted rows have non-increasing totals. |
| `Standings.SortDescDistinct` | app/page.tsx:37-39 | Sorting keeps the rows one per player. |
| `Standings.SortDescSum` | app/page.tsx:37-39 | Sorting keeps the sum of the totals. |
| `Standings.PrependEvent` | app/page.tsx:65 | Putting a session in front of the list adds its lines to each player's total and game count. |
| `Standings.GamesGrow` | app/page.tsx:65 | Adding a session never lowers any player's game count. |
| `Standings.BalancedAmounts` | app/page.tsx:56-57 | When every session is balanced, the amounts of all sessions add up to zero. With `Standings.Rank`, the ranking's totals then add up to zero too. |
| `Standings.NewLinesStanding` | app/page.tsx:62 | In a saved session, each selected player has one line, carrying their amount; anyone else has no line. |
| `Standings.SaveEventStanding` | app/page.tsx:59-65 | A save gives each selected player one more game and adds the amount entered for them to their total. Every other player is unchanged. |
| `Standings.FlipStatusKeepsStanding` | app/page.tsx:114 | Flipping a status changes no player's total or game count. |
| `Ledger.AmountOf` | app/page.tsx:56 | No contract of its own: `amounts[name] \|\| 0`, the typed amount or 0 when nothing was typed. `Ledger.NewLines` and `Ledger.UntypedAmountPassesGate` are stated against it. |
| `Ledger.SelectedTotal` | app/page.tsx:56 | No contract of its own: the left fold of the selected players' amounts, a missing one counted as 0. `App.PokerApp.SaveEvent`'s outcome, `Ledger.NewLines`' sum and `Ledger.SelectedTotalIgnoresOthers` are stated against it. |
| `Ledger.NewLines` | app/page.tsx:62 | A new session has one line per selected player, in selection order. Each line's amount is the one the gate counted (0 when nothing was typed). The lines add up to the gate's total. |
| `Ledger.NewEventBalanced` | app/page.tsx:56-64 | A session that passed the gate is balanced (its amounts add up to 0). |
| `Ledger.SelectedTotalIgnoresOthers` | app/page.tsx:56 | An amount typed for a player outside the selection does not change the gate's total. |
| `Ledger.Flip` | app/page.tsx:114 | The flipped status is unsettled exactly when the old one was not unsettled. The result is always one of the two statuses. |
| `Ledger.FlipTwice` | app/page.tsx:114 | Flipping twice restores an unsettled or settled status. |
| `Ledger.FlipTwiceOther` | app/page.tsx:114 | Any other status string comes back as settled after two flips, not as itself. |
| `Ledger.FlipStatusOf` | app/page.tsx:114 | Every session with that id has its status flipped. Its id, date and lines stay the same, and every other session is unchanged. |
| `Ledger.FlipStatusTwice` | app/page.tsx:114 | Toggling the same id twice restores the sessions, provided their statuses were unsettled or settled. |
| `Ledger.FlipStatusKeepsBalance` | app/page.tsx:114 | Toggling a status keeps every session balanced. |
| `Ledger.NewLinesAsWritten` | app/page.tsx:62 | As written, a saved line has no amount exactly when nothing was typed for that player. |
| `Ledger.RawTotalAsWritten` | app/page.tsx:33 | As written, a player's accumulated total is NaN exactly when one of their lines has no amount. |
| `Ledger.UntypedAmountPassesGate` | app/page.tsx:56-62 | A selected player with no typed amount is counted as 0 by the gate, but is saved with no amount. The corrected line carries 0. |
| `Ledger.UntypedAmountBreaksRanking` | app/page.tsx:33 | Example: A +100, B −100, C selected with nothing typed. The gate sees 0, but C's ranking total is NaN. |
| `Lists.RemoveAll` | app/page.tsx:51 | The filter drops every occurrence of the name and keeps every other name. It keeps a duplicate-free list duplicate-free. |
| `Lists.RemoveDistinctAt` | app/page.tsx:49-53 | On a duplicate-free roster, deleting a member cuts out exactly that position. The others keep their relative order. |
| `Lists.Toggle` | app/page.tsx:88 | The toggled player's membership flips, and nobody else's changes. A duplicate-free selection stays duplicate-free. |
| `Lists.ToggleAppends` | app/page.tsx:88 | An unselected player is appended at the end of the selection. |
| `Lists.ToggleRemovesAt` | app/page.tsx:88 | A selected player is removed from their place, and the others keep their order. |
| `Lists.ToggleTwice` | app/page.tsx:88 | Selecting and then deselecting a player restores the selection. |
| `App.PokerApp.constructor` | app/page.tsx:13-19 | After mounting, the saved roster and sessions are restored when present. The roster defaults to the single member "自分" and the sessions to none. The selection and the amounts start empty. |
| `App.PokerApp.EditNewMemberName` | app/page.tsx:162 | Typing sets the new-member field. |
| `App.PokerApp.AddMember` | app/page.tsx:42-47 | An empty name, or one already on the roster, leaves the roster and the field unchanged, each with its own outcome. Otherwise the name is appended at the end and the field is cleared. Either way the roster stays duplicate-free. |
| `App.PokerApp.DeleteMember` | app/page.tsx:49-53 | When confirmed, the name leaves the roster by the filter. Otherwise nothing changes. The sessions, the selection and the amounts are untouched. |
| `App.PokerApp.ToggleSelection` | app/page.tsx:88 | The selection becomes its toggle by that name. |
| `App.PokerApp.SetAmount` | app/page.tsx:99 | The typed amount is recorded for that player. |
| `App.PokerApp.SaveEvent` | app/page.tsx:55-69 | The gate sums the selection's amounts (missing as 0). If the sum is not 0, nothing changes. Otherwise exactly one new unsettled, balanced session goes in front, and the old sessions follow in their order. The new session's lines come from `Ledger.NewLines`. The selection and the amounts become empty, and the roster is unchanged. |
| `App.PokerApp.ToggleStatus` | app/page.tsx:114 | The sessions become `Ledger.FlipStatusOf` of the old ones. The page invariant is kept. |

## Left out

- Saving to `localStorage` and the JSON (de)serialisation (app/page.tsx:13-25) are browser I/O. The constructor takes the restored roster and sessions as optional parameters.
- The `alert` and `confirm` dialogs are modelled as outcomes. `AddMember` and `SaveEvent` return them, and `DeleteMember` takes the user's answer as a parameter.
- `Date.now()` and `new Date().toLocaleString()` are taken as parameters of `SaveEvent`. The model does not claim that ids are unique, and `FlipStatusOf` flips every session sharing the id, as the source's `map` does.
- `parseInt(e.target.value) || 0` (app/page.tsx:99) is not modelled: `SetAmount` receives the integer.
- JavaScript numbers are doubles, but amounts and totals are unbounded integers here. Precision loss beyond 2^53 is not modelled.
- Rendering, tab navigation and `toLocaleString` formatting (app/page.tsx:71-179) are not modelled. The disabled "save" button becomes the precondition of `SaveEvent`: the selection is non-empty.
- Standings.Rank: the tie order is not promised. The source lists equal totals in the order of `Object.entries`, which puts integer-like names first, and relies on the stability of `sort`. The model's tie order is whatever its own fold and insertion sort give; only the non-increasing order is promised.
- Standings.Rank and App.PokerApp.SaveEvent: `stats` (app/page.tsx:29) and `amounts` (app/page.tsx:9) are plain JavaScript objects, modelled as maps. A player named like an `Object.prototype` member ("toString", "constructor", ...) is not modelled. In the source such a name finds the inherited function: at app/page.tsx:32-34 no record is created for them and `Object.entries` lists no row, so `Rank`'s row-per-player promise does not hold for them; and when nothing is typed for them, `amounts[name] || 0` at app/page.tsx:56 yields the function, so the gate refuses the save where the model's `SaveEvent` saves.
- Standings.Rank: one step of the inner `forEach` (app/page.tsx:32-34) is the function `Credit`, applied to the local `stats` map. The model does not use two in-place statements for it.
- The ranking is a method over the session list, not a member of `PokerApp`. `useMemo` is only caching.
- app/lib/supabase.ts is not part of this model: it only builds a foreign database client from environment variables.
- Chip tallies, loans, unit conversion and splitting a session do not occur in app/page.tsx and are not modelled.

## Findings

| source | as written | input that shows it | evidently intended | confidence | as-written member | corrected member |
|---|---|---|---|---|---|---|
| app/page.tsx:56-62 | The gate counts a selected player with nothing typed as `amounts[name] \|\| 0`. The saved line stores `amounts[name]` itself, which is `undefined` for that player. The ranking's `total += d.amount` then makes that player's total NaN. The session history also calls `d.amount.toLocaleString()` on that line (app/page.tsx:123), which throws for `undefined` when the page re-renders after the save. | Select A, B and C. Type +100 for A and −100 for B, and nothing for C. The gate sees 0 and saves, C's line has no amount, and C's ranking total is NaN. | Store the amount the gate counted, `amounts[name] \|\| 0`, so the saved lines add up to 0 and every total stays a number. | high, not executed | `Ledger.UntypedAmountBreaksRanking` | `Ledger.NewLines` |
