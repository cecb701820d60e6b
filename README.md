# Jira kanban board: a verified model of the board state

This project models the board logic of the Jira page script
(`js/jira_page.js`). The script shows an issue list as a three-column kanban
board (to do, in progress, done). The model covers these parts:

- **Status classifier.** `normalizeStatus` puts each issue into a column.
- **Priority class.** `createCard` derives a priority class for the badge.
- **Card placement.** `clearColumns` and `populateColumns` place the cards.
- **Counters.** `updateStats` recounts.
- **Filter.** `applyFilter` shows or hides cards.
- **Drop.** The drop handler moves a card, found by its DOM id, to the end of
  a column.
- **Saved layout.** `persistBoardState` and `restoreBoardState` save the
  three columns' id lists in local storage and re-apply them.
- **Render.** `fetchAndRender`, from the point where the issues have arrived.
- **Reset.** The reset button's click only removes the saved entry and starts
  a fetch. The render follows later, as `FetchAndRender`, and the page keeps
  taking drops in between. A drop in that window saves the pre-reset layout
  with the dropped card moved, and the render then restores that
  (`DropThenReload`).

Modules:

- `Text` (text.dfy) models `toLowerCase` and `includes`. It also gives a
  reference reading of "contains this word in any letter case".
- `Status` (status.dfy) holds the classifier and the priority chain.
- `StatusFilter` (filter.dfy) holds the per-card decision of `applyFilter`.
- `Seqs` (seqs.dfy) holds facts about id sequences: distinctness, and
  removing or keeping the ids of a set.
- `Board` (board.dfy) works on plain values: cards, the three columns, and
  the saved record. Placement, moves, filtering, snapshot and restore are
  pure functions of these values. The main properties are proved here:
  - every card sits in exactly one column;
  - moves never lose or duplicate a card;
  - restore reproduces a saved layout.
- `JiraPage` (jirapage.dfy) has the class `BoardPage`. Its fields are:
  - the three column containers, as `seq<Card>`;
  - the storage entry;
  - `currentIssues`;
  - the four counters.

  Its methods are the script's handlers. Each one changes these fields in
  place, with the source's loops. Each is proved against the `Board`
  function it realises.

Decisions the code forces:

- **Drop position.** A drop appends the card at the end of the target
  column, not at the drop position (`appendChild`, line 179).
- **The filter's words differ from the classifier's.** The classifier's done
  words are done/closed/resolved/ferdig. The "done" filter's words are
  done/ferdig/completed. So a "Closed" issue sits in the done column but the
  "done" filter hides it, and a "Completed" issue sits in the to-do column
  but the "done" filter shows it (`DoneFilterHidesClosed`,
  `DoneFilterShowsCompleted`). The in-progress filter's words are
  in progress/pågår/doing, without the classifier's "in-progress", so an
  "In-Progress" issue sits in the in-progress column but that filter hides
  it (`InProgFilterHidesHyphenated`). The to-do filter looks for
  to do/todo/ikke/open, while the to-do column takes every status with no
  done or in-progress word, so a "Backlog" issue sits in the to-do column
  but the "todo" filter hides it (`TodoFilterHidesBacklog`). `NamedGroups`
  states what each of the three groups shows.
- **How cards are found.** `document.getElementById` is modelled as "the
  first card with that id in document order". The columns are taken to stand
  in the page in the order to do, in progress, done.
- **What `appendChild` does.** It takes the card out of whichever column
  holds it, then adds it at the end of the target column, possibly the same
  column.
- **Stale ids.** Restoring skips saved ids that name no card. Cards the
  record does not list stay in front, in their order.
- **Empty or broken entries.** An entry that is absent or empty reads as
  `Empty`. An entry that fails to parse reads as `Malformed`. In both cases
  restore answers false and moves nothing.
- **Inputs from the environment.** Two things the page cannot decide are
  parameters:
  - whether `localStorage.setItem` succeeds (the `writable` flag of
    `PersistBoardState` and `Drop`);
  - the issue list that the fetch returns (the argument of `FetchAndRender`).

## Model

| member | source | states |
|---|---|---|
| Text.Contains | js/jira_page.js:231-232 | `includes`, also used at lines 73-75 and 160: the word stands in the text at some position; its case-insensitive meaning is stated by `Text.ContainsLowerIff` |
| Text.Lower | js/jira_page.js:230 | lower-casing keeps the length and maps every character by the Latin-1 case rule |
| Text.ContainsLowerIff | js/jira_page.js:230-232 | `includes` on the lower-cased text holds exactly when some segment of the original text is the word in some letter case |
| Text.LowerIdempotent | js/jira_page.js:152 | lower-casing an already lower-cased status changes nothing |
| Status.NormalizeStatus | js/jira_page.js:228-234 | the column of a status: empty or missing is to do, then done words, then in-progress words; its contract is stated by `Status.NormalizeStatusCases` |
| Status.NormalizeStatusCases | js/jira_page.js:228-234 | the classifier is `done` iff a done word appears in any case; `inprog` iff no done word but an in-progress word appears; `todo` iff neither appears or the status is missing |
| Status.MissingStatusIsTodo | js/jira_page.js:229 | a missing or empty status is `todo` |
| Status.DoneWordWins | js/jira_page.js:231 | a done word anywhere, in any case, gives `done` whatever else the status says |
| Status.InProgWordClassifies | js/jira_page.js:232 | an in-progress word gives `inprog` whenever no done word appears |
| Status.NormalizeStatusIgnoresCase | js/jira_page.js:230 | statuses equal up to letter case land in the same column |
| Status.NormalizeStatusOfLowered | js/jira_page.js:109 | classifying the card's stored lower-cased status gives the same column as classifying the issue's status |
| Status.PriorityClass | js/jira_page.js:70-76 | the class is high iff "high" appears in any case; medium iff not high and "medium" appears; low iff neither and "low" appears; empty otherwise |
| Status.HighWins | js/jira_page.js:73 | "high" anywhere gives the high class, whatever else the priority says |
| Status.MissingPriorityIsUnranked | js/jira_page.js:70 | a missing or empty priority gives the empty class |
| StatusFilter.Shows | js/jira_page.js:149-161 | one card's visibility under a filter; its contract is stated by `ShowAllFilter`, `NamedGroups`, `SubstringFallback`, `ShowsIgnoresFilterCase` and `ShowsOfLowered`, with the examples `DoneFilterHidesClosed`, `DoneFilterShowsCompleted`, `InProgFilterHidesHyphenated` and `TodoFilterHidesBacklog` |
| StatusFilter.ShowAllFilter | js/jira_page.js:151 | no filter, an empty one or "all" in any case shows the card |
| StatusFilter.ShowsIgnoresFilterCase | js/jira_page.js:149 | filter values equal up to case decide alike |
| StatusFilter.ShowsOfLowered | js/jira_page.js:152 | filtering the stored lower-cased status decides as filtering the original status |
| StatusFilter.NamedGroups | js/jira_page.js:153-158 | a to-do, in-progress or done filter value, in any case, shows a card iff its status mentions one of that group's own words in any case: to do/todo/ikke/open, in progress/pågår/doing, done/ferdig/completed |
| StatusFilter.SubstringFallback | js/jira_page.js:160-161 | an unrecognised filter value shows a card iff its status contains the value in some letter case |
| StatusFilter.DoneFilterHidesClosed | js/jira_page.js:157-158 | "Closed" classifies as done but the "done" filter hides it |
| StatusFilter.DoneFilterShowsCompleted | js/jira_page.js:157-158 | "Completed" classifies as to-do but the "done" filter shows it |
| StatusFilter.InProgFilterHidesHyphenated | js/jira_page.js:156 | "In-Progress" is in progress by line 232 but the "in progress" filter hides it |
| StatusFilter.TodoFilterHidesBacklog | js/jira_page.js:154 | "Backlog" is to do by line 233 but the "todo" filter hides it |
| Board.CardId | js/jira_page.js:111 | the card's DOM id for an issue key; that it tells keys apart is `Board.CardIdInjective` |
| Board.CreateCard | js/jira_page.js:58-119 | the card carries its issue's card id and is shown; its stored status is lower-cased and classifies into the same column as the issue's status |
| Board.CardIdInjective | js/jira_page.js:111 | different issue keys give different card ids |
| Board.IndexOf | js/jira_page.js:178 | the result is the first position holding the id, or none exactly when no card of the column has it |
| Board.Locate | js/jira_page.js:178 | none iff no card on the board has the id; otherwise a valid position holding it and no earlier card, in document order, holding it |
| Board.MoveCard | js/jira_page.js:178-179 | an unknown id leaves the board unchanged; a known one ends the target column |
| Board.MoveCardKeepsCards | js/jira_page.js:178-179 | a move keeps the multiset of cards and of ids |
| Board.MoveCardLanes | js/jira_page.js:178-179 | with distinct ids, each column loses only the moved id, and only the target gains it at its end; every other card keeps its column and order |
| Board.Snapshot | js/jira_page.js:197-203 | the record holds each column's ids in display order, and together all ids in document order |
| Board.AppendAll | js/jira_page.js:215-222 | one saved list re-applied to one column, id by id; its contract is stated by `AppendAllKeepsCards` and `AppendAllLanes` |
| Board.Restored | js/jira_page.js:213-223 | the three saved lists re-applied in the order to do, in progress, done; its contract is stated by `RestoredKeepsCards`, `RestoreLane` and `RestoreReproducesLayout` |
| Board.AppendAllKeepsCards | js/jira_page.js:213-222 | re-applying one saved list keeps the multiset of cards and of ids |
| Board.AppendAllLanes | js/jira_page.js:213-222 | with distinct ids, re-applying a saved list takes its ids out of every column and appends those that name a card to the saved column in saved order; ids that name no card are skipped |
| Board.RestoredKeepsCards | js/jira_page.js:212-223 | restoring keeps the multiset of cards and of ids |
| Board.RestoreLane | js/jira_page.js:212-223 | with distinct ids on the board and in the record, each column after restore is its unlisted cards in their order, followed by its saved ids that name cards, in saved order |
| Board.RestoreExactLane | js/jira_page.js:212-223 | for a record listing every card once, each restored column is that column's saved list |
| Board.RestoreReproducesLayout | js/jira_page.js:207-226 | for a record listing every card once, restore yields a board whose snapshot is the record |
| Board.PersistThenRestore | js/jira_page.js:195-226 | with distinct ids on the board, restoring right after persisting, on the same board, reproduces its layout |
| Board.SharedIdRestore | js/jira_page.js:216-220 | a to-do card and a done card sharing one id: restoring their own snapshot moves the to-do card into the done column |
| Board.RepeatedKeysBreakRoundTrip | js/jira_page.js:207-226 | with two issues sharing a key, rendering and restoring the render's own snapshot does not give that snapshot back |
| Board.CardsIn | js/jira_page.js:126-133 | the cards `populateColumns` appends to one column, in issue order; its contract is stated by `CardsInHas` and `CardsInFrom` |
| Board.Placement | js/jira_page.js:125-134 | the three columns after a populate; its contract is stated by `PlacementIds`, `PlacementCount`, `PlacementDistinct`, `PlacementLane` and `PlacementOrder` |
| Board.CardsInHas | js/jira_page.js:127-132 | every issue's card is placed in the column its status names |
| Board.CardsInFrom | js/jira_page.js:127-132 | every placed card is the card of an issue whose status names that column |
| Board.PlacementIds | js/jira_page.js:125-134 | the placed ids are exactly the issues' card ids, each once |
| Board.PlacementCount | js/jira_page.js:125-134 | the three columns hold one card per issue |
| Board.PlacementDistinct | js/jira_page.js:111 | with unique keys, no card id occurs twice on the placed board |
| Board.PlacementLane | js/jira_page.js:127-132 | with unique keys, an issue's card is in a column iff that column is the one its status names |
| Board.PlacementOrder | js/jira_page.js:126-133 | with unique keys, two cards of one column stand in the order of their issues |
| Board.ReloadReproducesLayout | js/jira_page.js:240-245 | a render followed by restoring a record that lists every issue's card once yields exactly that record |
| Board.ShowCol | js/jira_page.js:148-162 | one column with every card's visibility decided afresh; its contract is stated by `Board.FilteredCard` |
| Board.Filtered | js/jira_page.js:147-163 | the board after `applyFilter`; its contract is stated by `FilteredCard`, `FilterKeepsLayout`, `FilterKeepsCounts`, `FilterOverrides` and `FilterAllShowsEverything` |
| Board.FilteredCard | js/jira_page.js:148-162 | filtering keeps every card but its visibility, which becomes the filter's decision on the card's stored status |
| Board.FilterKeepsLayout | js/jira_page.js:147-163 | filtering moves no card: columns and order are unchanged |
| Board.FilterKeepsCounts | js/jira_page.js:147-163 | filtering keeps the board's multiset of ids and each column's length |
| Board.FilterOverrides | js/jira_page.js:147-163 | the last filter decides alone, so the same filter applied twice is applied once |
| Board.FilterAllShowsEverything | js/jira_page.js:151 | no filter, an empty one or "all" shows every card |
| JiraPage.BoardPage.constructor | js/jira_page.js:193 | the page starts with empty columns, no issues and zero counters; counters and cards agree |
| JiraPage.BoardPage.ClearColumns | js/jira_page.js:121-123 | all three columns are empty |
| JiraPage.BoardPage.PopulateColumns | js/jira_page.js:125-134 | the columns become the placement of the issues |
| JiraPage.BoardPage.UpdateStats | js/jira_page.js:136-145 | the total is the issue count and each counter is its column's length |
| JiraPage.BoardPage.FilterColumn | js/jira_page.js:148-162 | the loop gives every card of a column the filter's visibility, nothing else changed |
| JiraPage.BoardPage.ApplyFilter | js/jira_page.js:147-163 | the board becomes its filtered version; one card per issue and the counters' agreement with the columns survive it |
| JiraPage.BoardPage.AppendById | js/jira_page.js:178-179 | the board becomes the move of that id to the target |
| JiraPage.BoardPage.PersistBoardState | js/jira_page.js:195-205 | storage holds the snapshot of the board, or is unchanged when the write fails |
| JiraPage.BoardPage.RestoreColumn | js/jira_page.js:213-222 | the loop re-applies one saved list, id by id, to one column |
| JiraPage.BoardPage.RestoreBoardState | js/jira_page.js:207-226 | true and the restored board for a parsed entry; false and nothing moved for an absent or unparsable one |
| JiraPage.BoardPage.Drop | js/jira_page.js:175-183 | the board becomes the move; storage holds its snapshot when writable; every issue still has its one card; the counters agree and the columns add up to the total |
| JiraPage.BoardPage.FetchAndRender | js/jira_page.js:239-245 | the issues are remembered; the board is their placement, restored from storage when an entry parses; every issue has its one card; the counters agree |
| JiraPage.BoardPage.Reset | js/jira_page.js:188-190 | the click empties the storage entry and nothing else; the render comes later, when the fetch resolves |
| JiraPage.CountOfIssues | js/jira_page.js:136-145 | a board with one card per issue has as many cards as issues |
| JiraPage.MoveKeepsIssues | js/jira_page.js:178-182 | a drop keeps one card per issue, so the column counters still add up to the total |
| JiraPage.RenderKeepsCards | js/jira_page.js:242-244 | a render holds one card per issue whether or not a layout is restored |
| JiraPage.DropThenReload | js/jira_page.js:178-180 | with unique issue keys, a saved drop survives a reload: re-rendering the same issues and restoring the saved record gives the layout the drop left |

## Left out

- Fetch and its error path (lines 236-251). The request and the error
  message written into the area are I/O. `FetchAndRender` starts from the
  issue list the request returned.
- The modal, card markup and styling, the drag opacity timer, and the
  filter buttons' active classes. These are visuals with no board state.
- `createCard` builds a whole DOM subtree. `Board.CreateCard` keeps only what
  the board reads back: the id, the lower-cased status, the priority class
  and the visibility.
- Local storage and JSON are abstracted as the `Slot` value. A record whose
  lists are not arrays, or only partly usable, is left out. So is a restore
  that throws midway after moving some cards.
- JiraPage.BoardPage.constructor: assumes the page markup starts with empty
  columns and zero counters. The script never clears them before the first
  render (line 193 only sets `currentIssues`), so a drop before the first
  fetch resolves persists whatever the markup holds.
- The `ts` timestamp in the saved record (`Date.now()`) is never read back
  and is not modelled.
- `currentIssues || []` in the drop handler: `currentIssues` is always an
  array in the model.
- Text.Lower: models `toLowerCase` on Latin-1 letters only. Other scripts'
  case mappings and multi-character mappings are not modelled.
- Board.Locate: assumes the three columns stand in the page as to do, in
  progress, done. Elements other than cards that carry the same id are not
  modelled.
- Board.PlacementOrder, Board.PlacementLane, Board.PlacementDistinct and
  Board.ReloadReproducesLayout assume unique issue keys. With repeated keys
  two cards share an id, and `getElementById` finds only the first.
- Board.MoveCardLanes, Board.AppendAllLanes, Board.RestoreLane,
  Board.RestoreExactLane, Board.RestoreReproducesLayout,
  Board.PersistThenRestore and JiraPage.DropThenReload assume distinct card
  ids (unique issue keys). Without that the round trip fails:
  Board.RepeatedKeysBreakRoundTrip gives two issues with one key whose
  render is not reproduced by restoring its own snapshot.
- The regular expressions of `applyFilter` are modelled as substring tests on
  the lower-cased status. With the `i` flag and lower-case patterns they
  match the same texts within the Latin-1 model of letter case.
- `scripts/fetch_jira.js`, `server/index.js`, `js/index.js`, `js/scroll.js`
  and `js/omprosjekt.js` are not part of this model. They are network
  plumbing, UI animation and I/O.
