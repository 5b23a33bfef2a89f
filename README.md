# Saudi TFT bidding mission: verified model of the app's rules

The app is a classroom bidding game in one React component (`App.tsx`). Learners play for
Korea against three fixed competitors (the United States, Germany and China). A learner picks a
team and walks through an intro, an analysis screen and a records screen. On the simulation
screen they submit a price, an expected profit and the total score they computed for each
country. Then they wait until the instructor (the admin) reveals the results. Team members
share a scratchpad of notes that is saved on the device and broadcast to the team's other
devices.

This project models the rules behind those screens and proves properties of them:

- `StableOrder.dfy`: the stable ascending sort that `Array.prototype.sort` performs with a
  numeric comparator. It is an insertion sort over indices, proved against the order "smaller
  key, then smaller index". The 1-based position of every element is `StableRank`. The ranks
  are proved to be a permutation of 1..n that follows the order exactly.
- `Scoring.dfy`: `calculateRanks`. It builds the participants (the competitors, then Korea with
  the bid) and gives each a price score through the price-score mapping, according to its
  position in the stable sort by bid. It sums the four component scores into a total and ranks
  by a stable descending sort on total. Filling the price-rank dictionary and writing ranks in
  place are imperative, as in the source: a loop filling a `map`, and a loop over an `array`.
- `Channels.dfy`: the broadcast messages, the session channel's name, and the team channel and
  storage-key names built from the selected team. Different teams get different names.
- `TeamNotes.dfy`: the notes list. Editing appends an open line. The debounced save filters the
  list. `removeNote` drops a line. A `SYNC_NOTES` message replaces the list. Saved notes are
  loaded when a team is selected. The list operations are functions with their properties as
  lemmas. The session's note state is a class whose methods update it in place: the device
  store and the outbox of posts are fields.
- `Flow.dfy`: the session and wizard state (role, screen, revealed, submitted, login error,
  password, pending redirect timers) and every handler that changes it. Events drive it as the
  code is written, and also with the redirect timer cancelled when its view goes. For the
  latter it proves an invariant that every run of events keeps.
- `Gallery.dfy`: each team's slice of the 108 information cards, the zoomed view's wrap-around,
  and the card label.
- `Grading.dfy`: reading the fields with `Number(...)`, the result screen's grading, and the
  answer key checked against the scoring engine.

## Model

| member | source | states |
|---|---|---|
| StableOrder.StableSortByKey | App.tsx:124 | returns every index exactly once, each before all that follow in the order "smaller bid, then earlier in the list"; a stable ascending sort |
| StableOrder.PositionIsStableRank | App.tsx:125-126 | in any stable sorted order, the element at position q has rank q + 1, so `idx + 1` over the sorted list is `StableRank` |
| StableOrder.StableRankOrder | App.tsx:142-146 | one rank is smaller than another exactly when its element comes first in the stable order |
| StableOrder.StableRanksArePermutation | App.tsx:142-146 | the ranks of n elements are in 1..n, pairwise distinct, and every value of 1..n is taken |
| Scoring.CalculateRanks | App.tsx:118-148 | a NaN price leaves the previous results unchanged; otherwise one entry per participant, competitors then Korea, Korea carrying the bid, the other components copied, total = sum of the four scores, and the whole result equals the specification `Ranking` |
| Scoring.PriceRanks | App.tsx:124-126 | maps each participant's country to its 1-based position in the stable sort by bid |
| Scoring.AssignRanks | App.tsx:142-146 | writes, in place, each row's rank as its position in the stable descending sort by total; nothing else in the rows changes |
| Scoring.FindByCountry | App.tsx:144 | finds the first row of the given country |
| Scoring.PriceScoreIsSortPosition | App.tsx:124-130 | the participant at position q of any stable sort by bid gets the mapped score for rank q + 1 |
| Scoring.FinalRanksArePermutation | App.tsx:142-146 | the final ranks are a permutation of 1..N |
| Scoring.RankFollowsTotal | App.tsx:142-146 | a strictly higher total gives a strictly smaller rank; equal totals are ranked in list order; a smaller rank never has a lower total |
| Scoring.LowerBidScoresAtLeastAsHigh | App.tsx:124-130 | with a non-increasing mapping a lower bid never earns a lower price score, and with a decreasing one it earns a strictly higher one |
| Scoring.ParticipantsDistinct | App.tsx:120-123 | the participants have pairwise distinct countries, so the country-keyed dictionary loses nothing |
| Scoring.BaselineScenario | App.tsx:118-148 | the shipped data and a bid of 663 give totals USA 82, Germany 89, China 88, Korea 90, with Korea first |
| Channels.TeamNamesSeparate | App.tsx:76-79 | two selections get the same channel name and storage key exactly when they are the same selection, and no team channel is the session channel |
| Channels.DecimalInjective | App.tsx:76 | different team numbers print differently |
| TeamNotes.EditNotes | App.tsx:91-94 | only line i changes, to the new value; exactly one empty line is appended when i is the last line and the value is not blank, otherwise the length is unchanged |
| TeamNotes.EditKeepsOpenLine | App.tsx:94 | after an edit the list ends in a blank open line when it did before, and whenever the last line was edited |
| TeamNotes.BlankIffAllWhitespace | App.tsx:94 | `trim() === ''` exactly when every character is white space |
| TeamNotes.SaveFilter | App.tsx:99 | the saved list of an empty list is empty, and the saved list is never longer than the list |
| TeamNotes.SaveFilterProperties | App.tsx:99 | the saved list keeps the last line last, holds only non-blank lines and copies of the last line, keeps every such line as often as it occurs, is the list's lines at strictly increasing indices that are exactly those of the kept lines (so the order is kept), and filtering it again changes nothing |
| TeamNotes.FilterKeepsOrder | App.tsx:99 | `filter` is the list's lines at a strictly increasing sequence of indices, which holds an index exactly when the test accepts that line |
| TeamNotes.FilterCounts | App.tsx:99 | each accepted value appears as often as in the input, and every other value not at all |
| TeamNotes.FilterIdempotent | App.tsx:99 | filtering twice is filtering once |
| TeamNotes.SaveKeepsClearedMiddleLine | App.tsx:99 | a cleared middle line is saved when the open line is empty, and a space-only middle line is dropped |
| TeamNotes.RemoveAt | App.tsx:108-110 | a list of at most one line becomes one empty line; otherwise exactly line i is removed and the others keep their order |
| TeamNotes.RemoveAtExactlyOne | App.tsx:108-110 | removing a line that has a remove button takes out exactly that one value and keeps the open line |
| TeamNotes.LoadNotes | App.tsx:74-77 | with no team or team 0, or nothing saved under the team's key, the current list; otherwise the list saved under that key |
| TeamNotes.SaveThenLoad | App.tsx:75-77 | a team loads back what it saved, whatever another team saves afterwards |
| TeamNotes.NotesSync.SelectTeam | App.tsx:74-77 | selecting a different team loads its saved list when there is one and keeps the current list otherwise; selecting the selected team again keeps the current list |
| TeamNotes.NotesSync.HandleNoteChange | App.tsx:91-98 | the list becomes the edited list, syncing shows, and the pending save is replaced by one for this list |
| TeamNotes.NotesSync.DebounceElapsed | App.tsx:98-105 | the filtered list is stored under the team's key, the unfiltered list is posted on the team's channel, syncing stops |
| TeamNotes.NotesSync.RemoveNote | App.tsx:108-116 | the list becomes `RemoveAt`; with more than one line the same new list is stored and posted, otherwise nothing is stored or posted |
| TeamNotes.NotesSync.Deliver | App.tsx:79-85 | only `SYNC_NOTES` on the selected team's channel replaces the list and starts the syncing pulse; every other post changes nothing |
| TeamNotes.NotesSync.RemoveNoteCancellingSave | App.tsx:108-116 | the removal as `RemoveNote` states it, with the pending save cancelled, so no older list can overwrite it; the syncing flag stays on only when no save was pending |
| TeamNotes.StaleSaveAfterRemove | App.tsx:79-116 | as written: typing "a" and "b" and removing "a" at once shows `["b", ""]` for a moment; then the store, the last post and, through this session's own team listener, the screen get `["a", "b", ""]` back |
| TeamNotes.RemovalStaysRemoved | App.tsx:79-116 | corrected: the same steps, with the removal's post delivered to this session, leave the screen, the store and the last post all at `["b", ""]`, with no save pending |
| TeamNotes.NotesSync.SyncPulseElapsed | App.tsx:84 | the syncing pulse ends and nothing else changes |
| Flow.OnSessionMessage | App.tsx:62-68 | a reveal sets the revealed flag, a reset clears revealed and submitted, any other message changes nothing; the screen and role never change |
| Flow.SessionMessageIdempotent | App.tsx:62-68 | a message received twice acts as once |
| Flow.TriggerMatchesListeners | App.tsx:167-179 | after a reveal the admin's state is what every listener computes; after a reset it is so exactly when the admin had not submitted, and the admin's own listener then catches up |
| Flow.TriggerReveal | App.tsx:167-172 | posts `REVEAL_RESULTS` on the session channel and sets only the local revealed flag |
| Flow.TriggerReset | App.tsx:174-179 | posts `RESET_RESULTS` on the session channel and clears only the local revealed flag, leaving the submitted flag |
| Flow.FinalSubmit | App.tsx:181-183 | the submitted flag is set and nothing else changes |
| Flow.HandleNext | App.tsx:189-194 | intro, analysis and records advance one screen; simulation submits and stays; other screens are unchanged |
| Flow.HandleBack | App.tsx:196-203 | team selection returns to role selection and clears the role; intro returns to team selection; analysis, records and simulation return to the screen whose next they are; the result returns to simulation; the role is kept and the other screens are unchanged |
| Flow.BackUndoesNext | App.tsx:189-203 | back undoes next on intro, analysis and records |
| Flow.NextUndoesBack | App.tsx:189-203 | next undoes back on analysis, records and simulation |
| Flow.ChooseUser | App.tsx:303 | the learner button sets the USER role and opens team selection |
| Flow.ChooseAdmin | App.tsx:313 | the admin button sets the ADMIN role and opens the admin login |
| Flow.StartMission | App.tsx:364 | the start button opens the intro when it is enabled, and does nothing when it is disabled |
| Flow.ToStart | App.tsx:589 | the logout, home and start-screen buttons clear the role and open role selection |
| Flow.TypePassword | App.tsx:333 | typing sets the password field and nothing else |
| Flow.Login | App.tsx:154-165 | the password is cleared; the error flag is set exactly when the password is not the admin key; the key opens the admin result step, anything else keeps role and screen |
| Flow.SimulationView | App.tsx:464-482 | waiting exactly when submitted and not revealed, redirect exactly when both, the form exactly when not submitted |
| Flow.Redirect | App.tsx:480 | the redirect timer's callback sets the RESULT step and nothing else |
| Flow.RedirectTimers | App.tsx:479-481 | only a render of the redirect view schedules a redirect timer; a pending timer that fires sets RESULT whatever the state; no other event touches the timers |
| Flow.OnlyRoleButtonsChangeRole | App.tsx:154-203 | only the role buttons, the home and logout buttons, back from team selection (to no role) and the login with the admin key (to ADMIN) change the role |
| Flow.RedirectRaceOpensAdminView | App.tsx:479-481 | as written: a learner on the redirect view who presses the admin or home button before the timer fires ends on the RESULT step without the USER role, which is drawn by the admin view, without a password |
| Flow.CancellingOnlyClearsTimers | App.tsx:479-481 | corrected: the transition differs from the code only in the pending timers, and none is pending unless the redirect view is on screen |
| Flow.AdminViewNeedsPassword | App.tsx:154-165 | corrected: from a consistent state, the only event that turns another screen into the admin view is the login with the admin key |
| Flow.Retry | App.tsx:588 | back on the simulation screen with both flags cleared, showing the form |
| Flow.SubmitWaitRevealReset | App.tsx:181-183 | submitting from the form waits; a reveal turns the wait into the redirect; a reset returns to the form |
| Flow.EarlyRevealSkipsWaiting | App.tsx:465-482 | a reveal received before submitting makes the submission go straight to the redirect |
| Flow.RunKeepsRoleMatch | App.tsx:196-203 | with redirect timers cancelled when their view goes, over every run of events the role is cleared exactly on the role-selection screen, and a timer is pending only while its view shows |
| Flow.LearnerRoundScenario | App.tsx:464-482 | choosing learner, starting, three nexts and a submit reach the waiting view |
| Flow.RevealScenario | App.tsx:464-482 | a waiting learner's reveal is rendered as the redirect, whose timer opens the result with the USER role and no timer left |
| Flow.ResetRetryScenario | App.tsx:588 | a reset followed by the retry brings the bid form back |
| Gallery.TeamImages | App.tsx:231-237 | no images without a team or with no teams; team t of m gets the images between its bounds, which lie inside the list; teams past the last get none |
| Gallery.TeamBoundsInRange | App.tsx:233-236 | a team's start is at most its end, the end of a team up to m lies inside the list, and a team past m starts at the end |
| Gallery.TeamsAdjacent | App.tsx:234-235 | team t's end is team t + 1's start |
| Gallery.TeamsPartitionImages | App.tsx:231-237 | teams 1..m together, in order, see exactly the whole list |
| Gallery.EvenShares | App.tsx:234-235 | when m divides the number of images every team gets the same share |
| Gallery.ZoomInverse | App.tsx:268-269 | previous and next undo each other |
| Gallery.ZoomPrev | App.tsx:268 | the previous index stays in range and wraps from the first card to the last |
| Gallery.ZoomNext | App.tsx:269 | the next index stays in range and wraps from the last card to the first |
| Gallery.ZoomFullCircle | App.tsx:269 | pressing next once per card returns to the starting card |
| Gallery.LastSegment | App.tsx:226-227 | the segment after the last `/`, holding no `/` itself |
| Gallery.IndexOf | App.tsx:228 | the first occurrence of the pattern at or after a position, or none |
| Gallery.ImageLabel | App.tsx:225-229 | the label holds no `/` and is no longer than the URL |
| Gallery.ImageLabelOfCard | App.tsx:225-229 | a card `dir/name.jpg` whose name has no `/` or `.` is labelled `name` |
| Grading.NumberOf | App.tsx:524-525 | `Number('')` is 0; an integer field reads as its value |
| Grading.GradeSubmission | App.tsx:524-526 | the price is right exactly for the integer 663, the profit exactly for 63, the mission is won exactly with both, and each country's score is right exactly when its field holds its answer score, so an empty field never is |
| Grading.OrZero | App.tsx:559 | an empty field becomes the field `'0'`, the integer 0; any other field is kept as it is |
| Grading.ScoreFallbackChangesNothing | App.tsx:559-560 | replacing an empty score by `'0'` changes no verdict |
| Grading.PriceCorrectOnlyFor663 | App.tsx:524-526 | only an integer 663 gets the price right, and the mission is won exactly with 663 and 63 |
| Grading.OnUserPriceChange | App.tsx:150-152 | text that is not a number keeps the results; a blank price is ranked as a bid of 0; an integer as itself |
| Grading.BlankPriceScoredAsZero | App.tsx:151 | a blank price is scored as the lowest bid, with the top price score and first place |
| Grading.AnswerKeyMatchesEngine | App.tsx:10-19 | the answer key's scores are the engine's totals for a bid of 663, where Korea ranks first |
| Grading.KoreaWinsIffBidAtMost663 | App.tsx:118-148 | with the shipped data Korea ranks first exactly when it bids at most 663 |

The shipped constants (`COMPETITOR_DATA`, `KOREA_FIXED_DATA`, `PRICE_SCORE_MAPPING` and the
108 card URLs) live in the repository's `constants.ts`. `Scoring.CompetitorData`,
`Scoring.KoreaFixedData` and `Scoring.PriceScoreMapping` copy them. `CalculateRanks` itself
takes any well-formed competitors and mapping as parameters.

Behaviour the model keeps as the code has it, though a reader may not expect it:

- The save filter keeps a blank line whenever it equals the last line, comparing by value. So a
  cleared middle line is saved whenever the open line is empty.
- Selecting a team with nothing saved keeps the current notes rather than resetting them.
- Choosing the team that is already selected does not reload its saved notes: the loading
  effect runs only when the selection changes.
- Removing from a list of one line resets it to `['']` and neither saves nor broadcasts.
- A reveal received before this team submits is kept, so the later submission skips the
  waiting screen.
- `removeNote` does not cancel a pending debounced save. The save may then fire and write the
  older, edited list, which this session's own team listener then also puts back on screen
  (see Findings).
- The redirect to the result is a timer scheduled by every render of the redirect view and
  never cancelled, so a timer may fire after the learner has left that view (see Findings).
- `triggerReset` clears only the admin's revealed flag locally. The admin's own session
  listener is a separate channel object, so it receives the reset too and also clears the
  submitted flag.

## Findings

| source | as written | input that shows it | evidently intended | confidence | as-written member | corrected member |
|---|---|---|---|---|---|---|
| App.tsx:97-115 | `removeNote` saves and broadcasts the new list but leaves the debounce timer of an earlier edit running; when it fires it saves and broadcasts the list from before the removal, and this session's own team listener shows that list again | type "a" on the open line, then "b", then remove "a" within 800 ms | a removal stays removed on this device, in the store and on the team's other devices | medium, not executed | TeamNotes.StaleSaveAfterRemove | TeamNotes.RemovalStaysRemoved |
| App.tsx:479-481 | `renderSimulation` schedules `setStep(RESULT)` on every render of the redirect view and never cancels it; the timer sets RESULT whatever role and screen the app has when it fires, and RESULT without the USER role is drawn by the admin view | a learner whose results were just revealed presses the header's admin button (App.tsx:700) or home button (App.tsx:692) within 100 ms | the redirect only takes a learner from the redirect view to the result; the admin view opens only with the password | low, not executed | Flow.RedirectRaceOpensAdminView | Flow.AdminViewNeedsPassword |

## Left out

- JSX rendering, CSS, the modals and the step indicator: presentation only.
- `BroadcastChannel` delivery and `localStorage`: modelled as an outbox of posts and a
  key-value map field. Delivering a post to other devices is the caller's business, and JSON
  encoding is the identity here.
- Timers: the 800 ms debounce, the 500 ms syncing pulse and the 100 ms redirect delay are
  events (`DebounceElapsed`, `SyncPulseElapsed`, `RedirectFired`), and a render of the
  redirect view is the `Rendered` event. Only their durations are abstracted: any other event
  may come before the timer's event, as in both Findings scenarios.
- `getStrategyFeedback` and the `loading` and `ceoFeedback` fields: an external network
  service, and `services/geminiService.ts` is not part of this model.
- `adminSubView`, `sessionName`, `isSessionActive`, `studentName`, `showInfoCard`: display
  state that no modelled rule reads. Whether the start button is enabled is the `ready`
  argument of `Flow.StartMission`.
- Grading.OnUserPriceChange: requires the price text not to be a fractional number. Prices are
  integers in this model, so a fractional bid is never ranked.
- Gallery.TeamImages: the bounds use exact rational floor division. The source computes
  `Math.floor(t * (total / maxTeams))` in floating point, which differs from the exact floor
  for some small counts too: with 15 cards over 11 teams team 11 ends at 14, so the last card
  goes to no team and `TeamsPartitionImages` does not hold for the source there (13 over 23
  and 15 over 13 differ as well). For the 108 shipped cards and the 1 to 24 teams the admin can choose, the two agree.
- `Number(...)` string parsing and floating point: a field is empty, an integer, a fraction or
  not a number.
- The `null` participants that `calculateRanks` filters out: every participant here is a
  record.
- Cross-tab ordering and last-writer-wins between devices: concurrency.
- `{userScore}` and `{userPrice || 0}` display text on the result screen.
