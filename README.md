# ClassChat client core, modelled in Dafny

This project models the part of the ClassChat browser chat client that holds
state, in `src/components/Screen.js` and `src/components/Messages.js`:

- **Message-log synchronisation** (`MessageSync`, `Screen.ScreenState`). The
  Screen keeps a log `messages` and a cursor `lastMessage`. A poll sends
  either no cursor or the stored one. A falsy answer from the service calls
  `refreshLogin` and changes nothing. An empty batch changes nothing. A
  non-empty batch is appended as it comes, and the cursor moves to its last
  item's `when`. Switching site resets the cursor and polls without one. The
  log is kept, as the code does.
- **File-submission dialog** (`SubmitDialog`). It holds the selection, the
  error and the submitting state. A file is posted only when one is present
  and its size is below 1,024,000 bytes. The view shows the submitting view
  (no cancel control), the edit view, or nothing.
- **Feedback dialog** (`Feedbacks`). The fetched names are sorted in place
  and stored. Opening one uses `text/plain` exactly for names ending in `.txt`.
- **Site lookup and page choice** (`Screen`). This covers `submissions`, the
  `hasSubmissions` gate on both dialogs, and the not-found page.
- **Scroll anchoring** (`Messages`). The `prevScrollHeight` ref and the
  element's `scrollTop` form a two-field state machine. Each change of `msgs`
  pins to the bottom when `prev - scrollTop < clientHeight + 10`; otherwise
  nothing moves. The rendered rows are keyed `msg${id}`.

The service calls (`fetchMessages`, `postSubmission`, `fetchFeedbacks`,
`fetchFeedback`) are function parameters: the model takes whatever they
return. Awaiting `postSubmission` splits `handleSubmit` into `BeginSubmit`
(up to the call) and `FinishSubmit` (after it), so the submitting view is a
reachable state.

Four behaviours of the code are worth knowing before reading the proofs:

- The size limit is 1,024,000 bytes.
- A site change keeps the log (`SiteChangeKeepsOldLog`).
- Batches are appended without any check against the cursor.
- A poll result is applied to whatever site is current when it arrives.

Files: `wrappers.dfy` (Option), `text.dfy` (suffix test, string order,
decimal digits), `message_sync.dfy`, `screen.dfy`, `submit_dialog.dfy`,
`feedbacks.dfy`, `messages.dfy`.

## Model

| member | source | states |
|---|---|---|
| MessageSync.RequestCursor | src/components/Screen.js:254 | a poll asked to ignore the cursor sends null whatever is stored; otherwise it sends the stored `lastMessage` |
| MessageSync.Apply | src/components/Screen.js:256-262 | one poll: the log becomes the old log followed by the batch's messages; the state changes exactly when a non-empty batch arrives, and then the cursor is the `when` of the batch's last message |
| MessageSync.ApplyBatch | src/components/Screen.js:260-262 | a non-empty batch keeps the old log as a prefix, places every batch item after it in order, grows the log by exactly the batch, and sets the cursor to the last item's `when` |
| MessageSync.ApplyNoChange | src/components/Screen.js:256-263 | an authentication failure or an empty batch leaves log and cursor unchanged |
| MessageSync.Replay | src/components/Screen.js:253-263 | repeated polls: the old log always survives as a prefix of the new one |
| MessageSync.ReplayLog | src/components/Screen.js:253-263 | over any run of polls the log is the old log followed by every delivered message, in arrival order; failures contribute nothing |
| MessageSync.ReplayCursor | src/components/Screen.js:260-262 | over any run of polls the cursor is the `when` of the last delivered message, or its old value if nothing was delivered |
| MessageSync.ReplayNothingDelivered | src/components/Screen.js:256-263 | a run of polls that delivers no message leaves the state exactly as it was |
| MessageSync.CursoredPollKeepsCoherent | src/components/Screen.js:254-262 | if the service answers the stored cursor with an ascending batch strictly after it, the log stays in time order with the cursor at its tail, and the cursor never moves back |
| MessageSync.CursoredRunKeepsCoherent | src/components/Screen.js:253-263 | the same holds over any run of cursored polls the service answers as promised |
| MessageSync.SiteChangeKeepsOldLog | src/components/Screen.js:261-267 | after a site change the reset cursor and uncursored poll append the new history after the old log, so the log can leave time order even when the service behaves |
| Screen.SubmissionsAsWritten | src/components/Screen.js:239 | the lookup as written throws exactly for a non-empty name that is neither a key of `sitesObj` nor inherited from `Object.prototype`; an inherited name yields `[]`, a listed one its submissions or `[]` |
| Screen.PageAsWritten | src/components/Screen.js:239-279 | the render as written throws exactly when the lookup does, and otherwise shows not-found exactly for an unlisted site |
| Screen.AsWrittenCrashesOnUnlistedSite | src/components/Screen.js:239 | the render as written throws exactly when the site name is non-empty, not among the profile's sites and not a name inherited from `Object.prototype` |
| Screen.InheritedNameExample | src/components/Screen.js:239 | an unlisted inherited name such as `"constructor"` does not throw and reaches the not-found page |
| Screen.UnknownSiteExample | src/components/Screen.js:277-278 | site `"x"` with no sites: the as-written render throws, the corrected one renders the not-found page |
| Screen.Submissions | src/components/Screen.js:239 | a listed, non-empty site gives its submissions list (or empty when missing); any other site gives none |
| Screen.ScreenPage | src/components/Screen.js:277-288 | never throws; not-found exactly for an unlisted site; otherwise both dialogs and the header actions are present exactly when submissions exist, the header is disabled while either dialog shows, and the log is passed to Messages |
| Screen.CorrectedAgreesWhenNoCrash | src/components/Screen.js:239-240 | wherever the as-written render does not throw, the corrected page is the same |
| Screen.DialogsNeedSubmissions | src/components/Screen.js:282-283 | for a listed site with a submissions list, each dialog is mounted exactly when that list is non-empty |
| Screen.ScreenState.constructor | src/components/Screen.js:233-236 | the log starts empty, the cursor null, both dialogs hidden |
| Screen.ScreenState.Render | src/components/Screen.js:277-285 | the page is not-found exactly for an unlisted site and otherwise shows the current log |
| Screen.ScreenState.GetNewMessages | src/components/Screen.js:253-264 | sends the cursor `RequestCursor` chooses, signals `refreshLogin` exactly on a failure, appends a non-empty batch and moves the cursor, and otherwise changes nothing |
| Screen.ScreenState.SiteChanged | src/components/Screen.js:265-267 | switches the site, sends no cursor, keeps the old log followed by the new site's answer, and leaves the cursor null unless that answer has messages |
| Screen.ScreenState.EnableSubmitFile | src/components/Screen.js:241-243 | the submit dialog is shown |
| Screen.ScreenState.CancelSubmitFile | src/components/Screen.js:244-246 | the submit dialog is hidden (also its `done`) |
| Screen.ScreenState.EnableFeedbacks | src/components/Screen.js:247-249 | the feedback dialog is shown |
| Screen.ScreenState.CancelFeedbacks | src/components/Screen.js:250-252 | the feedback dialog is hidden |
| SubmitDialog.CheckFiles | src/components/Screen.js:122-125 | a file is sent exactly when one is present and its size is below 1,024,000, and it is the first file; no file is distinguished from a file too large |
| SubmitDialog.SizeBoundary | src/components/Screen.js:125 | 1,023,999 bytes is sent; 1,024,000 bytes is refused |
| SubmitDialog.ChooseView | src/components/Screen.js:145-182 | the submitting view exactly when shown and submitting, the edit view exactly when shown and not submitting, nothing when hidden; each view carries the current selection |
| SubmitDialog.CancelOnlyWhenIdle | src/components/Screen.js:145-182 | a cancel control is on screen exactly when the dialog is shown and no submission is in flight |
| SubmitDialog.SubmitFileDialog.constructor | src/components/Screen.js:114-117 | the first submission is preselected, with no error and nothing submitting |
| SubmitDialog.SubmitFileDialog.Render | src/components/Screen.js:145-182 | the submitting view exactly while shown and submitting; cancel exactly while shown and idle |
| SubmitDialog.SubmitFileDialog.HandleSelectionChange | src/components/Screen.js:118-120 | the selection becomes the chosen value |
| SubmitDialog.SubmitFileDialog.BeginSubmit | src/components/Screen.js:121-142 | no file changes nothing; a file too large clears submitting and sets the size error; a small enough file is recorded as submitting and handed to the post |
| SubmitDialog.SubmitFileDialog.FinishSubmit | src/components/Screen.js:131-137 | submitting is cleared; a truthy result calls `done`, a falsy one sets the submission error |
| SubmitDialog.SubmitFileDialog.HandleSubmit | src/components/Screen.js:121-144 | the post is called exactly for a present file below the limit, with the user, the current selection and that file; its result decides `done` or the submission error; otherwise `done` is not called and the size error or no change follows |
| Text.StrLe | src/components/Screen.js:206 | the string order of the default sort; a prefix comes no later than the longer string |
| Text.StrLeLexicographic | src/components/Screen.js:206 | that order is the lexicographic one: a prefix, or smaller at the first differing character |
| Feedbacks.SortInPlace | src/components/Screen.js:206 | the array ends sorted and is a permutation of what it held |
| Feedbacks.SortedUnique | src/components/Screen.js:206 | two sorted lists with the same names are equal, so the sorted result is determined by the fetched names |
| Feedbacks.FeedbackOrderExample | src/components/Screen.js:205-207 | fetching `["b.txt","a.txt"]` stores `["a.txt","b.txt"]` |
| Feedbacks.FeedbacksDialog.constructor | src/components/Screen.js:202-203 | the dialog keeps the user and site it is given; the list starts empty |
| Feedbacks.FeedbacksDialog.Load | src/components/Screen.js:204-208 | for the given site, the stored list is the fetched array after it was sorted in place: sorted and a permutation of the fetched names |
| Feedbacks.FeedbacksDialog.Shown | src/components/Screen.js:213-229 | a shown dialog lists exactly the stored names in order; a hidden one shows none |
| Feedbacks.MimeFor | src/components/Screen.js:187-190 | `text/plain` exactly when the name ends with `.txt`, otherwise `application/octet-stream` |
| Feedbacks.TxtNamesArePlainText | src/components/Screen.js:188-189 | any name with the `.txt` suffix opens as plain text |
| Feedbacks.FeedbacksDialog.ShowFeedback | src/components/Screen.js:209-212 | the download carries the chosen name, the content fetched for the dialog's user, site and that name, and the type `MimeFor` picks |
| Messages.FirstUpdatePins | src/components/Messages.js:18-24 | on a fresh mount the first change pins to the bottom and records the new height |
| Messages.WorkedExamples | src/components/Messages.js:20 | prev 1000, offset 950, viewport 60 pins; prev 1000, offset 200, viewport 60 does not |
| Messages.Update | src/components/Messages.js:20-25 | one run of the effect: the state moves only when the reader was at the bottom, and then both fields become the new height; after it the state is either untouched or pinned |
| Messages.ScrollDecidesNextPin | src/components/Messages.js:20-24 | after the reader scrolls, the next change pins exactly when the new offset is within `clientHeight + 10` of the recorded height; scrolling back to the recorded bottom is pinned again |
| Messages.Run | src/components/Messages.js:19-26 | after any sequence of changes the state is either as it started or pinned, with the offset at the recorded height |
| Messages.Decisions | src/components/Messages.js:19-26 | exactly one pin decision per change of `msgs` |
| Messages.PinnedStaysPinned | src/components/Messages.js:19-26 | a reader at the bottom who does not scroll is pinned on every later change and ends at the last height |
| Messages.ScrollbackStaysPut | src/components/Messages.js:20-25 | a reader in the scrollback is never moved: no change pins, and neither offset nor recorded height moves |
| Messages.RenderedKeys | src/components/Messages.js:29 | one row per message, in log order, each keyed by its message |
| Messages.KeysDistinct | src/components/Messages.js:29 | distinct message ids give distinct row keys |
| Messages.MessagesView.constructor | src/components/Messages.js:18 | the recorded height and the offset start at 0 |
| Messages.MessagesView.UserScroll | src/components/Messages.js:20 | the reader's scroll sets only the offset the effect reads; the recorded height stays |
| Messages.MessagesView.OnUpdate | src/components/Messages.js:19-26 | pins exactly when `prev - scrollTop < clientHeight + 10`, then setting both offset and recorded height to the new height; otherwise neither changes |

## Findings

| source | as written | input that shows it | evidently intended | confidence | as-written member | corrected member |
|---|---|---|---|---|---|---|
| src/components/Screen.js:239 | `sites[site].submissions` is read before the not-found test at line 277, so for an unlisted site name (other than one inherited from `Object.prototype`) the render throws a TypeError and never reaches the not-found page | a profile with no site `"x"` and `site = "x"` | render the not-found selection for an unknown site | high; not executed | Screen.AsWrittenCrashesOnUnlistedSite | Screen.ScreenPage |

`Screen.PageAsWritten` and `Screen.SubmissionsAsWritten` model the code as
written, including the inherited names (`"constructor"`, `"toString"`,
`"__proto__"` and the other `Object.prototype` properties) that do not throw. `Screen.ScreenState.Render` uses the corrected `Screen.ScreenPage`.

## Left out

- Styled-components layout and JSX markup: presentation only. The views are reduced to which view shows and what it carries.
- `setInterval`/`clearInterval`, the 60-second period and async interleaving: timing and concurrency. The timer's repeated polls are modelled as a run of results (`Replay`).
- React closures: the interval callback sees the cursor and log of the render that armed it. That is a runtime artefact, and the model applies each poll to the current state.
- The service calls themselves: external. They are oracle parameters.
- A `null` fetch result: the code calls `refreshLogin` and then throws on `null.length`. For `false`, `false.length > 0` is false. Both leave log and cursor unchanged, so one `AuthFail` case models both.
- An exception from `postSubmission`: the code does not handle it, so submitting would stay set. The model takes the post to return a boolean.
- The list of `Object.prototype` names is that of a plain object in current browsers; a profile object with a different prototype is not modelled.
- Blob, object URL and anchor click in `openAsPageInNewTab`: DOM side effects. Only the content type is kept.
- `submitError` in Screen and `scrollToBottom` in Messages: declared but never read.
- The `Header`, `InputBox`, `Selection` and `Message` components are not part of this model. InputBox's call of `getNewMessages` after sending is `GetNewMessages`.
- Scroll metrics are integers. The browser's clamping of `scrollTop` to `scrollHeight - clientHeight` is not modelled. `MessagesView.UserScroll` stands for the reader moving the view.
- Feedbacks.SortInPlace: orders strings by character code. JavaScript's default sort compares UTF-16 code units, which differs only for characters outside the Basic Multilingual Plane.
- Date grouping of messages: the files modelled contain no such code.
