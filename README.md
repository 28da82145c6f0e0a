# Dooms AI chat front end: a verified model

The Dooms AI Plasma widgets show their chat in a web view driven by one
script per widget. The `org.doomsai.chat` and `org.doomsai.ollama_chat`
widgets each have a `chat.js`. This project models the logic in those
scripts that is more than DOM glue, and proves properties about it:

- **Markdown and `escapeHtml`** (`markdown.dfy`). HTML escaping is shown
  to be a per-character map that never emits `<` or `>` and can be undone.
  - Each line test of `renderMarkdown` is written as a character predicate.
    The rule, heading, quote and list-item tests each come with a lemma
    that they hold exactly when their regular expression matches. The
    fence and blank tests are prefix and all-whitespace checks as they
    stand.
  - The single forward scan is a pure step function over the scanner
    state (output, three block flags, three buffers).
  - `RenderMarkdown` is the imperative loop with the three flush helpers.
    It is proved equal to that specification, and the listed guarantees
    are proved about the specification.
- **Transcript and saved history** (`history.dfy`):
  - the record a save builds, its title and preview;
  - the search filter;
  - delete-by-id;
  - update-last-if-assistant;
  - class `ChatSession`, whose methods change the transcript, the
    history, the panel flag and the log of lines sent to the host.
- **Status and input** (`status.dfy`):
  - the `isInitializing`/`isLoading` flags that `setStatus` assigns;
  - the send-button predicate;
  - the guard of `sendMessage`.

  The logic is identical in both scripts. Class `StatusController` holds
  the page state.
- **Setup progress** (`progress.dfy`):
  - the five setup steps, each classed completed, active or pending, with
    their icons;
  - the trailing `[speed]` token of a progress message. Its match is
    characterised as the leftmost place the pattern fits.
  - the precedence of an explicit speed over that token.

  Class `ProgressView` keeps the step elements in arrays.
- **Thinking panel toggle** (`thinking.dfy`), for both scripts.

Shared helpers:
- `text.dfy`: the JavaScript whitespace class and `trim`, ASCII
  lower-casing, `includes`, `substring`, `split` and `join`.
- `seqs.dfy`: `find` and `filter` on sequences.
- `page.dfy`: the two variants and their glyphs.

The script of `org.doomsai.chat` spells its glyphs (check mark, arrows,
antenna) as the characters their UTF-8 bytes stand for in Mac OS Roman.
For example, its check mark is `‚úì`. `page.dfy` keeps each script's
glyphs exactly as written.

Source paths in the table are relative to the repository root.

## Model

| member | source | states |
|---|---|---|
| Text.TrimSpec | plasmoids/org.doomsai.chat/contents/ui/assets/chat.js:122 | `trim()` is empty exactly for all-whitespace input; otherwise it starts and ends with a non-space character and sits between a whitespace prefix and suffix of the input |
| Text.TrimIdempotent | plasmoids/org.doomsai.ollama_chat/contents/ui/assets/chat.js:134-137 | trimming twice is trimming once (so the second `trim()` at line 145 changes nothing) |
| Text.SplitJoin | plasmoids/org.doomsai.chat/contents/ui/assets/chat.js:47 | joining the pieces of `split('\n')` with `'\n'` gives the message back |
| Text.SplitCount | plasmoids/org.doomsai.chat/contents/ui/assets/chat.js:47 | `split` yields one more line than there are newlines |
| Text.ToLowerIdempotent | plasmoids/org.doomsai.chat/contents/ui/assets/chat.js:309 | lower-casing an already lower-cased search term changes nothing |
| Seqs.Find | plasmoids/org.doomsai.chat/contents/ui/assets/chat.js:241 | `find` answers nothing exactly when no element satisfies the test, and otherwise the first element that does |
| Seqs.FilterIsSubsequence | plasmoids/org.doomsai.chat/contents/ui/assets/chat.js:317 | `filter` keeps its elements in their original relative order |
| Seqs.FilterCount | plasmoids/org.doomsai.chat/contents/ui/assets/chat.js:302 | `filter` keeps every occurrence of a passing element and none of a failing one |
| Markdown.EscapeHtml | plasmoids/org.doomsai.chat/contents/ui/assets/chat.js:36-41 | `escapeHtml` as written: the global replacements of `&`, then `<`, then `>`; what it means is stated by the lemmas below |
| Markdown.EscapeHtmlPerChar | plasmoids/org.doomsai.chat/contents/ui/assets/chat.js:36-41 | the three global replacements equal one per-character map: `&`, `<`, `>` become `&amp;`, `&lt;`, `&gt;` and every other character is copied in order |
| Markdown.EscapeHtmlSafe | plasmoids/org.doomsai.chat/contents/ui/assets/chat.js:36-41 | escaped text contains no `<` and no `>` |
| Markdown.EscapeHtmlRoundTrip | plasmoids/org.doomsai.chat/contents/ui/assets/chat.js:36-41 | decoding the three entities restores the original text |
| Markdown.EscapeHtmlPlain | plasmoids/org.doomsai.chat/contents/ui/assets/chat.js:36-41 | text without `&`, `<`, `>` is left unchanged |
| Markdown.EscapeHtmlAppend | plasmoids/org.doomsai.chat/contents/ui/assets/chat.js:36-41 | escaping distributes over concatenation |
| Markdown.UnescapeMarkers | plasmoids/org.doomsai.chat/contents/ui/assets/chat.js:77 | the marker unescape of `applyInline`: a backslash before `*`, `_` or a backquote is dropped, scanning left to right |
| Markdown.UnescapeMarkersChars | plasmoids/org.doomsai.chat/contents/ui/assets/chat.js:77 | the marker unescape only removes characters: every character of its result occurs in its input |
| Markdown.ApplyInline | plasmoids/org.doomsai.chat/contents/ui/assets/chat.js:74-89 | `applyInline`: escaping, then the marker unescape, then the formatting passes, which the model leaves abstract |
| Markdown.InlineInputSafe | plasmoids/org.doomsai.chat/contents/ui/assets/chat.js:74-77 | after escaping and dropping backslashes before `*`, `_` and backquote, the formatting passes see no `<` or `>` taken from the input |
| Markdown.IsFence | plasmoids/org.doomsai.chat/contents/ui/assets/chat.js:93 | the fence test: the line starts with three backquotes |
| Markdown.IsRule | plasmoids/org.doomsai.chat/contents/ui/assets/chat.js:99 | the rule test, read on the trimmed line: at least three characters, all of them `-`, `*` or `_` |
| Markdown.IsRuleMeaning | plasmoids/org.doomsai.chat/contents/ui/assets/chat.js:99 | the rule test holds exactly when the line is whitespace, three or more `-`/`*`/`_`, then whitespace |
| Markdown.HeadingMatch | plasmoids/org.doomsai.chat/contents/ui/assets/chat.js:101 | the heading test and its two captures; a match has a level from 1 to 6 |
| Markdown.HeadingMatchMeaning | plasmoids/org.doomsai.chat/contents/ui/assets/chat.js:101 | a heading matches exactly when 1 to 6 `#` are followed by whitespace and a rest without line terminators; the level is the number of `#`, and the captured text is what follows the longest whitespace run (the shortest such rest), as the greedy `\s+` leaves it |
| Markdown.QuoteMatch | plasmoids/org.doomsai.chat/contents/ui/assets/chat.js:104 | the quote test and its capture |
| Markdown.QuoteMatchMeaning | plasmoids/org.doomsai.chat/contents/ui/assets/chat.js:104 | a quote matches exactly when whitespace, `>`, an optional whitespace character and a rest without line terminators make up the line; the capture drops that whitespace character whenever there is one (the shortest such rest), as the greedy `\s?` does |
| Markdown.ItemMatch | plasmoids/org.doomsai.chat/contents/ui/assets/chat.js:107 | the list-item test and its capture |
| Markdown.ItemMatchMeaning | plasmoids/org.doomsai.chat/contents/ui/assets/chat.js:107 | a list item matches exactly when whitespace, `-` or `*`, whitespace and a rest without line terminators make up the line; the capture is what follows the longest whitespace run after the marker (the shortest such rest) |
| Markdown.Classify | plasmoids/org.doomsai.chat/contents/ui/assets/chat.js:93-110 | a line is classed as a fence exactly when it starts with three backquotes; a heading class carries a level from 1 to 6 |
| Markdown.ClassifyBlank | plasmoids/org.doomsai.chat/contents/ui/assets/chat.js:110 | a line is classed blank exactly when it is all whitespace: none of the earlier tests takes such a line |
| Markdown.ScanLinesWellFormed | plasmoids/org.doomsai.chat/contents/ui/assets/chat.js:91-113 | at the head of every iteration at most one of `inCode`, `inList`, `inQuote` holds, and a closed block has an empty buffer |
| Markdown.FinishCloses | plasmoids/org.doomsai.chat/contents/ui/assets/chat.js:115 | after the final flush no block is open and nothing is buffered; the flush appended exactly the one open block |
| Markdown.CodeLinesBuffered | plasmoids/org.doomsai.chat/contents/ui/assets/chat.js:97 | inside a code block, non-fence lines are appended raw to the code buffer and nothing else changes |
| Markdown.UnterminatedFence | plasmoids/org.doomsai.chat/contents/ui/assets/chat.js:56-61 | a fence that is never closed still yields one `<pre><code>` block of the escaped lines after it joined by newlines, with no inline formatting |
| Markdown.RenderUnterminatedFence | plasmoids/org.doomsai.chat/contents/ui/assets/chat.js:45-117 | a message that opens a fence and never closes it renders as exactly that code block |
| Markdown.RenderHeadingExample | plasmoids/org.doomsai.chat/contents/ui/assets/chat.js:45-117 | the message `# Hi` renders as `<h1>`, the formatted `Hi`, `</h1>` |
| Markdown.FenceLineToggles | plasmoids/org.doomsai.chat/contents/ui/assets/chat.js:93-95 | a fence line emits nothing itself: it closes the open block and flips the code flag |
| Markdown.HeadingLineEmits | plasmoids/org.doomsai.chat/contents/ui/assets/chat.js:101-102 | a heading line outside code closes the open list or quote, then appends `<hk>` + formatted text + `</hk>` |
| Markdown.BlankLineCloses | plasmoids/org.doomsai.chat/contents/ui/assets/chat.js:110 | a blank line outside code emits nothing but closes an open list or quote |
| Markdown.ScanLinesExtends | plasmoids/org.doomsai.chat/contents/ui/assets/chat.js:91-113 | the scan only ever appends to `html` |
| Markdown.ScanLinesAppend | plasmoids/org.doomsai.chat/contents/ui/assets/chat.js:91-113 | scanning two runs of lines is scanning the first, then the second from where it stopped |
| Markdown.CloseCode | plasmoids/org.doomsai.chat/contents/ui/assets/chat.js:56-61 | `flushCode`: an open code block is appended as one `<pre><code>` block of its escaped lines and closed; otherwise nothing changes |
| Markdown.CloseList | plasmoids/org.doomsai.chat/contents/ui/assets/chat.js:62-67 | `flushList`: an open list is appended as `<ul>` with one `<li>` per item and closed; otherwise nothing changes |
| Markdown.CloseQuote | plasmoids/org.doomsai.chat/contents/ui/assets/chat.js:68-73 | `flushQuote`: an open quote is appended as its lines joined by `<br>` in `<blockquote>` and closed; otherwise nothing changes |
| Markdown.Finish | plasmoids/org.doomsai.chat/contents/ui/assets/chat.js:115 | the final flushes, code then list then quote |
| Markdown.Step | plasmoids/org.doomsai.chat/contents/ui/assets/chat.js:91-113 | one iteration of the line loop for a line of the given class, in the order of the tests: a fence line toggles code, a code line is buffered, the other classes close blocks and emit or buffer their HTML |
| Markdown.ScanLines | plasmoids/org.doomsai.chat/contents/ui/assets/chat.js:91-113 | the line loop, one step per line, in order; its properties are the lemmas about the scan above |
| Markdown.Render | plasmoids/org.doomsai.chat/contents/ui/assets/chat.js:45-117 | `renderMarkdown`: an empty message gives the empty string; otherwise the lines of `split('\n')` are scanned from the initial state and the final flushes close what is open |
| Markdown.Renderer.constructor | plasmoids/org.doomsai.chat/contents/ui/assets/chat.js:48-54 | the scan starts with empty output, no open block and empty buffers |
| Markdown.Renderer.FlushCode | plasmoids/org.doomsai.chat/contents/ui/assets/chat.js:56-61 | `flushCode` closes an open code block by appending its escaped, newline-joined buffer |
| Markdown.Renderer.FlushList | plasmoids/org.doomsai.chat/contents/ui/assets/chat.js:62-67 | `flushList` closes an open list by appending `<ul>` and one `<li>` per buffered item |
| Markdown.Renderer.FlushQuote | plasmoids/org.doomsai.chat/contents/ui/assets/chat.js:68-72 | `flushQuote` closes an open quote by appending its lines joined by `<br>` |
| Markdown.Renderer.LineOfKind | plasmoids/org.doomsai.chat/contents/ui/assets/chat.js:93-112 | one iteration of the loop body, in the source's order of tests, takes the scanner state to the specified step |
| Markdown.Renderer.Line | plasmoids/org.doomsai.chat/contents/ui/assets/chat.js:92-112 | one iteration on a raw line takes the state to the specified step for that line |
| Markdown.RenderMarkdown | plasmoids/org.doomsai.chat/contents/ui/assets/chat.js:45-117 | the loop over the lines and the final flushes compute the specified rendering; an empty message renders as the empty string |
| History.Title | plasmoids/org.doomsai.chat/contents/ui/assets/chat.js:241-244 | the title is `Untitled Conversation` without a user message; otherwise the first user message when no longer than 50 characters, else its first 50 characters followed by `...` |
| History.TitleBound | plasmoids/org.doomsai.chat/contents/ui/assets/chat.js:243 | a title is at most 53 characters long |
| History.Record | plasmoids/org.doomsai.chat/contents/ui/assets/chat.js:246-253 | the saved record holds the given id and times, the derived title, a copy of the transcript and its length as `messageCount` |
| History.Preview | plasmoids/org.doomsai.chat/contents/ui/assets/chat.js:356-366 | without a user message the preview is `Empty conversation`; with one it starts with `You: ` |
| History.PreviewMeaning | plasmoids/org.doomsai.chat/contents/ui/assets/chat.js:356-366 | with a first user message, the preview quotes its first 100 characters, or its first 50 and the first 50 of the first assistant reply when there is one |
| History.Matches | plasmoids/org.doomsai.chat/contents/ui/assets/chat.js:316-320 | the filter test of `renderHistoryList`: the lower-cased title or some lower-cased message content contains the term |
| History.Filtered | plasmoids/org.doomsai.chat/contents/ui/assets/chat.js:316-320 | `renderHistoryList(term)`: the empty term lists everything, any other term filters with that test |
| History.FilteredMeaning | plasmoids/org.doomsai.chat/contents/ui/assets/chat.js:316-320 | a non-empty term lists exactly the saved conversations whose lower-cased title or some lower-cased message contains it, each as often as saved, in saved order |
| History.MatchesIgnoresCase | plasmoids/org.doomsai.chat/contents/ui/assets/chat.js:318-319 | lower-casing the title and every message content of a conversation does not change which terms it matches |
| History.FilterHistory | plasmoids/org.doomsai.chat/contents/ui/assets/chat.js:308-311 | `filterHistory`: the typed text is lower-cased and a conversation is listed exactly when it is saved and the lower-cased text is empty or matches it |
| History.FilterHistoryIgnoresCase | plasmoids/org.doomsai.chat/contents/ui/assets/chat.js:308-311 | the search gives the same list for any two inputs that agree up to ASCII case, and for an input and its lower-cased form |
| History.UpdatedLast | plasmoids/org.doomsai.chat/contents/ui/assets/chat.js:543-549 | the update keeps the length and all earlier entries; it rewrites content and thinking of the last entry only when that is an assistant message, and otherwise changes nothing |
| History.UpdatedLastTwice | plasmoids/org.doomsai.chat/contents/ui/assets/chat.js:543-549 | two updates in a row leave what the second alone leaves |
| History.WithoutId | plasmoids/org.doomsai.chat/contents/ui/assets/chat.js:302 | no record with the deleted id remains |
| History.WithoutIdMeaning | plasmoids/org.doomsai.chat/contents/ui/assets/chat.js:302 | delete keeps exactly the records with another id, each as often as it occurs, in their original relative order |
| History.WithoutAbsentId | plasmoids/org.doomsai.chat/contents/ui/assets/chat.js:302 | deleting an id that no record has changes nothing |
| History.Loaded | plasmoids/org.doomsai.chat/contents/ui/assets/chat.js:280-289 | loading finds nothing exactly when no saved record has the id; otherwise it installs the messages of the first record with that id, as `find` does |
| History.SaveThenLoad | plasmoids/org.doomsai.chat/contents/ui/assets/chat.js:289 | loading the record just saved gives back the transcript that was saved |
| History.LoadedAsWritten | plasmoids/org.doomsai.chat/contents/ui/assets/chat.js:279-298 | as written, loading an unknown id does nothing, and a known one leaves the saved messages followed by the same messages re-pushed |
| History.LoadAsWrittenDoubles | plasmoids/org.doomsai.chat/contents/ui/assets/chat.js:292-294 | as written, loading a saved non-empty transcript leaves twice as many entries, so it never reproduces the saved transcript |
| History.ChatSession.constructor | plasmoids/org.doomsai.chat/contents/ui/assets/chat.js:11-13 | the page starts with an empty transcript, an empty history and the panel closed |
| History.ChatSession.AddMessage | plasmoids/org.doomsai.chat/contents/ui/assets/chat.js:480-485 | `addMessage` appends exactly one entry and changes nothing else |
| History.ChatSession.UpdateMessage | plasmoids/org.doomsai.chat/contents/ui/assets/chat.js:527-549 | `updateMessage` applies the update-last rule when an assistant message is shown, and otherwise leaves the transcript alone |
| History.ChatSession.SaveCurrentConversation | plasmoids/org.doomsai.chat/contents/ui/assets/chat.js:230-263 | an empty transcript changes nothing; otherwise exactly one record is prepended and one `SAVE_HISTORY:` line is sent |
| History.ChatSession.ClearAllHistory | plasmoids/org.doomsai.chat/contents/ui/assets/chat.js:265-272 | a confirmed clear empties the history and sends `CLEAR_HISTORY:`; a declined one changes nothing |
| History.ChatSession.DeleteConversation | plasmoids/org.doomsai.chat/contents/ui/assets/chat.js:300-306 | a confirmed delete keeps the other records and sends `DELETE_HISTORY:` with the id; a declined one changes nothing |
| History.ChatSession.ToggleHistory | plasmoids/org.doomsai.chat/contents/ui/assets/chat.js:212-222 | the panel flag flips, and opening sends `LOAD_HISTORY:` |
| History.ChatSession.CloseHistory | plasmoids/org.doomsai.chat/contents/ui/assets/chat.js:224-228 | closing clears the panel flag and nothing else |
| History.ChatSession.LoadConversationAsWritten | plasmoids/org.doomsai.chat/contents/ui/assets/chat.js:279-298 | the load as written: the transcript becomes the saved messages, then each is pushed again by `addMessage` |
| History.ChatSession.LoadConversation | plasmoids/org.doomsai.chat/contents/ui/assets/chat.js:279-298 | the intended load: an unknown id changes nothing; a known one installs exactly the saved messages and closes the panel |
| History.ChatSession.SetHistoryData | plasmoids/org.doomsai.chat/contents/ui/assets/chat.js:623-631 | parsed data replaces the history, and a parse failure empties it |
| History.ChatSession.ClearCurrentConversation | plasmoids/org.doomsai.chat/contents/ui/assets/chat.js:633-638 | the transcript is emptied and the history kept |
| Status.StatusFlags | plasmoids/org.doomsai.ollama_chat/contents/ui/assets/chat.js:97-120 | `loading` gives (initializing, not loading), `processing` (not initializing, loading), `error` and `ready` clear both, and any other status keeps both flags |
| Status.StatusFlagsExclusive | plasmoids/org.doomsai.ollama_chat/contents/ui/assets/chat.js:97-120 | every status keeps the two flags from being set together, and a known status ignores the flags it finds |
| Status.StatusFlagsIdempotent | plasmoids/org.doomsai.ollama_chat/contents/ui/assets/chat.js:97-120 | repeating a status changes nothing more |
| Status.CanSend | plasmoids/org.doomsai.ollama_chat/contents/ui/assets/chat.js:38-39 | the guard of `sendMessage`: the trimmed input is non-empty and neither flag is set |
| Status.SendDisabled | plasmoids/org.doomsai.ollama_chat/contents/ui/assets/chat.js:31-32 | the button is enabled exactly when neither flag is set and the input is not all whitespace |
| Status.ButtonAgreesWithGuard | plasmoids/org.doomsai.ollama_chat/contents/ui/assets/chat.js:28-42 | the button is enabled exactly when `sendMessage` would send |
| Status.StatusController.constructor | plasmoids/org.doomsai.ollama_chat/contents/ui/assets/chat.js:3-4 | the page starts initializing, not loading, with the button disabled |
| Status.StatusController.UpdateSendButton | plasmoids/org.doomsai.ollama_chat/contents/ui/assets/chat.js:28-33 | the button state becomes the send-disabled predicate and nothing else changes |
| Status.StatusController.SetStatus | plasmoids/org.doomsai.ollama_chat/contents/ui/assets/chat.js:89-124 | the flags follow the status table; the dot, the input's disabled state and the progress panel follow each branch; the text is shown; the button is refreshed |
| Status.StatusController.OnInput | plasmoids/org.doomsai.chat/contents/ui/assets/chat.js:148-153 | typing records the input and refreshes the button only |
| Status.StatusController.SendMessage | plasmoids/org.doomsai.ollama_chat/contents/ui/assets/chat.js:35-55 | a blank input or a set flag changes nothing and sends nothing; otherwise the input is cleared, loading starts, and exactly one `SEND_MESSAGE:` line with the trimmed text is sent |
| Status.StatusController.FinishSetup | plasmoids/org.doomsai.ollama_chat/contents/ui/assets/chat.js:181-185 | the deferred end of setup hides the panel, clears `isInitializing` and refreshes the button |
| Progress.StepIndex | plasmoids/org.doomsai.ollama_chat/contents/ui/assets/chat.js:150-151 | `indexOf` finds the position of a known step and -1 for any other string |
| Progress.PhaseOf | plasmoids/org.doomsai.ollama_chat/contents/ui/assets/chat.js:157-177 | the class of a step: completed before the current step, active at it, pending after it |
| Progress.StepLabel | plasmoids/org.doomsai.ollama_chat/contents/ui/assets/chat.js:164-168 | the number a step shows while not completed: 1 to 4 for the first four steps and the check mark for `complete` |
| Progress.IconText | plasmoids/org.doomsai.ollama_chat/contents/ui/assets/chat.js:157-177 | a step shows the check mark when completed and its label otherwise |
| Progress.PhasesMeaning | plasmoids/org.doomsai.ollama_chat/contents/ui/assets/chat.js:157-177 | an unknown step leaves all five pending; otherwise the named step is the only active one and exactly the steps before it are completed |
| Progress.IconsMeaning | plasmoids/org.doomsai.ollama_chat/contents/ui/assets/chat.js:157-177 | a step shows the check mark exactly when it is completed or is `complete`; the others show 1 to 4 |
| Progress.ProgressView.MarkStep | plasmoids/org.doomsai.ollama_chat/contents/ui/assets/chat.js:157-177 | one step element gets the class and icon of its position, and no other element changes |
| Progress.ProgressView.UpdateSteps | plasmoids/org.doomsai.ollama_chat/contents/ui/assets/chat.js:150-178 | every step element present gets the phase and icon of its position; missing elements are skipped |
| Progress.ProgressView.Update | plasmoids/org.doomsai.ollama_chat/contents/ui/assets/chat.js:126-187 | without the bar nothing changes; otherwise the bar takes the percent, the text the display message, the steps their phases, and the end-of-setup timer starts exactly for `complete` at 100% or more |
| Progress.BracketMatch | plasmoids/org.doomsai.ollama_chat/contents/ui/assets/chat.js:135 | the match of `/\s*\[([^\]]+)\]\s*$/`: when there is one, its start, `[` and `]` lie in that order inside the message |
| Progress.MatchFits | plasmoids/org.doomsai.ollama_chat/contents/ui/assets/chat.js:135 | a match is whitespace, `[`, a non-empty run without `]`, `]` and whitespace up to the end |
| Progress.ShapeFound | plasmoids/org.doomsai.ollama_chat/contents/ui/assets/chat.js:135 | wherever the pattern fits, the match exists, starts no later, and ends at the same `]` |
| Progress.BracketMatchMeaning | plasmoids/org.doomsai.ollama_chat/contents/ui/assets/chat.js:135 | the message matches exactly when the pattern fits somewhere, and the match is the leftmost fit |
| Progress.StripBracket | plasmoids/org.doomsai.ollama_chat/contents/ui/assets/chat.js:141 | the first replacement of the cleaned message: the matched bracket token is removed |
| Progress.StripBracketMeaning | plasmoids/org.doomsai.ollama_chat/contents/ui/assets/chat.js:141 | the cleaned message is the message cut where the token's match starts, and the whole message when there is no token |
| Progress.DerivedSpeed | plasmoids/org.doomsai.ollama_chat/contents/ui/assets/chat.js:134-138 | a non-blank speed argument wins; the speed shown is always trimmed |
| Progress.SpeedShown | plasmoids/org.doomsai.ollama_chat/contents/ui/assets/chat.js:134-147 | a speed is shown exactly when the argument is not blank or the trailing token has a non-blank inside |
| Progress.DisplayMessage | plasmoids/org.doomsai.ollama_chat/contents/ui/assets/chat.js:140-147 | the display text starts with the rewritten cleaned message, and adds something exactly when a speed is derived |
| Thinking.Toggled | plasmoids/org.doomsai.ollama_chat/contents/ui/assets/chat.js:264-270 | a click flips the panel; with a glyph, the glyph shows the new state, and without one it is left as it was |
| Thinking.ToggleTwice | plasmoids/org.doomsai.ollama_chat/contents/ui/assets/chat.js:261-271 | two clicks restore the panel and its glyph when the glyph showed the panel's state |
| Thinking.ToggleConsistent | plasmoids/org.doomsai.ollama_chat/contents/ui/assets/chat.js:264-270 | a click flips the panel and keeps the glyph matching it (▶ collapsed, ▼ expanded) |
| Thinking.ThinkingPanel.constructor | plasmoids/org.doomsai.ollama_chat/contents/ui/assets/chat.js:207-208 | a rendered message starts with thinking collapsed and the collapsed glyph |
| Thinking.ThinkingPanel.Toggle | plasmoids/org.doomsai.chat/contents/ui/assets/chat.js:605-620 | without a bubble or without thinking content nothing changes (the ollama variant throws without a bubble); otherwise the panel flips and the glyph follows where there is a glyph element |

## Left out

- DOM construction and queries: `innerHTML` templates, class lists, scrolling, element creation, the history list HTML and the avatar markup. Element lookups are boolean parameters (`found`, `hasBar`, `inBubble`, `hasContent`, `hasToggle`, `shown`).
- `ensureDom` retries: `setTimeout` retries in `setStatus` and `addMessage`, and the missing-element early returns of `updateSendButton` and `sendMessage` (every element is taken as present). The 20 ms and 2000 ms timers. The deferred end of setup is the separate method `FinishSetup`, and `Update` only reports that it was scheduled.
- The `console.log` transport: only the tagged lines sent to the host are recorded, as a sequence of strings.
- `JSON.stringify` (a function parameter `serialize`) and `JSON.parse` (`SetHistoryData` takes the parsed list, or nothing for a failure).
- `Date`, `toISOString`, `toLocale*`, `Date.now()` and `confirm()`: their results are parameters.
- The formatting passes of `applyInline` (bold, italic, inline code, links) are an abstract function. The escape and backslash-unescape passes in front of them are modelled.
- The size-pair rewrite of progress messages (`X MB / Y GB` to `Y GB`) is an abstract function parameter.
- Strings are sequences of Unicode scalar values. JavaScript `length` and `substring` count UTF-16 code units, so titles and previews cut at 50 or 100 differ for text outside the Basic Multilingual Plane.
- `toLowerCase` is modelled for ASCII letters only.
- Messages are values. In the script, the transcript and the saved records share message objects, and `updateMessage` writes through to them. That aliasing is not modelled.
- `message || ''` and `speed || ''` for `null` or `undefined` arguments: the model takes strings, and the caller passes the empty string for a missing value.
- The percent of `updateProgress` is an integer. The script accepts any number and writes it into the bar's width.
- A step element without a `.step-icon` child makes the script throw. The model assumes every step element has its icon.
- `thinking || ''` in `addMessage` and `updateMessage`: the model takes the thinking text as a string.
- Textarea auto-resize pixel maths, `window.open`, key handling and listener wiring.
- `LoadConversationAsWritten` stamps all re-pushed messages with one time, `now`. The script calls `new Date()` once per message.

## Findings

| source | as written | input that shows it | evidently intended | confidence | as-written member | corrected member |
|---|---|---|---|---|---|---|
| plasmoids/org.doomsai.chat/contents/ui/assets/chat.js:289-294 | `loadConversation` sets `currentConversation` to a copy of the saved messages. It then renders each one through `window.addMessage`, which pushes it onto `currentConversation` again (line 480). | Save a transcript of one user message, then open it from the history panel: the transcript now holds two entries, and saving again stores both. | The loaded transcript equals the saved one. | not executed | History.LoadAsWrittenDoubles | History.SaveThenLoad |
