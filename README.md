# hikari-miru guide bots, modelled in Dafny

Two small Discord bots built on hikari and miru. Each one shows a message
with buttons to one user, checks who pressed a button, runs that button's
callback, and ends the session on a stop or a timeout.

- **modals.py** is an embed and webhook composer. A `MainView` holds two
  drafts, an `Embed` and a `Webhook`. The "Edit Embed" and "Edit Webhook"
  buttons open a modal form. Its fields are pre-filled from the draft, and
  the submitted values are written back with `setattr`. The webhook's id and
  token are parsed out of its URL. "Post Webhook" posts only when both are
  truthy, and then replaces the message with a confirmation and removes its
  buttons. After 240 s the message becomes "Timed out!".
- **rps.py** is rock-paper-scissors. An `RPSView` plays one round per button
  press against a random move from the bot and counts the user's wins. When
  the game stops (the "End game" button or the 30 s timeout), the message
  reports that count.

The files:

- `wrappers.dfy` defines `Option`.
- `pystr.dfy` models the Python string operations the bots rely on:
  `str.split`, `int()` on decimal digits, and `str()` of a non-negative int.
- `session.dfy` holds what both bots share: message events, the trigger
  filter of `on_message`, truthiness, and the view phases.
- `modals.dfy` models the drafts, the editors, form application, webhook
  id/token parsing, the post guard, the `MainView` class and its listener.
- `rps.dfy` models the round classification, the win count, the `RPSView`
  class and its listener.

The views are Dafny classes whose methods update their fields in place.
`Valid()` is the invariant every method keeps. Each view also records the
calls it makes to Discord as a log of `Action` values. The Python helpers are
pure functions, with lemmas that relate each one to an independent
description of what it computes.

## Model

| member | source | states |
|---|---|---|
| `PyStr.FindFirst` | modals.py:70 | The index found is an occurrence of the separator, and no occurrence comes before it. None means there is no occurrence at all. |
| `PyStr.Split` | modals.py:70 | `str.split(sep)` always returns at least one piece. |
| `PyStr.SplitJoin` | modals.py:70 | Joining the pieces with the separator gives back the original string. |
| `PyStr.SplitPiecesFree` | modals.py:70 | No piece contains the separator. |
| `PyStr.SplitAfterFree` | modals.py:70 | If `a` has no separator and the separator cannot overlap itself, `a + sep + b` splits into `[a]` followed by the pieces of `b`. |
| `PyStr.SplitAppendChar` | modals.py:77 | With a one-character separator, splitting `x + c + y` gives the pieces of `x` followed by the pieces of `y`. |
| `PyStr.SplitLast` | modals.py:77 | The last piece is a suffix of the string. Either it is the whole string or a separator comes right before it. |
| `PyStr.ParseInt` | modals.py:70 | `int(s)` succeeds exactly on non-empty strings of decimal digits. The number it returns is pinned down by `ParseRender`, `RenderParse` and `ParseLeadingZero`. |
| `PyStr.ParseLeadingZero` | modals.py:70 | A leading zero does not change the number: `int("0" + s) == int(s)` for every non-empty digit string. |
| `PyStr.RenderParse` | modals.py:70 | Every digit string without a leading zero is the rendering of the number it parses to: `str(int(s)) == s`. |
| `PyStr.FirstPieceEnd` | modals.py:70 | The first piece of `s.split(sep)` runs up to the first occurrence of `sep`, or to the end when there is none. |
| `PyStr.Render` | rps.py:93 | `str(n)` is a non-empty string of digits. It starts with '0' only for 0, so it has no leading zeros. |
| `PyStr.ParseRender` | modals.py:70 | `int(str(n)) == n`. |
| `PyStr.RenderInjective` | rps.py:93 | Two different counts never render to the same text. |
| `Session.IsTrigger` | modals.py:187 | A message starts a session exactly when a human wrote it and its whole text equals the trigger. There is no prefix or substring match. The `not event.content` test adds nothing to that. rps.py:83 uses the same filter. |
| `Modals.Draft.Keys` | modals.py:22-26 | A draft has three distinct attribute names. |
| `Modals.Draft.With` | modals.py:127 | `setattr` by name changes the named attribute only and keeps the kind of draft. A name that is none of the three attributes changes nothing. |
| `Modals.DraftExtensional` | modals.py:22-26 | Two drafts of the same kind with equal attributes are equal. |
| `Modals.Editor` | modals.py:29-53 | The editor has one field per attribute, in attribute order, keyed by the attribute's name and pre-filled with its current value. The webhook editor at modals.py:80-103 works the same way. |
| `Modals.Resolve` | modals.py:121-122 | After the modal is awaited, each field holds the submitted text if there is one, blank text included. Otherwise it keeps its pre-filled value. |
| `Modals.ApplyForm` | modals.py:124-127 | The `setattr` loop, as a fold over the fields in order. It keeps the kind of draft. What it does to each attribute is `ApplyFormGet`. |
| `Modals.ApplyFormGet` | modals.py:124-127 | After the `setattr` loop, each attribute holds the value of the last field named after it. An attribute that no field names keeps its old value. |
| `Modals.ApplyUnknownKeys` | modals.py:124-127 | A form whose field names match no attribute leaves the draft unchanged. |
| `Modals.SubmitApplies` | modals.py:118-127 | Opening the editor on a draft and applying the result sets each submitted attribute to exactly the submitted text and keeps the others. An abandoned modal changes nothing. |
| `Modals.EditorRoundTrip` | modals.py:29-53 | Key round trip: applying an unedited editor gives back the same draft. |
| `Modals.EmbedSubmissionExample` | modals.py:118-127 | Submitting title "T", description "D" and a blank thumbnail URL gives exactly those values. The old thumbnail URL is cleared to "". |
| `Modals.WebhookId` | modals.py:65-70 | A missing or empty URL gives `None`. `IndexError` is raised exactly when the URL has no "webhooks/". |
| `Modals.SegmentEnd` | modals.py:70 | The id segment after "webhooks/" ends at the first "/" or the first further "webhooks/", whichever comes first, or at the end of the URL. |
| `Modals.FirstPieceIsSegment` | modals.py:70 | `t.split("webhooks/")[0].split("/")[0]` is exactly that segment. |
| `Modals.WebhookIdSegment` | modals.py:65-70 | For every URL containing "webhooks/", `id` is the integer value of the segment after the first "webhooks/". It raises `ValueError` exactly when that segment is not a number. Leading zeros are accepted, and a second "webhooks/" ends the segment. |
| `Modals.LastSegment` | modals.py:77 | The last "/"-piece of a URL has no "/" in it and is a suffix of the URL. Either it is the whole URL or a "/" comes right before it. |
| `Modals.WebhookToken` | modals.py:72-77 | A missing or empty URL gives `None`. Otherwise the token is the text after the last "/" of the URL. |
| `Modals.WebhookUrlRoundTrip` | modals.py:65-77 | Take a URL `prefix + "webhooks/" + str(id) + "/" + token`, where the prefix has no "webhooks/" and the token has no "/". Parsing it gives back exactly `id` and `token`. |
| `Modals.ApiUrlRoundTrip` | modals.py:65-77 | Every URL under `https://discord.com/api/` of that shape gives back its id and token. |
| `Modals.WebhookUrlExample` | modals.py:65-77 | `.../webhooks/123456/abcDEF` has id 123456 and token "abcDEF". |
| `Modals.OrUndefined` | modals.py:161-162 | `value or UNDEFINED` keeps a username or avatar URL exactly when it is truthy. |
| `Modals.PostWebhook` | modals.py:147-164 | The webhook is executed exactly when the id is a non-zero number and the token is non-empty. The call then uses that id, that token and the embed draft. A raising `id` posts nothing, and the failure carries the error `id` raised. |
| `Modals.PostWebhookRejects` | modals.py:149-153 | Each of these gets the notice and no call: no URL, an empty URL, a URL with an empty token, and a URL with id 0. |
| `Modals.PostWebhookWithoutMarker` | modals.py:149 | A non-empty URL without "webhooks/" raises `IndexError` in the guard. No notice is sent and nothing is posted. |
| `Modals.PostWebhookAccepts` | modals.py:155-164 | A well-formed URL with a non-zero id and a token is posted to, with that id and token. |
| `Modals.PostActions` | modals.py:149-169 | A rejection sends the notice only, and a raising `id` sends nothing. On the accepting path the webhook is executed once, then the view's message is edited once, to "Posted to <#channel>!" without buttons. No other path posts or edits. |
| `Modals.MainView.constructor` | modals.py:110-116 | A new view belongs to its author and starts with empty drafts, active, with its buttons shown. |
| `Modals.MainView.ViewCheck` | modals.py:171-178 | A press passes exactly when the presser is the author. Anyone else gets a private notice. |
| `Modals.MainView.SetAttributes` | modals.py:124-127 | The in-place `setattr` loop leaves the target draft equal to the form applied to it, and the other draft unchanged. |
| `Modals.EditorActions` | modals.py:55-56 | An editor button logs its modal, plus the modal's `ctx.defer()` when the modal was submitted. It neither posts nor edits the view's message. |
| `Modals.MainView.EditEmbed` | modals.py:118-127 | Shows the embed editor, then applies the resolved form to the embed draft. The webhook draft does not change. |
| `Modals.MainView.EditWebhook` | modals.py:129-138 | Shows the webhook editor, then applies the resolved form to the webhook draft. The embed draft does not change. |
| `Modals.MainView.PostWebhookPressed` | modals.py:147-169 | Sends exactly the actions the guard's outcome calls for. On a successful post the view's message becomes the confirmation and loses its buttons. Otherwise the message stays. The drafts never change. |
| `Modals.MainView.Activate` | modals.py:118-178 | A press by anyone but the author changes neither draft nor the message and only adds the notice. A press after the view stopped, or after the post removed the buttons, does nothing. Otherwise the press is routed to its button's callback, and only a successful post changes the message. |
| `Modals.MainView.Timeout` | modals.py:180-182 | The message becomes "Timed out!" without buttons and the view stops. Across a session the message is edited once per successful post (at most one) plus once by the timeout. |
| `Modals.OnMessage` | modals.py:185-194 | A fresh view for the author exists exactly when a human's message reads "miru". |
| `Rps.FromCustomId` | rps.py:34-44 | "r", "p" and "s" name the three buttons. Any other id names none. |
| `Rps.CustomIdRoundTrip` | rps.py:34-44 | Each choice's `custom_id` names that choice. |
| `Rps.Play` | rps.py:59-71 | The round is a draw exactly on equal choices. It is a win exactly when the user's choice beats the bot's on the cycle rock, paper, scissors. Otherwise it is a loss. |
| `Rps.PlaySwapped` | rps.py:62-71 | Swapping the two choices swaps a win and a loss and keeps a draw. |
| `Rps.EachChoiceWinsOnce` | rps.py:62-71 | Each choice wins against exactly one move and loses against exactly one. |
| `Rps.WinsAtMostRounds` | rps.py:54-71 | The win count never exceeds the number of rounds played. |
| `Rps.WinsMonotone` | rps.py:68 | The win count after any earlier round is at most the current one: it never decreases. |
| `Rps.NoWinsWithoutWinningRound` | rps.py:68 | Draws and losses alone leave the count at 0. |
| `Rps.WinReport` | rps.py:93 | The final text is "You won ", then `str(user_wins)`, then " times!". |
| `Rps.WinReportInjective` | rps.py:93 | The final "You won N times!" text determines N. |
| `Rps.RPSView.constructor` | rps.py:28-32 | A new game belongs to its user and starts active, with 0 wins, no rounds, and the greeting with buttons. |
| `Rps.RPSView.ViewCheck` | rps.py:73-78 | A press passes exactly when the presser is the player. Anyone else gets "This isn't your game!". |
| `Rps.RPSView.PlayRound` | rps.py:54-71 | The outcome is `Play(user, bot)`. `user_wins` goes up by exactly 1 on a win and is unchanged otherwise. It stays equal to the number of rounds won and never exceeds the rounds played. |
| `Rps.RPSView.StopGame` | rps.py:51-52 | "End game" stops the view. |
| `Rps.RPSView.Timeout` | rps.py:32 | The timer stops the view and changes nothing else. |
| `Rps.RPSView.Activate` | rps.py:34-52 | A press by anyone but the player changes neither the count nor the phase and only adds the notice. A press after the game stopped does nothing. A choice plays a round, replies with its result and counts a win. "End game" stops the game and sends nothing. |
| `Rps.RPSView.ReportResult` | rps.py:91-93 | Once the game has stopped, the message reports the accumulated `user_wins` and loses its buttons. |
| `Rps.OnMessage` | rps.py:81-90 | A fresh game for the author exists exactly when a human's message reads "rps". |

Members without a row are helpers: `Draft.Get` is `getattr`, `EditorTitle` the modal titles, `CustomId` the button ids, `PostedText` the confirmation text, and the counting and slicing lemmas serve the proofs above. `Session.Truthy` (Python truthiness of optional text), `Modals.LastValue` (the last field named after an attribute), `Rps.Wins` (the rounds won), `Rps.Beats` (the rock-paper-scissors cycle) and `Rps.Victim` (the move a choice beats) are reference definitions the lemmas above are stated against.

## Left out

- The gateway, `bot.run()`, the `dotenv`/`BOT_TOKEN` loading and the intents (modals.py:11-19, rps.py:9-18): process startup and I/O.
- The REST calls (`respond`, `respond_with_modal`, `edit`, `edit_response`, `execute_webhook` and the modal's `defer`) are recorded only as `Action` values. The channel id in "Posted to <#channel>!" comes back from the network, so it is a parameter of `Modals.MainView.Activate`. A failing REST call is not modelled.
- Modals.MainView.PostWebhookPressed: the callback has not answered the button press when it calls `ctx.edit_response(..., components=[])`, so the call updates the message the button belongs to. The model records it as an edit of the view's own message. The ephemeral flag has no effect on that update and is not modelled.
- miru's timers, `view.wait()`, `start`/`stop` and the event loop are not modelled. As a modelling choice, each method runs as one atomic step. The source does not serialize presses: an editor callback is suspended at `await view.wait()` (modals.py:122, 133) while other presses run. So the model does not capture interleavings such as an editor whose modal times out after a later edit and then writes its stale pre-filled values back (modals.py:124-127). A timeout is a method the environment calls while the view is active. A modal's own timeout is the `Abandoned` outcome. The 240 s and 30 s durations are not modelled.
- Modals.MainView.Activate: a press on a message whose buttons were removed by a successful post is treated as ignored. Discord offers no button to press there, so no such press reaches the view.
- `random.choice`: the bot's move is a parameter of `Rps.RPSView.Activate`.
- Embed building, thumbnails, emoji and button styles are presentation. The preview is recorded as `PreviewEmbed(draft)`. A round's reply is recorded as `RoundResult(user, bot, outcome)` without the emoji text.
- PyStr.ParseInt: models `int()` on plain ASCII digits only. It does not model a sign, surrounding whitespace, `_` separators or non-ASCII digits, which Python also accepts. So `Modals.WebhookId` turns such segments into `ValueError` where Python would return a number. Nor does it model CPython's 4300-digit limit on `int(str)` and `str(int)`, above which both raise `ValueError`. A URL typed into the modal is at most 4000 characters, and a win count or channel id never has that many digits, so the bots never reach it. The "exactly" in the rows for `PyStr.ParseInt`, `PyStr.Render` and `Modals.WebhookIdSegment` holds below that limit.
- Modals.Draft.With: `setattr` with a name that is not one of the three attributes adds a new attribute to the Python object. The model drops that write, because no code reads such an attribute.
- Modals.MainView.Activate: when `id` raises inside the "Post Webhook" callback, miru logs the exception. The model records no action and leaves the state unchanged. The interaction Discord then shows as failed is not modelled.
- A general "stopped on error" state is left out. Neither bot has a code path that stops a view on an exception, and the model follows the code.
- `MainView` has no stop button in the code, so its only way to end is the timeout.
- `on_timeout`'s `assert self.message is not None` always holds in the model, because a view only exists once its message has been posted.
