# Cry Out bot: moderation pipeline in Dafny

This project models the moderation core of the "Cry Out" Telegram bot (`main.go`). The bot relays anonymous messages to a public channel. The model has four parts:

- **Submission gate** (`gate.dfy`, module `Gate`). The bot keeps two per-user maps: the time and the text of each user's last published message. The gate reads them to decide whether a new message is allowed, rate-limited (within 20 minutes of the last publication) or a duplicate (the same text as the last publication). Rate limiting is checked first. The pure decision is `Decide`, and the commit is `Record`. The `SubmissionGate` class owns the two maps as fields. Its `Evaluate` method reads both maps, and its `Commit` method writes both.
- **Classifier verdict** (`verdict.dfy`, module `Verdict`). This is the reply normalisation of `verifyMessageWithOpenAI`. The language model's answer is trimmed of surrounding white space and lower-cased. It is approved exactly when the result equals `"да"`. A transport error yields `(false, "", err)`.
- **Deep link** (`link.dfy`, module `Link`). The link is `"https://t.me/"`, then the channel name with one leading `@` removed, then `"/"`, then the decimal message ID. `ParseLink`, a parser for such links, is its proved inverse.
- **Update loop** (`pipeline.dfy`, module `Pipeline`). `Step` is the per-message decision of `processUpdates`: skip, `/start` rules, cooldown notice, duplicate notice, classifier failure, policy rejection, publish failure, or publication with commit and link. `Run` folds `Step` over a sequence of updates. `HandleUpdate` does the same work imperatively against a `SubmissionGate`, and `ProcessUpdates` is the `for`/`select` loop. Each is proved equal to its function. A shutdown is a `Cancel` event in the input, and the loop stops at the first one.

Each update carries its external inputs as values:

- the classifier's outcome: an error, or the first choice's content;
- the channel post's outcome: an error, or the new message ID;
- two clock readings: `evaluatedAt` for `time.Since` at main.go:141 and `committedAt` for `time.Now` at main.go:177.

Times are integers on a nanosecond clock, as Go's `time.Duration` counts nanoseconds.

Three consequences of the code's order of checks and its constants:

- Resending the same text right after a publication gets the **cooldown** notice, not the duplicate notice. The rate-limit check at main.go:141 comes before the equality check at main.go:147. `ScenarioImmediateResend` states this. A duplicate is only reported once the 20 minutes have passed (`AfterCooldown`).
- The rate-limit window is the fixed value `20 * time.Minute`. main.go:32 fixes it; nothing reads it from the environment.
- A user with no entry reads as stored text `""`. So the gate on its own would call an empty message from a new user a duplicate (`FirstSubmission`). The pipeline never asks that question, because empty texts are skipped first.

## Model

| member | source | states |
|---|---|---|
| `Gate.GateState.LastText` | main.go:140 | a user with an entry reads their stored text; a user without one reads Go's zero value `""` |
| `Gate.Decide` | main.go:139-152 | rate-limited exactly when the user has an entry less than 20 minutes old; otherwise a duplicate when the text equals the stored one (or `""`) and allowed when it differs. `SubmissionGate.Evaluate` is proved equal to it; `RateLimitIgnoresText`, `CooldownAfterRecord`, `AfterCooldown`, `FirstSubmission` and `AllowedStaysAllowed` characterise it |
| `Gate.Record` | main.go:176-179 | the commit sets the user's time to `now` and text to `text`, leaves every other user's entries unchanged and keeps the two maps' key sets equal |
| `Gate.RateLimitIgnoresText` | main.go:141-146 | whether a submission is rate-limited does not depend on its text |
| `Gate.CooldownAfterRecord` | main.go:141-146 | after a commit at `t`, any text from that user at a time under `t` + 20 minutes is rate-limited |
| `Gate.AfterCooldown` | main.go:141-152 | once 20 minutes have passed since the commit, the same text is a duplicate and any other text is allowed |
| `Gate.FirstSubmission` | main.go:139-152 | a user without an entry is never rate-limited, and is a duplicate only for the empty text (the `""` default of the lookup) |
| `Gate.RecordIsolatesUsers` | main.go:176-179 | a commit for one user leaves every other user's decisions unchanged |
| `Gate.AllowedStaysAllowed` | main.go:141-152 | an allowed submission stays allowed at every later time while the gate is unchanged |
| `Gate.SubmissionGate.constructor` | main.go:29-30 | the gate starts with two empty maps |
| `Gate.SubmissionGate.Evaluate` | main.go:138-153 | the result is the gate decision on the current maps; rate-limited exactly when an entry exists and less than 20 minutes have elapsed; a duplicate only when the text equals the stored one |
| `Gate.SubmissionGate.Commit` | main.go:176-179 | the new maps are the commit of `(now, text)` for the user, and the maps stay in sync |
| `Verdict.IsSpace` | main.go:53 | the white-space set of Go's `unicode.IsSpace`, which `strings.TrimSpace` strips: the six ASCII spaces, U+0085, U+00A0 and the other Unicode White_Space characters |
| `Verdict.TrimSpace` | main.go:53 | the result is empty exactly when the input is all white space, and otherwise begins and ends with a non-space character; it is the slice of the input starting at the first non-space character, and everything outside that slice is white space |
| `Verdict.TrimSpaceOfPadded` | main.go:53 | trimming white space from around a word that does not start or end with white space gives back exactly that word |
| `Verdict.LowerChar` | main.go:53 | only `д`/`Д` lower-case to `д`, only `а`/`А` lower-case to `а`, and lower-casing never changes whether a character is white space |
| `Verdict.ToLower` | main.go:53 | lower-casing keeps the length and maps each character by itself |
| `Verdict.Normalize` | main.go:53 | the normalised answer is no longer than the raw reply, is empty exactly when the reply is all white space, and otherwise neither starts nor ends with white space |
| `Verdict.Interpret` | main.go:49-54 | a transport error gives `(false, "", err)`; a reply gives no error and the normalised answer; approval implies no error and answer `"да"`; for a reply, approved if and only if the answer is `"да"` |
| `Verdict.ErrorNeverApproves` | main.go:49-51 | a transport error is never an approval |
| `Verdict.LowerIsAffirmative` | main.go:53-54 | a word lower-cases to `"да"` exactly when it is `да`, `Да`, `дА` or `ДА` |
| `Verdict.ApprovedIsPadded` | main.go:53-54 | an approved reply is one of those four spellings with only white space before and after it |
| `Verdict.PaddedIsApproved` | main.go:53-54 | any of those four spellings surrounded only by white space is approved |
| `Verdict.ApprovedIffPaddedAffirmative` | main.go:53-54 | a reply is approved if and only if it is `да` in any letter case padded only with white space |
| `Verdict.SampleUpperCaseApproved` | main.go:53-54 | `" ДА\n"` is approved |
| `Verdict.SampleNegativeRejected` | main.go:53-54 | `"нет"` gives `(false, "нет", no error)`: a rejection, not an error |
| `Verdict.SamplePunctuatedRejected` | main.go:53-54 | `"да."` is not approved |
| `Link.TrimPrefix` | main.go:181 | when the prefix is present, the input is the prefix followed by the result; otherwise the result is the input |
| `Link.TrimAtRemovesOne` | main.go:181 | exactly one leading `@` is removed, and a name without one is kept as it is |
| `Link.NatToDecimal` | main.go:181 | the digits are non-empty, have no leading zero and denote the number |
| `Link.Itoa` | main.go:181 | the decimal form is non-empty, contains no `/`, and starts with `-` exactly for negative numbers; after the sign come the canonical digits of the magnitude: non-empty, no leading zero, and denoting the magnitude |
| `Link.ParseIntItoa` | main.go:181 | parsing the decimal form of any integer gives that integer back |
| `Link.ChannelLink` | main.go:181 | the link starts with `https://t.me/` |
| `Link.ParseChannelLink` | main.go:181 | every link parses back to the channel name without its leading `@` and the message ID, whatever the name contains |
| `Link.ChannelLinkInjective` | main.go:181 | two different message IDs in one channel give two different links |
| `Link.SampleLink` | main.go:181 | channel `@cryout` and message 7 give `https://t.me/cryout/7` |
| `Pipeline.ReplyText` | main.go:134-182 | each reply is the fixed text main.go sends for it; the publication reply is the heading `✅ Сообщение опубликовано: ` followed by exactly the link |
| `Pipeline.PolicyNoticeRestatesRules` | main.go:165 | the policy-violation notice sent at main.go:165 starts with its own heading and ends with the rules text `rulesMessage` built at main.go:115-118 |
| `Pipeline.Step` | main.go:126-182 | an update gets no reply exactly when it has no message or empty text, and otherwise exactly one. `HandleUpdate` is proved equal to it, in outcome and new state; the single-step lemmas below characterise each branch |
| `Pipeline.SkippedHasNoEffect` | main.go:126-128 | an update with no message or empty text sends nothing and leaves both maps unchanged |
| `Pipeline.StartBypassesGate` | main.go:133-136 | `/start` gets the rules reply whatever the gate holds, never reaches the classifier and leaves the gate unchanged |
| `Pipeline.CooldownWhateverText` | main.go:141-146 | inside the cooldown, any submission gets the cooldown notice without asking the classifier, and the gate is unchanged |
| `Pipeline.RepeatIsDuplicate` | main.go:147-152 | outside the cooldown, a repeat of the stored text gets the duplicate notice without asking the classifier |
| `Pipeline.NewUserReachesClassifier` | main.go:139-155 | a user the gate has never seen always reaches the classifier |
| `Pipeline.ClassifierQueriedIffAllowed` | main.go:138-155 | the classifier is asked exactly for a non-empty, non-`/start` text that the gate allows |
| `Pipeline.OnlyPublishCommits` | main.go:155-179 | a successful publish commits `(committedAt, text)` for the submitter; every other outcome leaves both maps exactly as they were |
| `Pipeline.PublishedMeansApprovedAndPosted` | main.go:164-182 | a publication follows an approved verdict and a successful post of the text, and its link parses back to the channel and the posted message ID |
| `Pipeline.ApprovedPostIsPublished` | main.go:155-182 | a non-empty, non-`/start` text that the gate allows, the classifier approves and the channel accepts is published with the link to the new post and committed with `(committedAt, text)` |
| `Pipeline.ChannelPostNeedsApproval` | main.go:164-169 | the channel is only sent the submitted text, and only after approval |
| `Pipeline.RetryAfterFailure` | main.go:155-174 | after a classifier error, a rejection or a publish failure, the same user resending the same text at any later time reaches the classifier again |
| `Pipeline.StepKeepsSync` | main.go:176-179 | handling one update keeps the two maps' key sets equal |
| `Pipeline.StepKeepsOtherRecords` | main.go:176-179 | an update that publishes nothing for a user leaves that user's entries unchanged |
| `Pipeline.BeforeCancel` | main.go:120-124 | the updates the loop handles are no more than the events delivered |
| `Pipeline.BeforeCancelIsDeliveredPrefix` | main.go:120-124 | the handled updates are exactly the delivered events in front of the first cancellation, in order, and what ends them is a cancellation |
| `Pipeline.Run` | main.go:120-125 | one outcome per handled update. `ProcessUpdates` is proved equal to it; `RunPrefix`, `RunKeepsSync`, `UnpublishedUserKeepsRecord`, `LastPublishIsRecorded` and `ConsecutivePublications` characterise it |
| `Pipeline.RunKeepsSync` | main.go:120-184 | any sequence of updates keeps the two maps' key sets equal |
| `Pipeline.RunPrefix` | main.go:120-184 | each update's outcome depends only on the updates before it, through the gate they leave |
| `Pipeline.UnpublishedUserKeepsRecord` | main.go:120-184 | a user with no publication in a run keeps exactly their earlier entries |
| `Pipeline.LastPublishIsRecorded` | main.go:176-179 | after a run, a user's entries are the time and text of the last publication for that user |
| `Pipeline.ConsecutivePublications` | main.go:139-152 | two consecutive publications for one user are at least 20 minutes apart and have different texts |
| `Pipeline.ScenarioPublished` | main.go:126-182 | a new user's approved message is published and committed, and the reply is the link `https://t.me/cryout/7` |
| `Pipeline.ScenarioImmediateResend` | main.go:141-146 | the same text resent a minute later gets the cooldown notice, not the duplicate notice |
| `Pipeline.ScenarioRejected` | main.go:164-166 | a text answered `"нет"` gets the policy notice and is not committed |
| `Pipeline.ScenarioClassifierError` | main.go:155-160 | a classifier error gets the retry notice and is not committed |
| `Pipeline.HandleUpdate` | main.go:125-182 | handling one update on the gate object returns the outcome `Step` gives, leaves the gate in the state `Step` gives, and keeps the maps in sync |
| `Pipeline.ProcessUpdates` | main.go:120-184 | the loop handles exactly the updates before the first cancellation, in order; its outcomes and final gate are those of `Run` |

## Left out

- `main` (main.go:57-104) is not modelled: environment variables, bot and client construction, webhook or polling setup, and the HTTP listener are configuration and I/O.
- `handleSignals` (main.go:106-112) is not modelled, because it traps OS signals. Cancellation appears only as a `Cancel` event in the loop's input. The nondeterministic choice between a ready update and a cancelled context is fixed by the order of the input sequence.
- The mutex (main.go:31) is not modelled. Updates are handled one at a time, so the gap between releasing the lock after the check and taking it again for the commit has no effect here.
- The network calls `CreateChatCompletion` and `bot.Send` are not modelled; their results are inputs. The prompt (`OPENAI_PROMPT` or the built-in default), the model name and the 10-token limit only shape that request, so they are left out.
- The input of `ProcessUpdates` is a finite prefix of what the updates channel delivers. The Go loop at main.go:120-125 never ends on its own: it blocks on `<-updates`, and once the channel is closed it keeps receiving zero-value updates and skipping them. The model's loop also returns when its input runs out.
- Errors from sending replies to the user are ignored by the code, and the model ignores them too.
- A classifier response with no choices would make main.go:53 panic. The model assumes a response has a first choice and carries only that choice's content.
- `log.Printf` and `log.Println` calls, and the sender's user name (used only in log lines), are not modelled.
- Verdict.LowerChar: covers only ASCII capitals and the Cyrillic capitals U+0400–U+042F, not Go's full Unicode case tables. That is enough to decide every spelling of `да`, and all other characters map to themselves.
- Go's 64-bit integers (user IDs, message IDs, time instants) are unbounded integers here, so `time.Since` saturation and `int` overflow are not modelled.
- The byte-level UTF-8 handling of `strings.TrimSpace` and `strings.ToLower` is not modelled. Texts are sequences of Unicode scalar values.
