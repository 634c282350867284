# AI interview practice site: a verified model of its page logic

The site is a set of browser pages. On the interview page a chat bot
(the `InterviewBot` controller) reads every bot message aloud through a
speech queue. It works out from the user's messages which company and
role to rehearse, and then runs a mock interview against a local
interview server, with an optional count-down and resume upload. The
sign-up and log-in pages check their inputs before anything is sent. The
FAQ page has an accordion. The dashboard page picks the saved report from
browser storage and shows its grammar count, emotion icons and feedback
panels.

This project models those parts in Dafny and proves what they promise.
The modules are:

- `Text` (text.dfy): the JavaScript string operations the pages rely on, such as `toLowerCase`, `includes`, `trim`, decimal `toString` and `padStart`.
- `EmailRule` (email.dfy): the e-mail pattern shared by both forms.
- `InterviewText` (interview_text.dfy): the pure logic of interview.js. It covers:
  - the start-intent test and the company and role look-ups;
  - tag stripping and the sentence split of long speech;
  - the resume extension gate;
  - the topic of the first question;
  - `formatTime` and the texts the bot writes.
- `SpeechQueue` (speech_queue.dfy): `enqueueTTS` and `playNextInQueue` as steps on a value. It proves:
  - first in, first out, with at most one text in flight;
  - markup is stripped before speech;
  - every outcome of a segment that settles makes progress, so the queue drains whenever every segment settles.
- `InterviewSession` (interview_bot.dfy): the `InterviewBot` class with the fields the controller updates in place. About its methods:
  - each that posts is proved to take exactly the `SpeechQueue` `enqueueTTS` steps for what it posts, and each that posts nothing leaves the queue as it was; the steps of playback itself are `PlayNextInQueue` and `SegmentFinished`;
  - each is proved to keep the queue in step with the bot's transcript;
  - each drives the session flags as the source does.

  Every await splits its method in two: the part before the await, and a method that takes the server's answer as a parameter.
- `Signup` (signup.dfy) and `Login` (login.dfy):
  - the `validateField` rule chains;
  - when an error is shown;
  - the strength meter;
  - the form classes, whose `Submit` checks every field before a request is built.
- `Faq` (faq.dfy): the accordion click handler as an in-place update of an `array<bool>`.
- `Dashboard` (dashboard.dfy):
  - the storage-key precedence of `loadReport` and its error path;
  - `getEmotionIcon`;
  - the `totalErrors` fallback;
  - the non-empty panel guards;
  - `startNewInterview`.

## Model

| member | source | states |
|---|---|---|
| Text.ToLower | interview.js:355 | the lowered string has the same length and each character is its ASCII lower-case form |
| Text.ToLowerIdempotent | dashboard.js:142 | lowering twice is lowering once |
| Text.ToLowerConcat | interview.js:355 | lowering distributes over concatenation |
| Text.ContainsIff | interview.js:356-358 | `includes` holds exactly when the substring occurs at some offset |
| Text.ContainsFromOccurrence | interview.js:356-358 | an occurrence of the substring at any offset makes `includes` hold |
| Text.OccurrenceFromContains | interview.js:356-358 | when `includes` holds, the substring occurs at some offset |
| Text.ContainsExtend | interview.js:356-358 | text appended after a string keeps every inclusion it had |
| Text.ContainsSuffix | interview.js:356-358 | a string ending in the substring includes it |
| Text.TrimStartSpec | login.js:84 | `trimStart` keeps a suffix that does not start with white space, and only white space is removed |
| Text.TrimEndSpec | login.js:84 | `trimEnd` keeps a prefix that does not end with white space, and only white space is removed |
| Text.TrimSpec | login.js:84 | `trim` is a contiguous slice of the input that neither starts nor ends with white space |
| Text.TrimEmptyIff | signup.js:91 | `!value.trim()` holds exactly when every character is white space |
| Text.TrimIdempotent | signup.js:51 | trimming twice is trimming once |
| Text.TrimEachAt | interview.js:187 | trimming a list trims every element in place |
| Text.DecimalDigits | interview.js:796 | `toString` of a natural number is non-empty and all digits, with no leading zero except for zero itself: one digit exactly below ten, at most two below a hundred |
| Text.DecimalRoundTrip | interview.js:796 | reading back the decimal text gives the number |
| Text.LeadingZero | interview.js:796 | a leading zero does not change the value read back |
| Text.PadStartSpec | interview.js:796 | `padStart` keeps the text whole at the end and puts only fill characters in front of it |
| EmailRule.IndexOf | signup.js:96 | the index found holds the character and no earlier index does; none is found only when the character is absent |
| EmailRule.EmailPatternIff | signup.js:96 | the executable test accepts exactly the strings of the form `[^\s@]+@[^\s@]+\.[^\s@]+` |
| EmailRule.EmailCheckIff | login.js:90-92 | the e-mail chain passes exactly when the trimmed value matches the pattern, and reports "required" exactly when it is blank |
| InterviewText.StartCommandIff | interview.js:354-359 | a start command is exactly a message whose lowercase form contains "interview" and one of "practice", "want to", "apply", "role" |
| InterviewText.AnyKeywordIff | interview.js:357-358 | one of "practice", "want to", "apply", "role" is included exactly when one of them occurs at some offset |
| InterviewText.StartCommandIgnoresCase | interview.js:355 | the test gives the same answer for the lowercased message |
| InterviewText.FirstIncluded | interview.js:392-397 | an index found lies within the list |
| InterviewText.FirstIncludedSpec | interview.js:392-397 | the entry found is the first listed entry the text includes; none is found only when no entry is included |
| InterviewText.ExtractCompanySpec | interview.js:388-398 | the company is the first known one the lowercased message includes, first letter capitalised; null only when none is named |
| InterviewText.ExtractRoleSpec | interview.js:400-411 | the role is the first known one the lowercased message includes, kept lowercase; null only when none is named |
| InterviewText.WelcomeExampleLowered | interview.js:322 | the lowercase form of the welcome example |
| InterviewText.WelcomeExampleHeadLowered | interview.js:322 | the first half of the welcome example, up to "interview", lowered |
| InterviewText.WelcomeExampleStarts | interview.js:322 | the welcome example is a start command |
| InterviewText.WelcomeExampleCompany | interview.js:322 | the welcome example yields the company "Google" |
| InterviewText.WelcomeExampleRole | interview.js:322 | the welcome example yields the role "software engineer" |
| InterviewText.FindStartCommandSpec | interview.js:619 | `find` returns the content of the first user entry that is a start command; nothing only when there is none |
| InterviewText.TopicFromFirstStartCommand | interview.js:619-623 | the first question's role and company come from the first start command, with the defaults "Software Engineer" and "" |
| InterviewText.LaterMessagesIgnored | interview.js:619 | messages added after the first start command never change the topic |
| InterviewText.NoStartCommandRole | interview.js:620-622 | with no start command the default message is used and it yields the role "software engineer" |
| InterviewText.DefaultStartRole | interview.js:620-622 | the default message yields the role "software engineer" |
| InterviewText.SkipTag | interview.js:555 | skipping a tag leaves a suffix of the text |
| InterviewText.StripTags | interview.js:555 | stripping never lengthens the text |
| InterviewText.StripTagsSpec | interview.js:555 | the stripped text holds no `<`, and text without `<` is unchanged; `StripTagsRemovesTag` and `StripTagsUnclosed` say what is removed |
| InterviewText.StripTagsIdempotent | interview.js:555 | stripping twice is stripping once |
| InterviewText.SkipTagSpec | interview.js:555 | after a `<`, the tag ends at the first `>`, which goes with it; with no `>` the rest of the text goes |
| InterviewText.StripTagsKeepsPrefix | interview.js:555 | text without `<` in front of the rest is kept unchanged |
| InterviewText.StripTagsRemovesTag | interview.js:555 | a `<`-to-`>` span is removed and the text before and after it kept |
| InterviewText.StripTagsUnclosed | interview.js:555 | a `<` that is never closed removes the rest of the text |
| InterviewText.SpanNonTerminatorsSpec | interview.js:185 | the span is the longest prefix without `.`, `!` or `?` |
| InterviewText.SpanTerminatorsSpec | interview.js:185 | the span is the longest prefix made only of `.`, `!` and `?` |
| InterviewText.FirstSentenceShaped | interview.js:185 | the first match is a run of non-terminators followed by a run of terminators |
| InterviewText.SentenceMatchesShaped | interview.js:185 | every match of `/[^.!?]+[.!?]+/g` is a non-empty run of non-terminators followed by a non-empty run of terminators |
| InterviewText.FirstMatchOf | interview.js:185 | a sentence followed by text that does not start with a terminator is the first match, and the rest is matched on its own |
| InterviewText.SentenceMatchesOfConcat | interview.js:185 | matching a text made of sentences gives back exactly those sentences, in order |
| InterviewText.NoTerminatorNoMatch | interview.js:185 | text without any terminator has no match |
| InterviewText.NoSentenceAfterTerminator | interview.js:185 | a leading terminator does not decide whether a terminator follows a non-terminator |
| InterviewText.NoMatchIff | interview.js:185 | `match` finds nothing exactly when no terminator follows a non-terminator anywhere in the text |
| InterviewText.SpeechSegments | interview.js:184-191 | there is always at least one segment, and text of at most 300 characters is its own single untrimmed segment |
| InterviewText.LongTextSpokenBySentence | interview.js:184-188 | a long text made of sentences is spoken as those sentences, each trimmed, in order |
| InterviewText.LongTextWithoutMatch | interview.js:185-187 | a long text in which no terminator follows a non-terminator is spoken as one segment, the whole text trimmed |
| InterviewText.LongTextSegmentsTrimmed | interview.js:186-188 | every segment of a long text is already trimmed |
| InterviewText.AfterLastDot | interview.js:150 | the part kept is never longer than the name |
| InterviewText.AfterLastDotSpec | interview.js:150 | `split('.').pop()` is a dot-free suffix of the name, preceded by a dot whenever it is not the whole name |
| InterviewText.AfterFinalDot | interview.js:150 | for `stem + "." + ext` with a dot-free `ext`, the part kept is `ext` |
| InterviewText.ExtensionAfterFinalDot | interview.js:150 | the extension is `.` plus the lowercased text after the final dot |
| InterviewText.UpperCaseExtensionAccepted | interview.js:149-153 | "CV.PDF" is accepted: the comparison ignores case |
| InterviewText.DoubleExtensionRejected | interview.js:149-153 | "resume.pdf.exe" is refused: only the final extension counts |
| InterviewText.UndottedNameAccepted | interview.js:149-153 | a file named "pdf", with no dot, is accepted |
| InterviewText.PaddedValue | interview.js:796 | two-digit padding yields only digits, worth the padded number |
| InterviewText.FormatTimeShape | interview.js:793-797 | `formatTime` is the padded minutes, a colon, and exactly two digits of seconds; minutes longer than two digits have no leading zero |
| InterviewText.ClockReadBack | interview.js:793-797 | digit fields around the colon that are worth the minutes and seconds read back as the total |
| InterviewText.FormatTimeRoundTrip | interview.js:793-797 | `formatTime(n)` reads back as n seconds, with a seconds field below 60 |
| SpeechQueue.Workload | interview.js:184-191 | every queued text is at least one segment |
| SpeechQueue.Spoken | interview.js:554-557 | one spoken text per bot message |
| SpeechQueue.SpokenAt | interview.js:554-557 | each bot message is queued as its own text with the tags stripped, and holds no `<` |
| SpeechQueue.SpokenAppend | interview.js:554-557 | one more bot message queues one more stripped text, at the end |
| SpeechQueue.SilentValid | interview.js:3-4 | the empty, idle queue is valid and has nothing to speak |
| SpeechQueue.PlayNextValid | interview.js:174-181 | taking the head keeps the queue valid, starts texts in queue order and loads that text's segments; an empty queue goes idle |
| SpeechQueue.EnqueueValid | interview.js:167-172 | enqueueing appends at the tail; an idle queue starts speaking the text at once, a busy one holds it behind the waiting texts |
| SpeechQueue.SettleValid | interview.js:183-196 | settling a segment, by any outcome, keeps the queue valid and never changes what was enqueued |
| SpeechQueue.SettleProgress | interview.js:183-196 | whatever the outcome, including a failed fetch or an audio error, strictly less remains to be spoken |
| SpeechQueue.PendingIffSpeaking | interview.js:174-177 | a valid queue has work left exactly when it is speaking |
| SpeechQueue.DrainsToIdle | interview.js:167-196 | when every segment settles, with enough segment outcomes the queue ends idle and empty, every enqueued text started in enqueue order |
| SpeechQueue.SayValid | interview.js:554-557 | posting bot messages keeps the queue valid and enqueues their stripped texts in order |
| SpeechQueue.SayStep | interview.js:554-557 | the first message of a run is enqueued before the others |
| SpeechQueue.SayInSequence | interview.js:554-557 | posting `a` and then `b` is posting `a + b` |
| SpeechQueue.SayOne | interview.js:554-557 | posting one message enqueues its stripped text |
| InterviewSession.RouteForSpec | interview.js:342-352 | each message goes to exactly one handler: an answer during an interview, otherwise preparation for a start command and the general reply for anything else |
| InterviewSession.BotEntries | interview.js:542-552 | one bubble per message |
| InterviewSession.BotEntriesAt | interview.js:542-552 | the bubbles show the messages as the bot's, in order |
| InterviewSession.EntriesInSequence | interview.js:542-552 | showing `a` and then `b` shows `a + b` |
| InterviewSession.PostedTwice | interview.js:493-495 | two posts in a row show both messages, in order |
| InterviewSession.ShownFirst | interview.js:329-340 | a handler run after bubbles were shown has, seen from before those bubbles, shown them first and then done what its route does |
| InterviewSession.InterviewBot.constructor | interview.js:2-15 | nothing is said, queued or requested for speech, no interview, no resume, no time limit and no timer; the texts and the timer's text are those given |
| InterviewSession.InterviewBot.AddWelcomeMessage | interview.js:314-327 | the greeting is shown and queued for speech |
| InterviewSession.InterviewBot.PlayNextInQueue | interview.js:174-181 | the fields take exactly the `PlayNext` step |
| InterviewSession.InterviewBot.EnqueueTTS | interview.js:167-172 | the fields take exactly the `Enqueue` step |
| InterviewSession.InterviewBot.SegmentFinished | interview.js:183-196 | the fields take exactly the `Settle` step for the segment's outcome |
| InterviewSession.InterviewBot.AddMessage | interview.js:542-557 | the bubble is shown; only a bot message is queued, once, with its tags stripped; the queue stays valid |
| InterviewSession.InterviewBot.Post | interview.js:542-557 | a bot message is shown, and the speech queue takes exactly the `enqueueTTS` step for its stripped text |
| InterviewSession.InterviewBot.StopThenPost | interview.js:493-495 | the interview ends and the closing message is followed by the given one |
| InterviewSession.InterviewBot.HandleChatSubmit | interview.js:329-340 | a message blank after trimming changes no bubble, message, speech step, request or control; otherwise the trimmed message is shown as the user's bubble and pushed to `chatHistory`, and after that bubble the handler chosen by `RouteFor` posts, enables and sends exactly what its route does |
| InterviewSession.InterviewBot.ProcessUserMessage | interview.js:342-352 | exactly one user entry is pushed to `chatHistory`, then exactly one handler runs, chosen by `RouteFor`, and posts, enables and sends exactly what its route does after the bubbles shown before it |
| InterviewSession.InterviewBot.PrepareInterview | interview.js:361-386 | the description of the requested role, company and resume use is posted, Start is enabled, and no interview starts |
| InterviewSession.InterviewBot.HandleGeneralResponse | interview.js:508-523 | the help text or the invitation is posted, by whether the message mentions help |
| InterviewSession.InterviewBot.SendAnswer | interview.js:467-484 | the answer is sent with the current interview id and the last question, and nothing is posted |
| InterviewSession.InterviewBot.AnswerArrived | interview.js:486-505 | `done` ends the interview; a next question is posted and becomes `lastQuestion`; a failure posts the apology and leaves `lastQuestion` and the session unchanged |
| InterviewSession.InterviewBot.StartInterview | interview.js:595-605 | the interview is active, Start is disabled, Stop and Ask Again are enabled, and the timer counts up or down from the limit |
| InterviewSession.InterviewBot.RequestFirstQuestion | interview.js:616-633 | the first question is requested for the topic of the first start command in `chatHistory` |
| InterviewSession.InterviewBot.FirstQuestionArrived | interview.js:635-645 | the id and the question are recorded and the question is posted; a failure posts the apology and changes nothing else |
| InterviewSession.InterviewBot.AskAgain | interview.js:648-670 | nothing happens unless the interview is active with a non-empty last question; then the follow-up prompt is posted and an empty answer is sent |
| InterviewSession.InterviewBot.FollowUpArrived | interview.js:670-684 | a next question is posted and becomes `lastQuestion`; a failure, or a `done` reply, posts the apology |
| InterviewSession.InterviewBot.StopInterview | interview.js:687-701 | the interview is inactive, the timer is cleared, Start and the report button are offered, and the duration is posted |
| InterviewSession.InterviewBot.SetTimeLimit | interview.js:79-91 | the limit is stored, and the display reads "No Limit" or the minutes followed by ":00" |
| InterviewSession.InterviewBot.StartTimer | interview.js:93-118 | with no limit the clock counts up from "00:00"; otherwise it counts down from the limit in seconds |
| InterviewSession.InterviewBot.StopTimer | interview.js:120-125 | no timer runs |
| InterviewSession.InterviewBot.CountUpTick | interview.js:96-101 | the display is the elapsed time, which reads back as the elapsed seconds |
| InterviewSession.InterviewBot.CountdownTick | interview.js:104-116 | one second less is shown; at zero the interview stops and the time-up message follows the closing one |
| InterviewSession.InterviewBot.ProcessUploadedFile | interview.js:148-165 | the file is accepted exactly when its extension is allowed; a refused file leaves `uploadedResume` unchanged |
| InterviewSession.InterviewBot.UploadSettled | interview.js:200-228 | the success or the failure message is posted |
| Signup.Score | signup.js:133-139 | the score is at most four |
| Signup.NameRules | signup.js:90-93 | the first failing rule decides the message: blank, then one character, then a character other than a letter or white space; a name that passes starts and ends with a letter |
| Signup.EmailFieldRule | signup.js:95-98 | the e-mail passes exactly when its trimmed value matches the pattern, and is "required" exactly when it is blank |
| Signup.PasswordRule | signup.js:100-105 | the password passes exactly when it has eight characters, no line break, a lower-case letter, an upper-case letter and a digit; it is "required" only when empty |
| Signup.ConfirmRule | signup.js:107-109 | the confirmation passes exactly when it is non-empty and equal to the password |
| Signup.ValidPasswordIsStrong | signup.js:100-153 | every password that passes is rated Strong |
| Signup.StrongPasswordRefused | signup.js:103 | the converse fails: "Abcdefg1" followed by a line break is rated Strong and refused |
| Signup.StrengthLabels | signup.js:141-153 | the label is empty exactly for an empty password, Weak below 3, Medium at 3, and Strong exactly when all four criteria hold |
| Signup.DisplayRules | signup.js:113-124 | on blur and submit an error is always shown; while typing, a password input or an empty input keeps its display; a pass clears the error |
| Signup.SignupForm.constructor | signup.js:10-15 | four empty inputs, the two password inputs masked, nothing shown |
| Signup.SignupForm.ValidateField | signup.js:83-126 | the check passes exactly when the input's chain sets no message; only that input's display is redrawn; the password input also rates strength |
| Signup.SignupForm.Input | signup.js:28 | the new value is stored and checked without forcing its error to show |
| Signup.SignupForm.Submit | signup.js:34-54 | every field is checked with its error shown; the request goes out exactly when all four pass, with the name and e-mail trimmed and the password as typed |
| Signup.SignupForm.Refused | signup.js:64-74 | "Email already exists" is shown under the e-mail input, any other refusal changes no field; the button is reset |
| Signup.SignupForm.Unreachable | signup.js:75-79 | the button is reset |
| Login.PasswordRule | login.js:94-96 | the password passes exactly when at least six characters remain after trimming, and is "required" exactly when it is blank |
| Login.EmailFieldRule | login.js:89-92 | the e-mail passes exactly when its trimmed value matches the pattern |
| Login.BlanksDoNotCount | login.js:84-96 | "     x" is too short, though it has six characters |
| Login.DisplayRules | login.js:100-107 | an error is shown exactly when forced or when the trimmed value is non-empty, and otherwise left alone; a pass clears it |
| Login.LoginForm.constructor | login.js:7-12 | both inputs empty, nothing shown |
| Login.LoginForm.ValidateEmail | login.js:83-109 | passes exactly when the e-mail chain sets no message, and redraws the e-mail display |
| Login.LoginForm.ValidatePassword | login.js:83-109 | passes exactly when the password chain sets no message, and redraws the password display |
| Login.LoginForm.InputEmail | login.js:26 | the new e-mail is stored and checked without forcing its error to show |
| Login.LoginForm.InputPassword | login.js:27 | the new password is stored and checked without forcing its error to show |
| Login.LoginForm.Submit | login.js:32-49 | both inputs are checked, with errors shown, before either result is used; the request goes out exactly when both pass, with the trimmed e-mail and the password as typed |
| Login.LoginForm.Refused | login.js:55-58 | the server's detail, or the default text, is shown under the e-mail input; the button is reset |
| Login.LoginForm.Unreachable | login.js:59-63 | the apology is shown under the e-mail input; the button is reset |
| Faq.Click | faq.js:41-51 | the flags in place become exactly `AfterClick` of the old flags |
| Faq.AtMostOneOpen | faq.js:42-50 | after any click at most one item is open |
| Faq.ClickOpenCloses | faq.js:42-49 | clicking the open item leaves every item closed |
| Faq.ClickClosedOpens | faq.js:45-50 | clicking a closed item leaves exactly that item open |
| Faq.ClickIsLocal | faq.js:42-50 | the outcome depends only on whether the clicked item was open |
| Faq.ClickTwiceCloses | faq.js:42-50 | clicking a closed item twice closes everything |
| Dashboard.BrowserStorage.StartNewInterview | dashboard.js:203-205 | `latestReport` leaves local storage and `interviewReport` leaves session storage, and nothing else changes |
| Dashboard.FirstTruthySpec | dashboard.js:8-10 | the `||` chain yields the earliest truthy value, and nothing only when none is truthy |
| Dashboard.ReportPrecedence | dashboard.js:8-12 | the report text is the first truthy value among local `latestReport`, session `interviewReport` and local `interviewReport`; the error path is taken exactly when none is |
| Dashboard.StartingOverForgets | dashboard.js:203-205 | after starting over, only a local `interviewReport` can still be loaded |
| Dashboard.NewInterviewShowsError | dashboard.js:203-205 | after starting over, with no local `interviewReport`, a fresh dashboard shows the error message |
| Dashboard.TotalErrorsFallback | dashboard.js:96 | the count is `total_errors` when non-zero, else the number of mistakes, and zero exactly when both are absent or zero |
| Dashboard.PanelRule | dashboard.js:98-116 | a panel is shown exactly when its list is present and non-empty, with one entry per element, in order |
| Dashboard.EmotionIconRule | dashboard.js:133-143 | the six emotions are looked up regardless of case, anything else is `meh`, and every icon is one of the table's |
| Dashboard.CapitalisedEmotion | dashboard.js:142 | "Calm" gets the `smile-beam` icon |
| Dashboard.ConstructorIsNotAnIcon | dashboard.js:142 | as written, "Constructor" finds an inherited member of the lookup object, where the table gives `meh` |
| Dashboard.AsWrittenAgreesElsewhere | dashboard.js:142 | apart from the inherited names, the written lookup and the table lookup agree |
| Dashboard.RenderedIcons | dashboard.js:119-130 | with the corrected lookup, one icon per emotion of the report, each a known icon |
| Dashboard.RenderedIconsAsWritten | dashboard.js:125-130 | the page as written shows the same icons except at an emotion whose lowercase name is `constructor` or `__proto__`, where it shows that inherited member |
| Dashboard.DashboardManager.constructor | dashboard.js:1-5 | a fresh dashboard holds the report chosen and parsed from storage, and shows it or the error |
| Dashboard.DashboardManager.LoadReport | dashboard.js:7-22 | the first truthy stored text is parsed and rendered; no text, or a text that does not parse, shows the error and leaves `reportData` as it was |

## Left out

- The HTTP endpoints (`/speak`, `/start_interview`, `/answer_question`, `/upload_resume`, `/signup`, `/login`) are not modelled. Their answers are parameters of the method that receives them. `AnswerReply`, `StartReply` and `SegmentOutcome` each list the outcomes the code tells apart once an answer has arrived; an answer that never arrives, and the reply shapes named below, are not modelled.
- Timing is not modelled:
  - `setTimeout` and `setInterval` are collapsed. The 800 ms delay of the general reply and the 1 s delay before the first question are not kept.
  - `Date.now` is replaced by an `elapsed` seconds parameter.
  - One call of `CountUpTick` or `CountdownTick` stands for one interval tick.
  - The typing indicator is not modelled.
- Toggling the microphone, recording, transcription and the webcam (interview.js:231-311) are left out as browser media APIs. `playTTS` and `playSentencesSequentially` are left out too; nothing calls them.
- `generateReport`, the theme and the keyboard shortcuts are not modelled. They are rendering, storage writes and navigation.
- `generateInterviewQuestion` is left out because it is random and unused.
- The DOM is reduced:
  - each bubble's HTML becomes the `transcript` entry it adds;
  - a field's classes and error element become a `FieldView`;
  - the report markup becomes the `Rendered` value.
- `animateScore`, the charts and the remaining `populate*` sections of dashboard.js are not modelled. They are floating point or plain rendering.
- `downloadReport` is not modelled, for the same reason.
- index.js and contact.js are not part of this model.
- `InterviewSession.InterviewBot.constructor` takes the bot's texts, the initial controls and the timer's initial text as parameters instead of reading the page. interview.js writes the `Phrasebook` texts; the controls' initial state and the timer's initial text stand for the page.
- `chatHistory` is recorded, but only `fetchFirstQuestion` reads it.
- Case folding is ASCII only, and string lengths count code points rather than UTF-16 units. The 300-character threshold and the length checks agree with the source only on text where the two counts match.
- The password-visibility toggles are not modelled. In the model, whether an input is of type password is fixed when the signup form is created.
- `JSON.parse` is the parameter `parse` of `Dashboard.DashboardManager.LoadReport`. It returns `None` where parsing throws.
- A JSON text that parses to something other than a report object (for example `null`) is not modelled, and the render errors it causes later are not modelled either.
- `Dashboard.DashboardManager.LoadReport` shows the dashboard at once, where the source waits 1.5 s; the error path's 1 s wait is collapsed likewise.
- A segment whose `playTTSWithPromise` never settles is not modelled: when `audio.play()` is refused, or the `/speak` fetch or its `blob()` never answers, the promise stays pending, `isSpeaking` stays true and every later message waits behind it. `SegmentOutcome` has only the outcomes that settle, so `SpeechQueue.SettleProgress` and `SpeechQueue.DrainsToIdle` hold only when every segment settles.
- `InterviewSession.InterviewBot.FirstQuestionArrived`: an ok `/start_interview` reply without `question` is not modelled. There the source records the interview id, shows an "undefined" bubble, stripping its tags throws, and the catch block posts the apology.
- `InterviewSession.InterviewBot.AnswerArrived`: an ok reply without `next_question`, or a `done` reply without `message`, is not modelled. There the source shows an "undefined" bubble, stripping its tags throws, and the catch block posts the apology; in the `done` case the interview has already been stopped.
- `Dashboard.RenderedIcons`: the rendered icons come from the corrected lookup `Dashboard.EmotionIcon` (see Findings). For an emotion whose lowercase name is `constructor` or `__proto__` the page as written shows an inherited member instead; `Dashboard.RenderedIconsAsWritten` states where the two differ.
- `Dashboard.DashboardManager.constructor`: the screen it settles on is rendered with the corrected icon lookup, not the lookup of dashboard.js:142 as written.
- `Dashboard.DashboardManager.LoadReport`: the dashboard it shows is rendered with the corrected icon lookup, not the lookup of dashboard.js:142 as written.
- `InterviewSession.InterviewBot.FollowUpArrived`: a `done` reply to `askAgain`, which has no `next_question`, is stated from the code as written. The bubble reads "undefined". Stripping its tags throws, so nothing is spoken. The catch block then posts the apology.

## Findings

| source | as written | input that shows it | evidently intended | confidence | as-written member | corrected member |
|---|---|---|---|---|---|---|
| dashboard.js:142 | `icons[emotion.toLowerCase()] \|\| 'meh'` looks the name up on a plain object, so the members every object inherits are found too | an emotion named "Constructor" (or "constructor", "__proto__", in any case) yields an inherited object, not an icon name | any emotion outside the six known ones gets `meh` | not executed; follows from the lookup semantics of plain objects | Dashboard.ConstructorIsNotAnIcon | Dashboard.EmotionIconRule |
